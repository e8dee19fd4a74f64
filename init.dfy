/** `init`: builds a new experiment document from the operator's
    answers, offering the discovered activities as candidates for the
    steady-state hypothesis (probes only) and for the method (all). */
module Init {
  import opened Wrappers
  import opened Documents
  import opened Prompts
  import opened Wizard

  /** A stage of the session: its value and the unread answers, or the
      exception that ended it. */
  datatype Step<T> = Done(value: T, rest: seq<Answer>) | Failed(error: Error)

  // ---------------------------------------------------------------------
  // Candidates
  // ---------------------------------------------------------------------

  /** The entries behind a list of candidates. */
  function Entries(cands: seq<Candidate>): (r: seq<Discovered>)
    ensures |r| == |cands|
  {
    seq(|cands|, k requires 0 <= k < |cands| => cands[k].entry)
  }

  /** The method's candidates: every discovered activity, in order,
      listed under its name. */
  function Listed(acts: seq<Discovered>): (r: seq<Candidate>)
    ensures Entries(r) == acts
    ensures forall k | 0 <= k < |r| :: r[k].display == r[k].entry.name
  {
    seq(|acts|, k requires 0 <= k < |acts| => Candidate(acts[k].name, acts[k]))
  }

  /** The hypothesis's candidates: the discovered activities whose type
      is "probe", in order, listed under their names. */
  function Probes(acts: seq<Discovered>): (r: seq<Candidate>)
  {
    if acts == [] then []
    else
      var a := acts[|acts| - 1];
      Probes(acts[..|acts| - 1]) + if a.kind == "probe" then [Candidate(a.name, a)] else []
  }

  /** Lines 185-188: the appending loop that collects the probes. */
  method ProbeCandidates(acts: seq<Discovered>) returns (cands: seq<Candidate>)
    ensures cands == Probes(acts)
    ensures forall k | 0 <= k < |cands| :: cands[k].entry.kind == "probe" && cands[k].entry in acts
  {
    cands := [];
    for i := 0 to |acts|
      invariant cands == Probes(acts[..i])
    {
      assert acts[..i + 1][..i] == acts[..i];
      if acts[i].kind == "probe" {
        cands := cands + [Candidate(acts[i].name, acts[i])];
      }
    }
    assert acts[..|acts|] == acts;
    ProbesAreProbes(acts);
  }

  /** Collecting probes keeps the discovery's order: the probes of a
      concatenation are the probes of each part, one after the other. */
  lemma {:induction false} ProbesConcat(a: seq<Discovered>, b: seq<Discovered>)
    ensures Probes(a + b) == Probes(a) + Probes(b)
    decreases |b|
  {
    if b != [] {
      var init := b[..|b| - 1];
      assert (a + b)[..|a + b| - 1] == a + init;
      ProbesConcat(a, init);
    } else {
      assert a + b == a;
    }
  }

  /** Every collected candidate is a probe of the discovery, listed
      under its own name. */
  lemma {:induction false} ProbesAreProbes(acts: seq<Discovered>)
    ensures forall k | 0 <= k < |Probes(acts)| ::
      && Probes(acts)[k].entry.kind == "probe"
      && Probes(acts)[k].entry in acts
      && Probes(acts)[k].display == Probes(acts)[k].entry.name
  {
    if acts != [] {
      var init := acts[..|acts| - 1];
      ProbesAreProbes(init);
      forall k | 0 <= k < |Probes(init)| ensures Probes(init)[k].entry in acts {
        assert Probes(init)[k].entry in init;
      }
    }
  }

  /** Each probe of the discovery is collected as often as it occurs
      there, and nothing else is collected. */
  lemma {:induction false} ProbesCount(acts: seq<Discovered>, e: Discovered)
    ensures multiset(Entries(Probes(acts)))[e] == if e.kind == "probe" then multiset(acts)[e] else 0
  {
    if acts != [] {
      var init := acts[..|acts| - 1];
      var a := acts[|acts| - 1];
      ProbesCount(init, e);
      assert acts == init + [a];
      var tail := if a.kind == "probe" then [Candidate(a.name, a)] else [];
      assert Entries(Probes(acts)) == Entries(Probes(init)) + Entries(tail);
    }
  }

  // ---------------------------------------------------------------------
  // The document
  // ---------------------------------------------------------------------

  /** The steady-state hypothesis: its title, then, when a discovery
      was loaded, the probes picked from it with a tolerance asked for
      the first one. */
  function SteadyState(discovery: Option<Discovery>, script: seq<Answer>): Step<Hypothesis>
  {
    match AskRequired(script)
    case None => Failed(Abort)
    case Some((title, s)) =>
      if discovery.None? then Done(Hypothesis(title, None), s)
      else
        var run := Add(Probes(discovery.value.activities), [], true, s);
        if run.outcome.Raised? then Failed(run.outcome.error)
        else Done(Hypothesis(title, Some(run.pool)), run.rest)
  }

  /** The method, added when a discovery was loaded: activities picked
      from all discovered ones. */
  function MethodSection(discovery: Option<Discovery>, doc: Experiment, script: seq<Answer>): Step<Experiment>
  {
    if discovery.None? then Done(doc, script)
    else
      var run := Add(Listed(discovery.value.activities), [], false, script);
      if run.outcome.Raised? then Failed(run.outcome.error)
      else Done(doc.(steps := Some(run.pool)), run.rest)
  }

  /** One run of `init` on an optional discovery (`None` when there is
      no discovery file, or when it holds an empty object). */
  function Initialize(discovery: Option<Discovery>, script: seq<Answer>): Step<Experiment>
  {
    match AskRequired(script)
    case None => Failed(Abort)
    case Some((title, s1)) =>
      var doc := DefaultExperiment.(title := title);
      match AskConfirm(s1)
      case None => Failed(Abort)
      case Some((wanted, s2)) =>
        if !wanted then MethodSection(discovery, doc, s2)
        else
          match SteadyState(discovery, s2)
          case Failed(e) => Failed(e)
          case Done(h, s3) => MethodSection(discovery, doc.(hypothesis := Some(h)), s3)
  }

  /** `init`, building the document key by key; the lists handed to
      `add_activities` are pools it appends to. */
  method Init(discovery: Option<Discovery>, script: seq<Answer>) returns (r: Step<Experiment>)
    ensures r == Initialize(discovery, script)
  {
    var experiment := DefaultExperiment;
    var asked := AskRequired(script);
    if asked.None? {
      return Failed(Abort);
    }
    experiment := experiment.(title := asked.value.0);
    var rest := asked.value.1;
    var wanted := AskConfirm(rest);
    if wanted.None? {
      return Failed(Abort);
    }
    rest := wanted.value.1;
    ghost var doc := experiment;
    if wanted.value.0 {
      ghost var from := rest;
      var title := AskRequired(rest);
      if title.None? {
        return Failed(Abort);
      }
      rest := title.value.1;
      var hypothesis := Hypothesis(title.value.0, None);
      if discovery.Some? {
        var probes := new Pool();
        var cands := ProbeCandidates(discovery.value.activities);
        var outcome;
        rest, outcome := AddActivities(cands, probes, true, rest);
        if outcome.Raised? {
          return Failed(outcome.error);
        }
        hypothesis := hypothesis.(probes := Some(probes.items));
      }
      assert SteadyState(discovery, from) == Done(hypothesis, rest);
      experiment := experiment.(hypothesis := Some(hypothesis));
    }
    ghost var section := MethodSection(discovery, experiment, rest);
    assert Initialize(discovery, script) == section;
    if discovery.Some? {
      var steps := new Pool();
      var outcome;
      rest, outcome := AddActivities(Listed(discovery.value.activities), steps, false, rest);
      if outcome.Raised? {
        return Failed(outcome.error);
      }
      experiment := experiment.(steps := Some(steps.items));
    }
    r := Done(experiment, rest);
  }
}
