/** What a call of `add_activities` does to the pool, for every script
    of answers, and in the particular conversations the wizard is
    written for. */
module WizardProperties {
  import opened Wrappers
  import opened Documents
  import opened Prompts
  import opened Menu
  import opened Wizard

  /** The record was built from one of the candidates. */
  ghost predicate FromCatalog(act: Activity, cands: seq<Candidate>)
  {
    exists i | 0 <= i < |cands| :: BuiltFrom(act, cands[i].entry)
  }

  /** `after` is `before` with records appended and nothing else
      changed; every appended record was built from a candidate; and at
      most one appended record carries a tolerance, none unless
      `withTolerance`. */
  ghost predicate Extends(cands: seq<Candidate>, withTolerance: bool, before: seq<Activity>, after: seq<Activity>)
  {
    && |before| <= |after|
    && after[..|before|] == before
    && (forall k | |before| <= k < |after| :: FromCatalog(after[k], cands))
    && (forall k | |before| <= k < |after| && after[k].tolerance.Some? :: withTolerance)
    && (forall k, j | |before| <= k < j < |after| :: after[k].tolerance.None? || after[j].tolerance.None?)
  }

  lemma ExtendsTrans(cands: seq<Candidate>, t1: bool, t2: bool, a: seq<Activity>, b: seq<Activity>, c: seq<Activity>)
    requires Extends(cands, t1, a, b) && Extends(cands, t2, b, c)
    requires !t1 || !t2
    ensures Extends(cands, t1 || t2, a, c)
  {
    assert c[..|a|] == b[..|a|] by {
      assert c[..|b|] == b;
    }
    forall k | |a| <= k < |b| ensures c[k] == b[k] {
      assert c[..|b|][k] == b[k];
    }
  }

  lemma ExtendsByOne(cands: seq<Candidate>, withTolerance: bool, pool: seq<Activity>, k: nat, script: seq<Answer>)
    requires k < |cands|
    requires Build(cands[k].entry, withTolerance, script).Some?
    ensures Extends(cands, withTolerance, pool, pool + [Build(cands[k].entry, withTolerance, script).value.0])
  {
    var act := Build(cands[k].entry, withTolerance, script).value.0;
    BuildFields(cands[k].entry, withTolerance, script);
    assert (pool + [act])[|pool|] == act;
    assert FromCatalog(act, cands);
  }

  /** Every call keeps the pool's existing records, appends only
      records built from the candidates, and appends at most one record
      with a tolerance, none when called without `withTolerance`. This
      holds whatever the call raises, since records appended before an
      exception stay in the caller's list. */
  lemma {:induction false} AddExtends(cands: seq<Candidate>, pool: seq<Activity>, withTolerance: bool, script: seq<Answer>)
    ensures Extends(cands, withTolerance, pool, Add(cands, pool, withTolerance, script).pool)
    decreases |script|
  {
    match AskIndex(script)
    case None =>
    case Some((index, s1)) =>
      if index != 0 {
        match Select(|cands|, index)
        case None =>
        case Some(k) =>
          ConfirmChoiceExtends(cands, pool, withTolerance, k, s1);
      }
  }

  lemma {:induction false} ConfirmChoiceExtends(cands: seq<Candidate>, pool: seq<Activity>, withTolerance: bool, k: nat, script: seq<Answer>)
    requires k < |cands|
    ensures Extends(cands, withTolerance, pool, ConfirmChoice(cands, pool, withTolerance, cands[k].entry, script).pool)
    decreases |script|
  {
    match AskConfirm(script)
    case None =>
    case Some((use, s1)) =>
      if use {
        CommitExtends(cands, pool, withTolerance, k, s1);
      } else {
        match AskConfirm(s1)
        case None =>
        case Some((another, s2)) =>
          if another {
            var nested := Add(cands, pool, false, s2);
            AddExtends(cands, pool, false, s2);
            if nested.outcome.Returned? {
              CommitExtends(cands, nested.pool, withTolerance, k, nested.rest);
              ExtendsTrans(cands, false, withTolerance, pool, nested.pool,
                           Commit(cands, nested.pool, withTolerance, cands[k].entry, nested.rest).pool);
            }
          }
      }
  }

  lemma {:induction false} CommitExtends(cands: seq<Candidate>, pool: seq<Activity>, withTolerance: bool, k: nat, script: seq<Answer>)
    requires k < |cands|
    ensures Extends(cands, withTolerance, pool, Commit(cands, pool, withTolerance, cands[k].entry, script).pool)
    decreases |script|
  {
    match Build(cands[k].entry, withTolerance, script)
    case None =>
    case Some((act, s1)) =>
      var grown := pool + [act];
      ExtendsByOne(cands, withTolerance, pool, k, script);
      match AskConfirm(s1)
      case None =>
      case Some((more, s2)) =>
        if more {
          AddExtends(cands, grown, false, s2);
          ExtendsTrans(cands, withTolerance, false, pool, grown, Add(cands, grown, false, s2).pool);
        }
  }

  /** Answering 0 at the menu returns at once with the pool unchanged. */
  lemma EscapeLeavesPoolUnchanged(cands: seq<Candidate>, pool: seq<Activity>, withTolerance: bool, rest: seq<Answer>)
    ensures Add(cands, pool, withTolerance, [Index(0)] + rest) == Session(pool, rest, Returned)
  {
    assert ([Index(0)] + rest)[1..] == rest;
  }

  /** A number outside the list raises IndexError with the pool
      unchanged; only 1..n and the negative positions -(n-1)..-1 select. */
  lemma OutOfRangeRaises(cands: seq<Candidate>, pool: seq<Activity>, withTolerance: bool, index: int, rest: seq<Answer>)
    requires index != 0
    requires index > |cands| || index <= -|cands|
    ensures Add(cands, pool, withTolerance, [Index(index)] + rest) == Session(pool, rest, Raised(IndexError))
  {
    assert ([Index(index)] + rest)[1..] == rest;
  }

  /** With no candidates, no call adds anything. */
  lemma EmptyCatalogAddsNothing(pool: seq<Activity>, withTolerance: bool, script: seq<Answer>)
    ensures Add([], pool, withTolerance, script).pool == pool
  {
  }

  /** Adding `cands[k]` appends exactly one record built from it, with
      a tolerance exactly when `withTolerance`, before anything a further
      selection adds; if input ends while it is built, nothing is
      appended. */
  lemma CommitAppends(cands: seq<Candidate>, pool: seq<Activity>, withTolerance: bool, k: nat, script: seq<Answer>)
    requires k < |cands|
    ensures var r := Commit(cands, pool, withTolerance, cands[k].entry, script);
      var built := Build(cands[k].entry, withTolerance, script);
      && (built.None? ==> r == Session(pool, [], Raised(Abort)))
      && (built.Some? ==>
            && |pool| < |r.pool|
            && r.pool[..|pool| + 1] == pool + [built.value.0]
            && BuiltFrom(r.pool[|pool|], cands[k].entry)
            && (r.pool[|pool|].tolerance.Some? <==> withTolerance))
  {
    var r := Commit(cands, pool, withTolerance, cands[k].entry, script);
    var built := Build(cands[k].entry, withTolerance, script);
    if built.Some? {
      var grown := pool + [built.value.0];
      BuildFields(cands[k].entry, withTolerance, script);
      match AskConfirm(built.value.1)
      case None =>
      case Some((more, s2)) =>
        if more {
          AddExtends(cands, grown, false, s2);
          assert r.pool[..|grown|] == grown;
          assert r.pool[|pool|] == grown[|pool|];
        }
    }
  }

  /** Picking entry `index` and confirming it appends exactly one record
      built from that entry, with a tolerance exactly when
      `withTolerance`, before anything a further selection adds; if
      input ends while it is built, nothing is appended. */
  lemma ConfirmedSelectionAppends(cands: seq<Candidate>, pool: seq<Activity>, withTolerance: bool, index: int, rest: seq<Answer>)
    requires 1 <= index <= |cands|
    ensures var r := Add(cands, pool, withTolerance, [Index(index), Yes] + rest);
      var built := Build(cands[index - 1].entry, withTolerance, rest);
      && (built.None? ==> r == Session(pool, [], Raised(Abort)))
      && (built.Some? ==>
            && |pool| < |r.pool|
            && r.pool[..|pool| + 1] == pool + [built.value.0]
            && BuiltFrom(r.pool[|pool|], cands[index - 1].entry)
            && (r.pool[|pool|].tolerance.Some? <==> withTolerance))
  {
    var script := [Index(index), Yes] + rest;
    assert script[1..] == [Yes] + rest && ([Yes] + rest)[1..] == rest;
    var k := index - 1;
    assert Add(cands, pool, withTolerance, script) == ConfirmChoice(cands, pool, withTolerance, cands[k].entry, [Yes] + rest);
    assert Add(cands, pool, withTolerance, script) == Commit(cands, pool, withTolerance, cands[k].entry, rest);
    CommitAppends(cands, pool, withTolerance, k, rest);
  }

  /** Declining the selected entry and then declining to pick another
      returns with the pool unchanged. */
  lemma DeclineTwiceLeavesPoolUnchanged(cands: seq<Candidate>, pool: seq<Activity>, withTolerance: bool, index: int, rest: seq<Answer>)
    requires Select(|cands|, index).Some?
    requires index != 0
    ensures Add(cands, pool, withTolerance, [Index(index), No, No] + rest) == Session(pool, rest, Returned)
  {
    var script := [Index(index), No, No] + rest;
    assert script[1..] == [No, No] + rest && ([No, No] + rest)[1..] == [No] + rest && ([No] + rest)[1..] == rest;
  }

  /** A number that selects a candidate leads to the confirmation of
      that candidate, with the answers after the number. */
  lemma PickLeadsToConfirmation(cands: seq<Candidate>, pool: seq<Activity>, withTolerance: bool, script: seq<Answer>)
    requires script != [] && script[0].Index? && script[0].n != 0
    requires Select(|cands|, script[0].n).Some?
    ensures Add(cands, pool, withTolerance, script)
      == ConfirmChoice(cands, pool, withTolerance, cands[Select(|cands|, script[0].n).value].entry, script[1..])
  {
  }

  /** Declining and asking for another runs the nested call first. */
  lemma DeclineRunsNestedCall(cands: seq<Candidate>, pool: seq<Activity>, withTolerance: bool,
                              selected: Discovered, script: seq<Answer>)
    requires |script| >= 2 && script[0] == No && script[1] == Yes
    ensures var nested := Add(cands, pool, false, script[2..]);
      ConfirmChoice(cands, pool, withTolerance, selected, script)
        == if nested.outcome.Raised? then nested
           else Commit(cands, nested.pool, withTolerance, selected, nested.rest)
  {
    assert script[1..][1..] == script[2..];
    assert AskConfirm(script) == Some((false, script[1..]));
    assert AskConfirm(script[1..]) == Some((true, script[2..]));
  }

  /** Declining the selected entry and asking for another runs a
      nested call, without tolerance, on the same candidates; unless it
      raises, the declined entry is then added all the same, after the
      nested call's records and with the outer call's tolerance setting
      (`CommitAppends` says what that adds). */
  lemma DeclineThenPickAnother(cands: seq<Candidate>, pool: seq<Activity>, withTolerance: bool, index: int, script: seq<Answer>)
    requires 1 <= index <= |cands|
    requires |script| >= 3 && script[0] == Index(index) && script[1] == No && script[2] == Yes
    ensures var nested := Add(cands, pool, false, script[3..]);
      Add(cands, pool, withTolerance, script)
        == if nested.outcome.Raised? then nested
           else Commit(cands, nested.pool, withTolerance, cands[index - 1].entry, nested.rest)
  {
    PickLeadsToConfirmation(cands, pool, withTolerance, script);
    assert script[1..][2..] == script[3..];
    DeclineRunsNestedCall(cands, pool, withTolerance, cands[index - 1].entry, script[1..]);
  }

  /** The entry the operator declined is still appended once a nested
      selection returns: picking entry 1, declining it, asking for
      another and escaping leaves the declined entry in the pool. */
  lemma DeclinedEntryStillAppended()
    ensures var e := Discovered("stop_pod", "action", "chaosk8s.pod.actions", None, []);
      Add([Candidate(e.name, e)], [], false, [Index(1), No, Yes, Index(0), No])
        == Session([Activity("action", "stop_pod", None, Provider(Python, "chaosk8s.pod.actions", "stop_pod", map[]))], [], Returned)
  {
    var e := Discovered("stop_pod", "action", "chaosk8s.pod.actions", None, []);
    var cands := [Candidate(e.name, e)];
    var script := [Index(1), No, Yes, Index(0), No];
    assert script[1..][1..][1..] == [Index(0), No];
    assert Add(cands, [], false, [Index(0), No]) == Session([], [No], Returned);
    assert Build(e, false, [No]) == Some((Activity("action", "stop_pod", None, Provider(Python, "chaosk8s.pod.actions", "stop_pod", map[])), [No]));
  }
}
