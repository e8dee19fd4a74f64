/** What the document `init` returns says about the discovery and the
    operator's answers. */
module InitProperties {
  import opened Wrappers
  import opened Documents
  import opened Prompts
  import opened Wizard
  import opened WizardProperties
  import opened Init

  /** Every record was built from an entry of the catalog, and from a
      probe when `probesOnly`. */
  ghost predicate DrawnFrom(acts: seq<Activity>, catalog: seq<Discovered>, probesOnly: bool)
  {
    forall k | 0 <= k < |acts| ::
      exists i | 0 <= i < |catalog| :: BuiltFrom(acts[k], catalog[i]) && (probesOnly ==> catalog[i].kind == "probe")
  }

  /** At most one record carries a tolerance. */
  ghost predicate AtMostOneTolerance(acts: seq<Activity>)
  {
    forall k, j | 0 <= k < j < |acts| :: acts[k].tolerance.None? || acts[j].tolerance.None?
  }

  /** No record's arguments name `secrets` or `configuration`. */
  ghost predicate NoReservedArguments(acts: seq<Activity>)
  {
    forall k | 0 <= k < |acts| :: Reserved !! acts[k].provider.arguments.Keys
  }

  lemma ReservedExcluded(acts: seq<Activity>, catalog: seq<Discovered>, probesOnly: bool)
    requires DrawnFrom(acts, catalog, probesOnly)
    ensures NoReservedArguments(acts)
  {
    forall k | 0 <= k < |acts| ensures Reserved !! acts[k].provider.arguments.Keys {
      var act := acts[k];
      assert exists i | 0 <= i < |catalog| ::
        BuiltFrom(act, catalog[i]) && (probesOnly ==> catalog[i].kind == "probe");
      var i :| 0 <= i < |catalog| && BuiltFrom(acts[k], catalog[i]) && (probesOnly ==> catalog[i].kind == "probe");
      assert acts[k].provider.arguments.Keys == Declared(catalog[i].arguments);
    }
  }

  /** The probes picked for a hypothesis are built from the discovery's
      probes; at most one carries a tolerance. */
  lemma SteadyStateFacts(discovery: Option<Discovery>, script: seq<Answer>)
    requires SteadyState(discovery, script).Done?
    ensures var h := SteadyState(discovery, script).value;
      && h.title == AskRequired(script).value.0
      && (h.probes.Some? <==> discovery.Some?)
      && (h.probes.Some? ==>
            && DrawnFrom(h.probes.value, discovery.value.activities, true)
            && AtMostOneTolerance(h.probes.value))
  {
    if discovery.Some? {
      var acts := discovery.value.activities;
      var s := AskRequired(script).value.1;
      var cands := Probes(acts);
      var pool := Add(cands, [], true, s).pool;
      AddExtends(cands, [], true, s);
      ProbesAreProbes(acts);
      forall k | 0 <= k < |pool|
        ensures exists j | 0 <= j < |acts| :: BuiltFrom(pool[k], acts[j]) && acts[j].kind == "probe"
      {
        assert FromCatalog(pool[k], cands);
        var i :| 0 <= i < |cands| && BuiltFrom(pool[k], cands[i].entry);
        assert cands[i].entry in acts;
        var j :| 0 <= j < |acts| && acts[j] == cands[i].entry;
      }
    }
  }

  /** The method is there exactly when a discovery was loaded; its
      records are built from discovered entries and carry no tolerance;
      nothing else of the document changes. */
  lemma MethodSectionFacts(discovery: Option<Discovery>, doc: Experiment, script: seq<Answer>)
    requires doc.steps.None?
    requires MethodSection(discovery, doc, script).Done?
    ensures var x := MethodSection(discovery, doc, script).value;
      && x == doc.(steps := x.steps)
      && (x.steps.Some? <==> discovery.Some?)
      && (x.steps.Some? ==>
            && DrawnFrom(x.steps.value, discovery.value.activities, false)
            && forall k | 0 <= k < |x.steps.value| :: x.steps.value[k].tolerance.None?)
  {
    if discovery.Some? {
      var acts := discovery.value.activities;
      var cands := Listed(acts);
      var pool := Add(cands, [], false, script).pool;
      AddExtends(cands, [], false, script);
      forall k | 0 <= k < |pool|
        ensures exists j | 0 <= j < |acts| :: BuiltFrom(pool[k], acts[j])
      {
        assert FromCatalog(pool[k], cands);
        var i :| 0 <= i < |cands| && BuiltFrom(pool[k], cands[i].entry);
        assert Entries(cands)[i] == acts[i];
      }
    }
  }

  /** `init` keeps the defaults it starts from: version "1.0.0",
      description "N/A", no tags, no rollbacks; the title is the first
      line the operator types. */
  lemma InitKeepsDefaults(discovery: Option<Discovery>, script: seq<Answer>)
    requires Initialize(discovery, script).Done?
    ensures var x := Initialize(discovery, script).value;
      && x.version == "1.0.0"
      && x.description == "N/A"
      && x.tags == []
      && x.rollbacks == []
      && x.title == AskRequired(script).value.0
  {
    var s1 := AskRequired(script).value.1;
    var doc := DefaultExperiment.(title := AskRequired(script).value.0);
    var s2 := AskConfirm(s1).value.1;
    if AskConfirm(s1).value.0 {
      var h := SteadyState(discovery, s2);
      MethodSectionFacts(discovery, doc.(hypothesis := Some(h.value)), h.rest);
    } else {
      MethodSectionFacts(discovery, doc, s2);
    }
  }

  /** The hypothesis is there exactly when the operator asked for one;
      its probes and the method are there exactly when a discovery was
      loaded. Every record comes from the discovery, the hypothesis's
      only from its probes; only the hypothesis carries tolerances, at
      most one; and no record's arguments name a reserved argument. */
  lemma InitSections(discovery: Option<Discovery>, script: seq<Answer>)
    requires Initialize(discovery, script).Done?
    ensures var x := Initialize(discovery, script).value;
      && (x.hypothesis.Some? <==> AskConfirm(AskRequired(script).value.1).value.0)
      && (x.steps.Some? <==> discovery.Some?)
      && (x.hypothesis.Some? ==> (x.hypothesis.value.probes.Some? <==> discovery.Some?))
      && (x.steps.Some? ==>
            && DrawnFrom(x.steps.value, discovery.value.activities, false)
            && NoReservedArguments(x.steps.value)
            && forall k | 0 <= k < |x.steps.value| :: x.steps.value[k].tolerance.None?)
      && (x.hypothesis.Some? && x.hypothesis.value.probes.Some? ==>
            var probes := x.hypothesis.value.probes.value;
            && DrawnFrom(probes, discovery.value.activities, true)
            && NoReservedArguments(probes)
            && AtMostOneTolerance(probes))
  {
    var x := Initialize(discovery, script).value;
    var s1 := AskRequired(script).value.1;
    var doc := DefaultExperiment.(title := AskRequired(script).value.0);
    var s2 := AskConfirm(s1).value.1;
    if AskConfirm(s1).value.0 {
      var h := SteadyState(discovery, s2);
      SteadyStateFacts(discovery, s2);
      MethodSectionFacts(discovery, doc.(hypothesis := Some(h.value)), h.rest);
      if h.value.probes.Some? {
        ReservedExcluded(h.value.probes.value, discovery.value.activities, true);
      }
    } else {
      MethodSectionFacts(discovery, doc, s2);
    }
    if x.steps.Some? {
      ReservedExcluded(x.steps.value, discovery.value.activities, false);
    }
  }

  lemma EmptySteadyState(script: seq<Answer>)
    requires SteadyState(Some(Discovery([])), script).Done?
    ensures SteadyState(Some(Discovery([])), script).value.probes == Some([])
  {
    assert Probes([]) == [];
    EmptyCatalogAddsNothing([], true, AskRequired(script).value.1);
  }

  lemma EmptyMethodSection(doc: Experiment, script: seq<Answer>)
    requires MethodSection(Some(Discovery([])), doc, script).Done?
    ensures MethodSection(Some(Discovery([])), doc, script).value.steps == Some([])
  {
    assert Listed([]) == [];
    EmptyCatalogAddsNothing([], false, script);
  }

  /** A discovery with no activities gives an empty method and, when a
      hypothesis is asked for, an empty list of probes. */
  lemma EmptyDiscoveryGivesEmptyLists(script: seq<Answer>)
    requires Initialize(Some(Discovery([])), script).Done?
    ensures var x := Initialize(Some(Discovery([])), script).value;
      && x.steps == Some([])
      && (x.hypothesis.Some? ==> x.hypothesis.value.probes == Some([]))
  {
    var discovery := Some(Discovery([]));
    var s1 := AskRequired(script).value.1;
    var doc := DefaultExperiment.(title := AskRequired(script).value.0);
    var s2 := AskConfirm(s1).value.1;
    if AskConfirm(s1).value.0 {
      var h := SteadyState(discovery, s2);
      EmptySteadyState(s2);
      EmptyMethodSection(doc.(hypothesis := Some(h.value)), h.rest);
      MethodSectionFacts(discovery, doc.(hypothesis := Some(h.value)), h.rest);
    } else {
      EmptyMethodSection(doc, s2);
    }
  }
}
