/** The documents the wizard reads and writes: entries of a discovery
    document, the activity records it builds, and the experiment. */
module Documents {
  import opened Wrappers

  /** A JSON scalar, as found in a declared default or stored as an
      argument's value. `Null` is JSON's `null` (Python's `None`). */
  datatype Value = Null | Bool(b: bool) | Int(i: int) | Str(s: string)

  /** One declared argument of a discovered activity. `default` is
      `None` when the entry has no "default" key, and `Some(Null)` when
      the key is there with the value `null`. */
  datatype ArgSpec = ArgSpec(name: string, default: Option<Value>)

  /** One entry of a discovery's "activities" list: its "name", "type"
      ("probe" or "action"), "mod", "doc" and "arguments" keys. A
      missing "arguments" key is the empty list. The wizard only echoes
      "doc" to the operator, so no operation here reads that field. */
  datatype Discovered = Discovered(
    name: string,
    kind: string,
    mod: string,
    doc: Option<string>,
    arguments: seq<ArgSpec>)

  /** A discovery document; only its "activities" list is read. */
  datatype Discovery = Discovery(activities: seq<Discovered>)

  /** A menu candidate: the `(name, activity)` pair the wizard lists. */
  datatype Candidate = Candidate(display: string, entry: Discovered)

  /** The "provider" of an activity record: its "type", "module",
      "func" and "arguments" keys. */
  datatype Provider = Provider(
    kind: string,
    moduleName: string,
    func: string,
    arguments: map<string, Value>)

  /** An activity record added to a hypothesis or to a method; the
      "tolerance" key is present exactly when `tolerance` is `Some`. */
  datatype Activity = Activity(
    kind: string,
    name: string,
    tolerance: Option<Value>,
    provider: Provider)

  /** The "steady-state-hypothesis" section; "probes" is present only
      when a discovery was loaded. */
  datatype Hypothesis = Hypothesis(title: string, probes: Option<seq<Activity>>)

  /** The experiment document. The "steady-state-hypothesis" and
      "method" keys are present exactly when `hypothesis` and `steps` are `Some`. */
  datatype Experiment = Experiment(
    version: string,
    title: string,
    description: string,
    tags: seq<string>,
    rollbacks: seq<Activity>,
    hypothesis: Option<Hypothesis>,
    steps: Option<seq<Activity>>)

  /** The document `init` starts from, before any answer is read. */
  const DefaultExperiment: Experiment :=
    Experiment("1.0.0", "", "N/A", [], [], None, None)

  /** The provider type every built activity gets. */
  const Python: string := "python"
}
