/** `add_activities`: the recursive selection loop that lets the
    operator pick activities from a list of candidates, builds an
    activity record for each, and appends the records to a pool.

    `Add` and `Commit` state, as functions of the operator's answers,
    what one call does; `AddActivities` is the imperative procedure,
    appending to a `Pool` in place, proved to do exactly that. */
module Wizard {
  import opened Wrappers
  import opened Documents
  import opened Prompts
  import opened Menu

  /** Argument names that are never asked for. */
  const Reserved: set<string> := {"secrets", "configuration"}

  /** The exceptions that end a session: a menu number outside the list,
      and end of input (click's Abort). */
  datatype Error = IndexError | Abort

  /** How a call ends: it returned, or an exception propagated out. */
  datatype Outcome = Returned | Raised(error: Error)

  /** The pool after a call, the answers not yet read, and how it ended. */
  datatype Session = Session(pool: seq<Activity>, rest: seq<Answer>, outcome: Outcome)

  /** The caller's list that `add_activities` appends to. */
  class Pool {
    var items: seq<Activity>

    constructor ()
      ensures items == []
    {
      items := [];
    }

    method Append(a: Activity)
      modifies this
      ensures items == old(items) + [a]
    {
      items := items + [a];
    }
  }

  // ---------------------------------------------------------------------
  // Arguments
  // ---------------------------------------------------------------------

  /** The default shown at an argument's prompt: a declared `null` is
      shown as the empty string, so that an empty line is accepted. */
  function DisplayDefault(d: Option<Value>): Option<Value>
  {
    if d == Some(Null) then Some(Str("")) else d
  }

  /** The value stored for one argument: the answer to its prompt, with
      the empty string mapped back to `null` when that was the declared
      default. */
  function ArgumentValue(spec: ArgSpec, script: seq<Answer>): (r: Option<(Value, seq<Answer>)>)
    ensures r.Some? ==> |r.value.1| < |script|
  {
    match AskLine(DisplayDefault(spec.default), script)
    case None => None
    case Some((typed, rest)) =>
      Some((if spec.default == Some(Null) && typed == Str("") then Null else typed, rest))
  }

  /** The "arguments" map filled in from the declared arguments, in
      order, skipping the reserved names; `None` on end of input. */
  function Arguments(specs: seq<ArgSpec>, script: seq<Answer>): (r: Option<(map<string, Value>, seq<Answer>)>)
    ensures r.Some? ==> |r.value.1| <= |script|
  {
    if specs == [] then Some((map[], script))
    else
      match Arguments(specs[..|specs| - 1], script)
      case None => None
      case Some((args, s)) =>
        var spec := specs[|specs| - 1];
        if spec.name in Reserved then Some((args, s))
        else
          match ArgumentValue(spec, s)
          case None => None
          case Some((v, rest)) => Some((args[spec.name := v], rest))
  }

  /** The argument names an entry declares, less the reserved ones. */
  function Declared(specs: seq<ArgSpec>): set<string>
  {
    set k | 0 <= k < |specs| && specs[k].name !in Reserved :: specs[k].name
  }

  // ---------------------------------------------------------------------
  // Building one activity record
  // ---------------------------------------------------------------------

  /** The record built from the selected entry, after the tolerance
      prompt when `withTolerance` holds and one prompt per argument;
      `None` on end of input. */
  function Build(selected: Discovered, withTolerance: bool, script: seq<Answer>): (r: Option<(Activity, seq<Answer>)>)
    ensures r.Some? ==> |r.value.1| <= |script|
  {
    if withTolerance then
      match AskRequired(script)
      case None => None
      case Some((t, s)) => Assemble(selected, Some(Str(t)), s)
    else Assemble(selected, None, script)
  }

  function Assemble(selected: Discovered, tolerance: Option<Value>, script: seq<Answer>): (r: Option<(Activity, seq<Answer>)>)
    ensures r.Some? ==> |r.value.1| <= |script|
  {
    match Arguments(selected.arguments, script)
    case None => None
    case Some((args, rest)) =>
      Some((Activity(selected.kind, selected.name, tolerance,
                     Provider(Python, selected.mod, selected.name, args)), rest))
  }

  /** `act` is a record built from entry `e`. */
  predicate BuiltFrom(act: Activity, e: Discovered)
  {
    && act.name == e.name
    && act.kind == e.kind
    && act.provider.kind == Python
    && act.provider.moduleName == e.mod
    && act.provider.func == e.name
    && act.provider.arguments.Keys == Declared(e.arguments)
  }

  // ---------------------------------------------------------------------
  // The selection loop
  // ---------------------------------------------------------------------

  /** One call `add_activities(cands, pool, withTolerance)`: the menu
      prompt and the lookup of the number typed. */
  function Add(cands: seq<Candidate>, pool: seq<Activity>, withTolerance: bool, script: seq<Answer>): (r: Session)
    ensures |r.rest| <= |script|
    decreases |script|
  {
    match AskIndex(script)
    case None => Session(pool, [], Raised(Abort))
    case Some((index, s1)) =>
      if index == 0 then Session(pool, s1, Returned)
      else
        match Select(|cands|, index)
        case None => Session(pool, s1, Raised(IndexError))
        case Some(k) => ConfirmChoice(cands, pool, withTolerance, cands[k].entry, s1)
  }

  /** The rest of a call once `selected` is picked: the confirmation,
      and on a decline the offer to pick another, whose nested call runs
      before `selected` is added all the same. */
  function ConfirmChoice(cands: seq<Candidate>, pool: seq<Activity>, withTolerance: bool,
                   selected: Discovered, script: seq<Answer>): (r: Session)
    ensures |r.rest| <= |script|
    decreases |script|
  {
    match AskConfirm(script)
    case None => Session(pool, [], Raised(Abort))
    case Some((use, s1)) =>
      if use then Commit(cands, pool, withTolerance, selected, s1)
      else
        match AskConfirm(s1)
        case None => Session(pool, [], Raised(Abort))
        case Some((another, s2)) =>
          if !another then Session(pool, s2, Returned)
          else
            var nested := Add(cands, pool, false, s2);
            if nested.outcome.Raised? then nested
            else Commit(cands, nested.pool, withTolerance, selected, nested.rest)
  }

  /** The rest of a call once `selected` is to be added: build the
      record, append it, and go on while the operator asks for more. */
  function Commit(cands: seq<Candidate>, pool: seq<Activity>, withTolerance: bool,
                  selected: Discovered, script: seq<Answer>): (r: Session)
    ensures |r.rest| <= |script|
    decreases |script|
  {
    match Build(selected, withTolerance, script)
    case None => Session(pool, [], Raised(Abort))
    case Some((act, s1)) =>
      var grown := pool + [act];
      match AskConfirm(s1)
      case None => Session(grown, [], Raised(Abort))
      case Some((more, s2)) =>
        if more then Add(cands, grown, false, s2) else Session(grown, s2, Returned)
  }

  // ---------------------------------------------------------------------
  // The imperative procedure
  // ---------------------------------------------------------------------

  /** The `for` loop over the declared arguments. */
  method PromptArguments(specs: seq<ArgSpec>, script: seq<Answer>)
    returns (arguments: map<string, Value>, rest: seq<Answer>, complete: bool)
    ensures complete <==> Arguments(specs, script).Some?
    ensures complete ==> (arguments, rest) == Arguments(specs, script).value
    ensures complete ==> arguments.Keys == Declared(specs)
  {
    arguments, rest := map[], script;
    for i := 0 to |specs|
      invariant Arguments(specs[..i], script) == Some((arguments, rest))
    {
      assert specs[..i + 1][..i] == specs[..i];
      var spec := specs[i];
      if spec.name !in Reserved {
        var asked := ArgumentValue(spec, rest);
        if asked.None? {
          AbortPropagates(specs, i + 1, script);
          return arguments, rest, false;
        }
        arguments := arguments[spec.name := asked.value.0];
        rest := asked.value.1;
      }
    }
    assert specs[..|specs|] == specs;
    ArgumentsKeys(specs, script);
    complete := true;
  }

  /** Lines 256-294: the tolerance prompt and the argument loop. */
  method NewActivity(selected: Discovered, withTolerance: bool, script: seq<Answer>)
    returns (built: Option<(Activity, seq<Answer>)>)
    ensures built == Build(selected, withTolerance, script)
    ensures built.Some? ==> BuiltFrom(built.value.0, selected)
    ensures built.Some? ==> (built.value.0.tolerance.Some? <==> withTolerance)
  {
    var rest := script;
    var tolerance: Option<Value> := None;
    if withTolerance {
      var asked := AskRequired(rest);
      if asked.None? {
        return None;
      }
      tolerance := Some(Str(asked.value.0));
      rest := asked.value.1;
    }
    var arguments, after, complete := PromptArguments(selected.arguments, rest);
    if !complete {
      return None;
    }
    built := Some((Activity(selected.kind, selected.name, tolerance,
                            Provider(Python, selected.mod, selected.name, arguments)), after));
  }

  /** `add_activities(cands, pool, withTolerance)`, appending to `pool`
      in place; returns the unread answers and how the call ended. */
  method AddActivities(cands: seq<Candidate>, pool: Pool, withTolerance: bool, script: seq<Answer>)
    returns (rest: seq<Answer>, outcome: Outcome)
    modifies pool
    ensures Session(pool.items, rest, outcome) == Add(cands, old(pool.items), withTolerance, script)
    decreases |script|
  {
    ghost var call := Add(cands, pool.items, withTolerance, script);
    var picked := AskIndex(script);
    if picked.None? {
      return [], Raised(Abort);
    }
    var index := picked.value.0;
    rest := picked.value.1;
    if index == 0 {
      return rest, Returned;
    }
    var position := Select(|cands|, index);
    if position.None? {
      return rest, Raised(IndexError);
    }
    var selected := cands[position.value].entry;
    assert call == ConfirmChoice(cands, pool.items, withTolerance, selected, rest);
    var use := AskConfirm(rest);
    if use.None? {
      return [], Raised(Abort);
    }
    rest := use.value.1;
    if !use.value.0 {
      var another := AskConfirm(rest);
      if another.None? {
        return [], Raised(Abort);
      }
      rest := another.value.1;
      if !another.value.0 {
        return rest, Returned;
      }
      // the nested call's additions come first; the declined entry is
      // still added below once it returns
      rest, outcome := AddActivities(cands, pool, false, rest);
      if outcome.Raised? {
        return;
      }
    }
    assert call == Commit(cands, pool.items, withTolerance, selected, rest);
    var built := NewActivity(selected, withTolerance, rest);
    if built.None? {
      return [], Raised(Abort);
    }
    pool.Append(built.value.0);
    rest := built.value.1;
    var more := AskConfirm(rest);
    if more.None? {
      return [], Raised(Abort);
    }
    rest := more.value.1;
    if !more.value.0 {
      return rest, Returned;
    }
    assert call == Add(cands, pool.items, false, rest);
    rest, outcome := AddActivities(cands, pool, false, rest);
  }

  // ---------------------------------------------------------------------
  // Properties of the argument prompts
  // ---------------------------------------------------------------------

  lemma {:induction false} AbortPropagates(specs: seq<ArgSpec>, i: nat, script: seq<Answer>)
    requires i <= |specs|
    requires Arguments(specs[..i], script).None?
    ensures Arguments(specs, script).None?
    decreases |specs| - i
  {
    if i < |specs| {
      assert specs[..i + 1][..i] == specs[..i];
      AbortPropagates(specs, i + 1, script);
    } else {
      assert specs[..i] == specs;
    }
  }

  /** The keys of a filled-in "arguments" map are exactly the declared
      names less `secrets` and `configuration`. */
  lemma {:induction false} ArgumentsKeys(specs: seq<ArgSpec>, script: seq<Answer>)
    requires Arguments(specs, script).Some?
    ensures Arguments(specs, script).value.0.Keys == Declared(specs)
    ensures Reserved !! Arguments(specs, script).value.0.Keys
  {
    if specs != [] {
      var init := specs[..|specs| - 1];
      ArgumentsKeys(init, script);
      var spec := specs[|specs| - 1];
      assert Declared(specs) == Declared(init) + (if spec.name in Reserved then {} else {spec.name}) by {
        forall n | n in Declared(specs) ensures n in Declared(init) || (spec.name !in Reserved && n == spec.name) {
          var k :| 0 <= k < |specs| && specs[k].name !in Reserved && specs[k].name == n;
          if k < |specs| - 1 {
            assert init[k] == specs[k];
          }
        }
        forall n | n in Declared(init) ensures n in Declared(specs) {
          var k :| 0 <= k < |init| && init[k].name !in Reserved && init[k].name == n;
          assert specs[k] == init[k];
        }
      }
    }
  }

  /** What one argument prompt stores, answer by answer: an empty line
      stores `null` when the declared default is `null`, the literal
      default when it is anything else, and is asked again when there is
      no default; a non-empty line is stored verbatim. */
  lemma ArgumentDefaults(spec: ArgSpec, script: seq<Answer>)
    requires script != []
    ensures script[0] == Blank && spec.default == Some(Null) ==>
      ArgumentValue(spec, script) == Some((Null, script[1..]))
    ensures script[0] == Blank && spec.default.Some? && spec.default != Some(Null) ==>
      ArgumentValue(spec, script) == Some((spec.default.value, script[1..]))
    ensures script[0] == Blank && spec.default.None? ==>
      ArgumentValue(spec, script) == ArgumentValue(spec, script[1..])
    ensures script[0].Text? && script[0].line != "" ==>
      ArgumentValue(spec, script) == Some((Str(script[0].line), script[1..]))
  {
  }

  /** The stored value is `null` exactly when the declared default is
      `null` and the operator took it with an empty line; with a `null`
      default the empty string can never be stored. */
  lemma NullOnlyFromNullDefault(spec: ArgSpec, script: seq<Answer>)
    requires ArgumentValue(spec, script).Some?
    ensures var taken := Ask(Line(DisplayDefault(spec.default)), script).value.0;
      ArgumentValue(spec, script).value.0 == Null <==> spec.default == Some(Null) && taken == Blank
    ensures spec.default == Some(Null) ==> ArgumentValue(spec, script).value.0 != Str("")
  {
  }

  /** A built record carries the selected entry's name, type and module,
      provider type "python", the declared argument names less the
      reserved ones, and a tolerance exactly when one was asked for: the
      line typed at the tolerance prompt, kept as a string. */
  lemma BuildFields(selected: Discovered, withTolerance: bool, script: seq<Answer>)
    requires Build(selected, withTolerance, script).Some?
    ensures BuiltFrom(Build(selected, withTolerance, script).value.0, selected)
    ensures Build(selected, withTolerance, script).value.0.tolerance.Some? <==> withTolerance
    ensures withTolerance ==>
      Build(selected, withTolerance, script).value.0.tolerance == Some(Str(AskRequired(script).value.0))
    ensures Reserved !! Build(selected, withTolerance, script).value.0.provider.arguments.Keys
  {
    var s := if withTolerance then AskRequired(script).value.1 else script;
    ArgumentsKeys(selected.arguments, s);
  }
}
