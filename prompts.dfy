/** The operator's side of the wizard. Every prompt the wizard shows is
    answered from a finite script of typed lines; a prompt that gets a
    line it refuses asks again, and a script that runs out is the end of
    input, on which the prompt aborts the session. */
module Prompts {
  import opened Wrappers
  import opened Documents

  /** One line typed by the operator: a number, a yes or a no, or free
      text. `Text("")` is the empty line. */
  datatype Answer = Index(n: int) | Yes | No | Text(line: string)

  const Blank: Answer := Text("")

  /** The three kinds of prompt the wizard shows: a whole number with no
      default, a yes/no question whose default is no, and a line of text
      with an optional default shown in brackets. */
  datatype Prompt = Number | Confirm | Line(default: Option<Value>)

  /** Whether prompt `p` accepts line `a`; a refused line makes the
      prompt ask again. */
  predicate Accepts(p: Prompt, a: Answer)
  {
    match p
    case Number => a.Index?
    case Confirm => a.Yes? || a.No? || a == Blank
    case Line(d) => a.Text? && (a.line != "" || d.Some?)
  }

  /** Asks `p` until a line is accepted: the accepted line and the
      lines after it, or `None` when the script runs out first. */
  function Ask(p: Prompt, script: seq<Answer>): (r: Option<(Answer, seq<Answer>)>)
    ensures r.Some? ==> |r.value.1| < |script| && Accepts(p, r.value.0)
  {
    if script == [] then None
    else if Accepts(p, script[0]) then Some((script[0], script[1..]))
    else Ask(p, script[1..])
  }

  /** `Ask` gives the first line the prompt accepts and exactly the
      lines after it; it gives nothing only when no line is accepted. */
  lemma {:induction false} AskTakesFirstAccepted(p: Prompt, script: seq<Answer>)
    ensures Ask(p, script).None? <==> forall k | 0 <= k < |script| :: !Accepts(p, script[k])
    ensures Ask(p, script).Some? ==>
      var used := |script| - |Ask(p, script).value.1|;
      && 0 < used <= |script|
      && Ask(p, script).value.0 == script[used - 1]
      && Ask(p, script).value.1 == script[used..]
      && forall k | 0 <= k < used - 1 :: !Accepts(p, script[k])
  {
    if script != [] && !Accepts(p, script[0]) {
      AskTakesFirstAccepted(p, script[1..]);
      var tail := script[1..];
      if Ask(p, tail).Some? {
        var used := |tail| - |Ask(p, tail).value.1|;
        assert tail[used..] == script[used + 1..];
        forall k | 0 <= k < used ensures !Accepts(p, script[k]) {
          if k > 0 {
            assert script[k] == tail[k - 1];
          }
        }
      } else {
        forall k | 0 <= k < |script| ensures !Accepts(p, script[k]) {
          if k > 0 {
            assert script[k] == tail[k - 1];
          }
        }
      }
    }
  }

  /** The integer prompt: the first number typed. */
  function AskIndex(script: seq<Answer>): (r: Option<(int, seq<Answer>)>)
    ensures r.Some? ==> |r.value.1| < |script|
    ensures script == [] ==> r.None?
    ensures script != [] && script[0].Index? ==> r == Some((script[0].n, script[1..]))
  {
    match Ask(Number, script)
    case None => None
    case Some((a, rest)) => Some((a.n, rest))
  }

  /** A yes/no question with default no: true exactly for a yes. */
  function AskConfirm(script: seq<Answer>): (r: Option<(bool, seq<Answer>)>)
    ensures r.Some? ==> |r.value.1| < |script|
    ensures script == [] ==> r.None?
    ensures script != [] && script[0] == Yes ==> r == Some((true, script[1..]))
    ensures script != [] && (script[0] == No || script[0] == Blank) ==> r == Some((false, script[1..]))
  {
    match Ask(Confirm, script)
    case None => None
    case Some((a, rest)) => Some((a == Yes, rest))
  }

  /** A text prompt with no default: the first non-empty line. */
  function AskRequired(script: seq<Answer>): (r: Option<(string, seq<Answer>)>)
    ensures r.Some? ==> |r.value.1| < |script| && r.value.0 != ""
    ensures script == [] ==> r.None?
    ensures script != [] && script[0].Text? && script[0].line != "" ==> r == Some((script[0].line, script[1..]))
  {
    match Ask(Line(None), script)
    case None => None
    case Some((a, rest)) => Some((a.line, rest))
  }

  /** A text prompt showing `default`: the line typed, or the default
      itself when the line is empty. */
  function AskLine(default: Option<Value>, script: seq<Answer>): (r: Option<(Value, seq<Answer>)>)
    ensures r.Some? ==> |r.value.1| < |script|
    ensures r.Some? <==> Ask(Line(default), script).Some?
    ensures script == [] ==> r.None?
    ensures script != [] && script[0] == Blank && default.Some? ==> r == Some((default.value, script[1..]))
    ensures script != [] && script[0].Text? && script[0].line != "" ==> r == Some((Str(script[0].line), script[1..]))
  {
    match Ask(Line(default), script)
    case None => None
    case Some((a, rest)) => Some((if a.line == "" then default.value else Str(a.line), rest))
  }

  /** A line a prompt refuses is dropped and the same prompt is asked
      again on the lines after it: a number prompt refuses anything but a
      number, a yes/no question anything but yes, no or the empty line,
      and a text prompt anything but text, or the empty line when it
      shows no default. */
  lemma RefusedLineIsAskedAgain(default: Option<Value>, script: seq<Answer>)
    requires script != []
    ensures !script[0].Index? ==> AskIndex(script) == AskIndex(script[1..])
    ensures !Accepts(Confirm, script[0]) ==> AskConfirm(script) == AskConfirm(script[1..])
    ensures !script[0].Text? || script[0] == Blank ==> AskRequired(script) == AskRequired(script[1..])
    ensures !script[0].Text? || (script[0] == Blank && default.None?) ==>
      AskLine(default, script) == AskLine(default, script[1..])
  {
  }
}
