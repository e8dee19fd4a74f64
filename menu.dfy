/** The numbered menu the wizard shows before asking for an activity,
    and the lookup of the number the operator types. */
module Menu {
  import opened Wrappers
  import opened Documents

  /** `activities[index - 1]` on a Python list of `n` candidates: the
      menu is numbered from 1, a negative position counts from the end
      of the list, and any other position raises IndexError (`None`). */
  function Select(n: nat, index: int): (r: Option<nat>)
    ensures r.Some? <==> 1 <= index <= n || 1 - n <= index <= 0
    ensures r.Some? ==> r.value < n
    ensures r.Some? && 1 <= index ==> r.value == index - 1
    ensures r.Some? && index <= 0 ==> r.value == n + index - 1
  {
    var position := index - 1;
    if 0 <= position < n then Some(position)
    else if 0 <= position + n && position < 0 then Some(position + n)
    else None
  }

  predicate IsDigit(c: char)
  {
    '0' <= c <= '9'
  }

  predicate AllDigits(s: string)
  {
    forall i | 0 <= i < |s| :: IsDigit(s[i])
  }

  function Digit(d: nat): (c: char)
    requires d < 10
    ensures IsDigit(c) && c as int - '0' as int == d
  {
    ('0' as int + d) as char
  }

  /** The decimal numeral of `n`, as Python's `str.format` writes it. */
  function Decimal(n: nat): (r: string)
    ensures r != [] && AllDigits(r)
  {
    if n < 10 then [Digit(n)] else Decimal(n / 10) + [Digit(n % 10)]
  }

  /** The number a string of decimal digits denotes. */
  function ParseDecimal(s: string): nat
    requires AllDigits(s)
  {
    if s == [] then 0
    else ParseDecimal(s[..|s| - 1]) * 10 + (s[|s| - 1] as int - '0' as int)
  }

  lemma {:induction false} DecimalRoundTrip(n: nat)
    ensures ParseDecimal(Decimal(n)) == n
  {
    if n >= 10 {
      var d := Decimal(n);
      assert d[..|d| - 1] == Decimal(n / 10);
      DecimalRoundTrip(n / 10);
    }
  }

  /** The longest prefix of `s` made of digits. */
  function LeadingDigits(s: string): (r: string)
    ensures AllDigits(r) && r <= s
  {
    if s == [] || !IsDigit(s[0]) then [] else [s[0]] + LeadingDigits(s[1..])
  }

  lemma {:induction false} LeadingDigitsStop(d: string, tail: string)
    requires AllDigits(d)
    requires tail != [] && !IsDigit(tail[0])
    ensures LeadingDigits(d + tail) == d
  {
    if d != [] {
      assert (d + tail)[1..] == d[1..] + tail;
      LeadingDigitsStop(d[1..], tail);
    }
  }

  /** Line `k` of the menu: `{k + 1}) {name}`. */
  function MenuLine(k: nat, display: string): string
  {
    Decimal(k + 1) + ") " + display
  }

  function MenuLines(cands: seq<Candidate>): (r: seq<string>)
    ensures |r| == |cands|
  {
    seq(|cands|, k requires 0 <= k < |cands| => MenuLine(k, cands[k].display))
  }

  /** The lines joined with newlines, as `"\n".join(lines)` does. */
  function Join(lines: seq<string>): string
  {
    if |lines| == 0 then ""
    else if |lines| == 1 then lines[0]
    else lines[0] + "\n" + Join(lines[1..])
  }

  /** The text printed as the menu. */
  function MenuText(cands: seq<Candidate>): string
  {
    Join(MenuLines(cands))
  }

  /** The index of the first newline of `s`. */
  function FirstNewline(s: string): (r: nat)
    requires '\n' in s
    ensures r < |s| && s[r] == '\n' && '\n' !in s[..r]
  {
    if s[0] == '\n' then 0
    else
      var r := 1 + FirstNewline(s[1..]);
      assert s[..r] == [s[0]] + s[1..][..r - 1];
      r
  }

  /** `s.split("\n")`: the pieces of `s` between newlines. */
  function Split(s: string): (r: seq<string>)
    ensures r != []
    decreases |s|
  {
    if '\n' !in s then [s]
    else
      var i := FirstNewline(s);
      [s[..i]] + Split(s[i + 1..])
  }

  lemma {:induction false} SplitJoin(lines: seq<string>)
    requires lines != []
    requires forall k | 0 <= k < |lines| :: '\n' !in lines[k]
    ensures Split(Join(lines)) == lines
  {
    if |lines| > 1 {
      var s := Join(lines);
      var x := lines[0];
      assert s == x + "\n" + Join(lines[1..]);
      assert s[|x|] == '\n';
      assert s[..|x|] == x;
      var i := FirstNewline(s);
      assert s[i + 1..] == Join(lines[1..]);
      SplitJoin(lines[1..]);
    }
  }

  /** The menu shows one line per candidate: splitting the printed text
      at its newlines gives back the numbered lines. */
  lemma MenuHasOneLinePerCandidate(cands: seq<Candidate>)
    requires cands != []
    requires forall k | 0 <= k < |cands| :: '\n' !in cands[k].display
    ensures Split(MenuText(cands)) == MenuLines(cands)
    ensures forall k | 0 <= k < |cands| :: Split(MenuText(cands))[k] == Decimal(k + 1) + ") " + cands[k].display
  {
    var lines := MenuLines(cands);
    forall k | 0 <= k < |lines| ensures '\n' !in lines[k] {
      var d := Decimal(k + 1);
      assert lines[k] == d + ") " + cands[k].display;
    }
    SplitJoin(lines);
  }

  /** The number shown in front of a menu line is the number that
      selects that line's candidate. */
  lemma MenuNumberSelects(cands: seq<Candidate>, k: nat)
    requires k < |cands|
    ensures var line := MenuLines(cands)[k];
      && ParseDecimal(LeadingDigits(line)) == k + 1
      && Select(|cands|, ParseDecimal(LeadingDigits(line))) == Some(k)
  {
    var line := MenuLines(cands)[k];
    assert line == Decimal(k + 1) + (") " + cands[k].display);
    LeadingDigitsStop(Decimal(k + 1), ") " + cands[k].display);
    DecimalRoundTrip(k + 1);
  }
}
