/** White space in a list of copyright years: around the parts and around the dash of a range
    it changes nothing. */
module YearSpacing {
  import opened Decimal
  import opened IntText
  import opened Text
  import opened Wrappers
  import opened YearRanges

  /** The white space around a part and around the dash of a range. */
  datatype Spacing = Spacing(left: string, beforeDash: string, afterDash: string, right: string)

  predicate ValidSpacing(g: Spacing) {
    AllSpace(g.left) && AllSpace(g.beforeDash) && AllSpace(g.afterDash) && AllSpace(g.right)
    && ',' !in g.left + g.beforeDash + g.afterDash + g.right
  }

  /** One year, or two of four digits with a dash. */
  predicate Plain(r: Run) {
    r.first == r.second || (1000 <= r.first <= 9999 && 1000 <= r.second <= 9999)
  }

  function Core(r: Run, g: Spacing): string {
    if r.first == r.second then PrintInt(r.first)
    else PrintInt(r.first) + g.beforeDash + "-" + g.afterDash + PrintInt(r.second)
  }

  function SpacedRun(r: Run, g: Spacing): string {
    g.left + Core(r, g) + g.right
  }

  lemma Cut(p: string, x: string, y: string, q: string)
    requires |p| == 4
    ensures (p + x + "-" + y + q)[..4] == p && (p + x + "-" + y + q)[4..] == x + ("-" + (y + q))
  {
  }

  lemma Matches(s: string, rest: string, last: string)
    requires FourDigits(s) && StripLeft(s[4..]) == rest && rest != "" && rest[0] == '-'
    requires StripLeft(rest[1..]) == last && FourDigits(last)
    ensures MatchRange(s) == Some((Val(s[..4]), Val(last[..4])))
  {
  }

  lemma TwoNumerals(p: string, x: string, y: string, q: string)
    requires IsNumeral(p) && |p| == 4 && IsNumeral(q) && |q| == 4 && AllSpace(x) && AllSpace(y)
    ensures MatchRange(p + x + "-" + y + q) == Some((Val(p), Val(q)))
  {
    var rest := "-" + (y + q);
    Cut(p, x, y, q);
    StripLeftSpace(x, rest);
    assert rest[1..] == y + q;
    assert IsDigit(q[0]);
    StripLeftSpace(y, q);
    assert q[..4] == q;
    Matches(p + x + "-" + y + q, rest, q);
  }

  lemma RangeMatches(a: nat, x: string, y: string, b: nat)
    requires AllSpace(x) && AllSpace(y) && 1000 <= a <= 9999 && 1000 <= b <= 9999
    ensures MatchRange(Str(a) + x + "-" + y + Str(b)) == Some((a, b))
  {
    StrLengths(a);
    StrLengths(b);
    ValStr(a);
    ValStr(b);
    TwoNumerals(Str(a), x, y, Str(b));
  }

  lemma CoreEnds(r: Run, g: Spacing)
    ensures var t := Core(r, g); t != "" && !IsSpace(t[0]) && !IsSpace(t[|t| - 1])
  {
    IntChars(r.first);
    IntChars(r.second);
    var t, a, b := Core(r, g), PrintInt(r.first), PrintInt(r.second);
    assert t[0] == a[0];
    assert r.first != r.second ==> t[|t| - 1] == b[|b| - 1];
  }

  /** A part stands for the years from its first to its last, wherever there is white space. */
  lemma SpacedReads(r: Run, g: Spacing, y: int)
    requires Plain(r) && ValidSpacing(g)
    ensures Covers(Strip(SpacedRun(r, g)), y) <==> InRun(r, y)
  {
    CoreEnds(r, g);
    StripSpace(g.left, Core(r, g), g.right);
    if r.first == r.second {
      SingleReads(r.first);
    } else {
      RangeMatches(r.first, g.beforeDash, g.afterDash, r.second);
    }
  }

  lemma SpacedHasNoComma(r: Run, g: Spacing)
    requires ValidSpacing(g)
    ensures ',' !in SpacedRun(r, g)
  {
    IntChars(r.first);
    IntChars(r.second);
  }

  function SpacedRuns(runs: seq<Run>, gaps: seq<Spacing>): seq<string>
    requires |runs| == |gaps|
  {
    seq(|runs|, k requires 0 <= k < |runs| => SpacedRun(runs[k], gaps[k]))
  }

  /** A list of years and ranges, with white space wherever it may be, is read as exactly the
      years it names; neither order nor repetition matters. */
  lemma SpacedListReads(runs: seq<Run>, gaps: seq<Spacing>, y: int)
    requires |runs| == |gaps| > 0
    requires forall k :: 0 <= k < |runs| ==> Plain(runs[k]) && ValidSpacing(gaps[k])
    ensures Denotes(Split(Join(SpacedRuns(runs, gaps), ','), ','), y) <==> InRuns(runs, y)
  {
    var parts := SpacedRuns(runs, gaps);
    forall k | 0 <= k < |parts| ensures ',' !in parts[k] { SpacedHasNoComma(runs[k], gaps[k]); }
    SplitJoin(parts, ',');
    forall k | 0 <= k < |parts| ensures Covers(Strip(parts[k]), y) <==> InRun(runs[k], y) {
      SpacedReads(runs[k], gaps[k], y);
    }
  }

  // ------------------------------------------------------------------------- an example

  lemma DigitsOf(n: nat, a: char, b: char, c: char, d: char)
    requires IsDigit(a) && IsDigit(b) && IsDigit(c) && IsDigit(d) && a != '0'
    requires n == 1000 * DigitValue(a) + 100 * DigitValue(b) + 10 * DigitValue(c) + DigitValue(d)
    ensures Str(n) == [a, b, c, d]
  {
    assert n / 10 / 10 / 10 == DigitValue(a);
    assert Str(n / 10 / 10 / 10) == [a];
    assert Str(n / 10 / 10) == [a, b];
    assert Str(n / 10) == [a, b, c];
  }

  /** What the printer writes for a year and a run of years. */
  lemma PrintedTwo(a: nat, b: nat, c: nat)
    requires b < c
    ensures Join(Printed([Run(a, a), Run(b, c)]), ',') == Str(a) + "," + Str(b) + "-" + Str(c)
  {
    var parts := Printed([Run(a, a), Run(b, c)]);
    assert parts[1..] == [Str(b) + "-" + Str(c)];
    assert Join(parts[1..], ',') == Str(b) + "-" + Str(c);
  }

  lemma SpacedYear(a: nat)
    ensures SpacedRun(Run(a, a), Spacing("", "", "", "")) == Str(a)
  {
  }

  lemma SpacedRange(b: nat, c: nat)
    requires b != c
    ensures SpacedRun(Run(b, c), Spacing(" ", " ", " ", "")) == " " + Str(b) + " - " + Str(c)
  {
    var core := Str(b) + " " + "-" + " " + Str(c);
    assert core == Str(b) + (" " + "-" + " ") + Str(c);
    assert " " + "-" + " " == " - ";
    assert " " + core + "" == " " + core;
  }

  lemma JoinTwo(p: string, q: string)
    ensures Join([p, q], ',') == p + "," + q
  {
    assert [p, q][1..] == [q];
  }

  /** With white space behind the comma and around the dash it reads the same. */
  lemma SpacedTwo(a: nat, b: nat, c: nat, y: int)
    requires 1000 <= b < c <= 9999
    ensures Denotes(Split(Str(a) + "," + (" " + Str(b) + " - " + Str(c)), ','), y) <==> y == a || b <= y <= c
  {
    var runs := [Run(a, a), Run(b, c)];
    var gaps := [Spacing("", "", "", ""), Spacing(" ", " ", " ", "")];
    SpacedListReads(runs, gaps, y);
    SpacedYear(a);
    SpacedRange(b, c);
    assert SpacedRuns(runs, gaps) == [Str(a), " " + Str(b) + " - " + Str(c)];
    JoinTwo(Str(a), " " + Str(b) + " - " + Str(c));
    assert InRuns(runs, y) <==> InRun(runs[0], y) || InRun(runs[1], y);
  }
}
