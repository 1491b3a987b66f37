/** The printer and reader of copyright years in gem5/util/find_copyrights.py. */
module YearRanges {
  import opened Decimal
  import opened IntText
  import opened Text
  import opened Wrappers

  datatype Run = Run(first: int, second: int)

  predicate InRun(r: Run, y: int) {
    r.first <= y <= r.second
  }

  ghost predicate InRuns(runs: seq<Run>, y: int) {
    exists k :: 0 <= k < |runs| && InRun(runs[k], y)
  }

  /** Runs in order, none empty, with at least one year missing between two of them. */
  ghost predicate Canonical(runs: seq<Run>) {
    && (forall k :: 0 <= k < |runs| ==> runs[k].first <= runs[k].second)
    && (forall j, k :: 0 <= j < k < |runs| ==> runs[j].second + 1 < runs[k].first)
  }

  // ---------------------------------------------------------------------- printing

  function PrintInt(n: int): string {
    if n < 0 then "-" + Str(-n) else Str(n)
  }

  function PrintRun(r: Run): string {
    if r.first == r.second then PrintInt(r.first) else PrintInt(r.first) + "-" + PrintInt(r.second)
  }

  function Printed(runs: seq<Run>): seq<string> {
    seq(|runs|, k requires 0 <= k < |runs| => PrintRun(runs[k]))
  }

  predicate Increasing(s: seq<int>) {
    forall j, k :: 0 <= j < k < |s| ==> s[j] < s[k]
  }

  method Insert(s: seq<int>, x: int) returns (t: seq<int>)
    requires Increasing(s) && x !in s
    ensures Increasing(t) && forall y :: y in t <==> y in s || y == x
  {
    var k := 0;
    while k < |s| && s[k] < x
      invariant 0 <= k <= |s| && forall j :: 0 <= j < k ==> s[j] < x
    {
      k := k + 1;
    }
    Inserted(s, x, k);
    t := s[..k] + [x] + s[k..];
  }

  lemma EmptyOrNot(s: set<int>)
    ensures s == {} || exists x :: x in s
  {
    if forall x :: x !in s { assert s == {}; }
  }

  lemma SubsetOrNot(a: set<int>, b: set<int>)
    ensures a <= b || exists x :: x in a && x !in b
  {
    if forall x :: x in a ==> x in b { assert a <= b; }
  }

  method Sort(dates: set<int>) returns (s: seq<int>)
    ensures Increasing(s) && forall y :: y in s <==> y in dates
  {
    s := [];
    var rest := dates;
    while rest != {}
      invariant rest <= dates && Increasing(s)
      invariant forall y :: y in s <==> y in dates && y !in rest
      decreases rest
    {
      EmptyOrNot(rest);
      var x :| x in rest;
      s := Insert(s, x);
      rest := rest - {x};
    }
  }

  lemma Inserted(s: seq<int>, x: int, k: nat)
    requires Increasing(s) && x !in s && k <= |s|
    requires (forall j :: 0 <= j < k ==> s[j] < x) && (k < |s| ==> x <= s[k])
    ensures Increasing(s[..k] + [x] + s[k..])
    ensures forall y :: y in s[..k] + [x] + s[k..] <==> y in s || y == x
  {
    var t := s[..k] + [x] + s[k..];
    assert forall j :: k < j < |t| ==> t[j] == s[j - 1];
    forall y | y in s ensures y in t {
      var j :| 0 <= j < |s| && s[j] == y;
      assert t[if j < k then j else j + 1] == y;
    }
    assert t[k] == x;
  }

  /** What the loop has done with the first i sorted years: closed runs and an open one. */
  ghost predicate Collected(s: seq<int>, i: nat, runs: seq<Run>) {
    && 1 <= i <= |s| && runs != [] && Canonical(runs)
    && runs[|runs| - 1].second == s[i - 1]
    && forall y :: InRuns(runs, y) <==> y in s[..i]
  }

  lemma CollectFirst(s: seq<int>)
    requires |s| >= 1
    ensures Collected(s, 1, [Run(s[0], s[0])])
  {
    var runs := [Run(s[0], s[0])];
    assert s[..1] == [s[0]];
    forall y ensures InRuns(runs, y) <==> y in s[..1] {
      if y == s[0] { assert InRun(runs[0], y); }
    }
  }

  lemma CollectNext(s: seq<int>, i: nat, runs: seq<Run>, more: seq<Run>)
    requires Increasing(s) && i < |s| && Collected(s, i, runs)
    requires var last := runs[|runs| - 1];
             more == if s[i] == last.second + 1 then runs[..|runs| - 1] + [Run(last.first, s[i])]
                     else runs + [Run(s[i], s[i])]
    ensures Collected(s, i + 1, more)
  {
    assert s[i - 1] < s[i];
    assert s[..i + 1] == s[..i] + [s[i]];
    forall y ensures InRuns(more, y) <==> InRuns(runs, y) || y == s[i] {
      if InRuns(runs, y) {
        var k :| 0 <= k < |runs| && InRun(runs[k], y);
        assert InRun(more[k], y);
      }
      if y == s[i] { assert InRun(more[|more| - 1], y); }
    }
  }

  lemma PrintedAppend(runs: seq<Run>, r: Run)
    ensures Printed(runs + [r]) == Printed(runs) + [PrintRun(r)]
  {
  }

  /** The loop over the sorted years. */
  method PrintRuns(s: seq<int>) returns (output: seq<string>, ghost runs: seq<Run>)
    requires Increasing(s) && s != []
    ensures Collected(s, |s|, runs) && output == Printed(runs)
  {
    var first, second := s[0], s[0];
    ghost var closed: seq<Run> := [];
    output := [];
    CollectFirst(s);
    assert closed + [Run(first, second)] == [Run(s[0], s[0])];
    for i := 1 to |s|
      invariant Collected(s, i, closed + [Run(first, second)]) && output == Printed(closed)
    {
      var next := s[i];
      if next == second + 1 {
        CollectNext(s, i, closed + [Run(first, second)], closed + [Run(first, next)]);
        second := next;
      } else {
        CollectNext(s, i, closed + [Run(first, second)], closed + [Run(first, second)] + [Run(next, next)]);
        PrintedAppend(closed, Run(first, second));
        output := output + [PrintRun(Run(first, second))];
        closed := closed + [Run(first, second)];
        first := next;
        second := next;
      }
    }
    PrintedAppend(closed, Run(first, second));
    output := output + [PrintRun(Run(first, second))];
    runs := closed + [Run(first, second)];
  }

  /** The printed years are the runs of the set, in order, none touching another. */
  method DateStr(dates: set<int>) returns (text: Option<string>, ghost runs: seq<Run>)
    ensures text.None? <==> dates == {}
    ensures text.Some? ==> runs != [] && text.value == Join(Printed(runs), ',')
    ensures text.Some? ==> Canonical(runs) && forall y :: InRuns(runs, y) <==> y in dates
  {
    var s := Sort(dates);
    EmptyOrNot(dates);
    runs := [];
    if |s| == 0 {
      return None, runs;
    }
    var first := s[0];
    assert first in s;
    var output;
    output, runs := PrintRuns(s);
    assert s[..|s|] == s;
    return Some(Join(output, ',')), runs;
  }

  /** There is only one such list of runs for a set of years. */
  lemma {:induction false} RunsAreUnique(a: seq<Run>, b: seq<Run>)
    requires Canonical(a) && Canonical(b) && forall y :: InRuns(a, y) <==> InRuns(b, y)
    ensures a == b
  {
    SameEmptiness(a, b);
    SameEmptiness(b, a);
    if a != [] {
      FirstRunFits(a, b);
      FirstRunFits(b, a);
      RestAgrees(a, b);
      RestAgrees(b, a);
      RunsAreUnique(a[1..], b[1..]);
      assert a == [a[0]] + a[1..] && b == [b[0]] + b[1..];
    }
  }

  lemma SameEmptiness(a: seq<Run>, b: seq<Run>)
    requires Canonical(a) && forall y :: InRuns(a, y) ==> InRuns(b, y)
    ensures a != [] ==> b != []
  {
    if a != [] {
      assert InRun(a[0], a[0].first);
      assert InRuns(b, a[0].first);
    }
  }

  lemma LowestYear(a: seq<Run>, y: int)
    requires Canonical(a) && a != [] && InRuns(a, y)
    ensures a[0].first <= y && (y <= a[0].second + 1 ==> InRun(a[0], y))
  {
    var k :| 0 <= k < |a| && InRun(a[k], y);
    if k > 0 { assert a[0].second + 1 < a[k].first; }
  }

  /** The first run of one list lies in the first run of the other. */
  lemma FirstRunFits(a: seq<Run>, b: seq<Run>)
    requires Canonical(a) && Canonical(b) && a != [] && b != []
    requires forall y :: InRuns(a, y) <==> InRuns(b, y)
    ensures b[0].first <= a[0].first && a[0].second <= b[0].second
  {
    assert InRun(a[0], a[0].first) && InRun(b[0], b[0].first);
    LowestYear(b, a[0].first);
    LowestYear(a, b[0].first);
    if a[0].second > b[0].second {
      assert InRun(a[0], b[0].second + 1);
      LowestYear(b, b[0].second + 1);
    }
  }

  lemma RestAgrees(a: seq<Run>, b: seq<Run>)
    requires Canonical(a) && Canonical(b) && a != [] && b != [] && a[0] == b[0]
    requires forall y :: InRuns(a, y) <==> InRuns(b, y)
    ensures forall y :: InRuns(a[1..], y) ==> InRuns(b[1..], y)
  {
    forall y | InRuns(a[1..], y) ensures InRuns(b[1..], y) {
      var k :| 0 <= k < |a[1..]| && InRun(a[1..][k], y);
      assert InRun(a[k + 1], y) && a[0].second + 1 < a[k + 1].first;
      assert InRuns(a, y);
      assert InRuns(b, y);
      var j :| 0 <= j < |b| && InRun(b[j], y);
      assert !InRun(b[0], y);
      assert InRun(b[1..][j - 1], y);
    }
  }

  // ----------------------------------------------------------------------- reading

  predicate FourDigits(s: string) {
    |s| >= 4 && IsNumeral(s[..4])
  }

  /** Four digits, a dash and four digits at the front, with white space allowed around the
      dash; what follows is ignored. */
  function MatchRange(s: string): Option<(nat, nat)> {
    if !FourDigits(s) then None
    else
      var rest := StripLeft(s[4..]);
      if rest == "" || rest[0] != '-' then None
      else
        var last := StripLeft(rest[1..]);
        if FourDigits(last) then Some((Val(s[..4]), Val(last[..4]))) else None
  }

  /** Whether one stripped part of a date list stands for a year. */
  predicate Covers(date: string, y: int) {
    var m := MatchRange(date);
    if m.Some? then m.value.0 <= y <= m.value.1 else ReadInt(date).Some? && ReadInt(date).value == y
  }

  ghost predicate Denotes(parts: seq<string>, y: int) {
    exists k :: 0 <= k < |parts| && Covers(Strip(parts[k]), y)
  }

  method ProcessDates(dates: string) returns (output: set<int>)
    ensures forall y :: y in output <==> Denotes(Split(dates, ','), y)
  {
    var parts := Split(dates, ',');
    output := {};
    for k := 0 to |parts|
      invariant forall y :: y in output <==> exists j :: 0 <= j < k && Covers(Strip(parts[j]), y)
    {
      var more := YearsOf(Strip(parts[k]));
      output := output + more;
    }
  }

  method YearsOf(date: string) returns (years: set<int>)
    ensures forall y :: y in years <==> Covers(date, y)
  {
    years := {};
    var m, n := MatchRange(date), ReadInt(date);
    if m.Some? {
      var f, l := m.value.0, m.value.1;
      for i := f to if f <= l then l + 1 else f
        invariant forall y :: y in years <==> f <= y < i
      {
        years := years + {i};
      }
    } else if n.Some? {
      var year := n.value;
      years := {year};
      assert forall y :: y in years <==> y == year;
    }
  }

  // -------------------------------------------------------------------- the round trip

  lemma {:induction false} ValBound(s: string)
    requires |s| <= 4 && forall i :: 0 <= i < |s| ==> IsDigit(s[i])
    ensures |s| == 0 ==> Val(s) == 0
    ensures |s| == 1 ==> Val(s) <= 9
    ensures |s| == 2 ==> Val(s) <= 99
    ensures |s| == 3 ==> Val(s) <= 999
    ensures |s| == 4 ==> Val(s) <= 9999
  {
    if s != [] { ValBound(s[..|s| - 1]); }
  }

  lemma {:induction false} StrLengths(n: nat)
    ensures |Str(n)| <= 1 <==> n < 10
    ensures |Str(n)| <= 2 <==> n < 100
    ensures |Str(n)| <= 3 <==> n < 1000
    ensures |Str(n)| <= 4 <==> n < 10000
  {
    if n >= 10 { StrLengths(n / 10); }
  }

  lemma SingleReads(n: int)
    ensures forall y :: Covers(PrintInt(n), y) <==> y == n
  {
    var s := PrintInt(n);
    if n < 0 {
      ValStr(-n);
      ReadNegative(Str(-n));
      assert !IsDigit(s[0]);
    } else {
      ValStr(n);
      ReadNumeral(s);
      if |s| > 4 { assert s[4..][0] == s[4]; }
    }
  }

  predicate FourDigitRun(r: Run) {
    1000 <= r.first && r.second <= 9999
  }

  lemma RangeOfFour(a: nat, b: nat)
    requires 1000 <= a <= 9999 && a < b
    ensures var s := Str(a) + "-" + Str(b);
            |Str(b)| >= 4 && MatchRange(s) == Some((a, Val(Str(b)[..4])))
  {
    var s := Str(a) + "-" + Str(b);
    StrLengths(a);
    StrLength(a, b);
    ValStr(a);
    assert s[..4] == Str(a);
    assert s[4..] == "-" + Str(b);
    assert ("-" + Str(b))[1..] == Str(b);
  }

  /** Text with a dash behind a digit is no number. */
  lemma DashIsNoInt(s: string, k: nat)
    requires 0 < k < |s| && s[k] == '-' && IsDigit(s[k - 1]) && IsDigit(s[|s| - 1])
    requires IsDigit(s[0]) || (s[0] == '-' && IsDigit(s[1]))
    ensures ReadInt(s).None?
  {
    StripLine(s);
    assert !IsDigit(s[k]);
    if s[0] == '-' {
      assert s[1..][0] == s[1] && s[1..][k - 1] == '-';
    }
  }

  lemma OtherIsNoRange(a: int, b: int)
    requires a < b && !(1000 <= a <= 9999)
    ensures MatchRange(PrintInt(a) + "-" + PrintInt(b)).None?
  {
    var s := PrintInt(a) + "-" + PrintInt(b);
    var k := |PrintInt(a)|;
    assert s[k] == '-' && !IsDigit('-');
    if a < 0 {
      assert s[0] == '-';
    } else {
      StrLengths(a);
      if k < 4 {
        if |s| >= 4 { assert s[..4][k] == '-'; }
      } else {
        assert s[4] == Str(a)[4];
        assert s[4..][0] == s[4];
      }
    }
  }

  lemma RangeOfOther(a: int, b: int)
    requires a < b && !(1000 <= a <= 9999)
    ensures var s := PrintInt(a) + "-" + PrintInt(b); MatchRange(s).None? && ReadInt(s).None?
  {
    OtherIsNoRange(a, b);
    IntEnds(a);
    IntEnds(b);
    DashIsNoInt(PrintInt(a) + "-" + PrintInt(b), |PrintInt(a)|);
  }

  lemma IntEnds(n: int)
    ensures var s := PrintInt(n);
            s != "" && IsDigit(s[|s| - 1]) && (IsDigit(s[0]) || (s[0] == '-' && |s| > 1 && IsDigit(s[1])))
  {
    var d := if n < 0 then Str(-n) else Str(n);
    assert IsDigit(d[0]) && IsDigit(d[|d| - 1]);
  }

  /** A printed range never stands for a year outside it; it stands for all of its years if
      its ends have four digits, and otherwise misses its first or its last. */
  lemma RangeReads(r: Run)
    requires r.first < r.second
    ensures forall y :: Covers(PrintRun(r), y) ==> InRun(r, y)
    ensures FourDigitRun(r) ==> forall y :: InRun(r, y) ==> Covers(PrintRun(r), y)
    ensures !FourDigitRun(r) ==> !Covers(PrintRun(r), r.first) || !Covers(PrintRun(r), r.second)
  {
    if 1000 <= r.first <= 9999 {
      RangeOfFour(r.first, r.second);
      StrLengths(r.second);
      var b := Str(r.second);
      ValBound(b[..4]);
      ValStr(r.second);
      if |b| == 4 { assert b[..4] == b; }
    } else {
      RangeOfOther(r.first, r.second);
    }
  }

  lemma IntChars(n: int)
    ensures PrintInt(n) != "" && ',' !in PrintInt(n) && forall k :: 0 <= k < |PrintInt(n)| ==> !IsSpace(PrintInt(n)[k])
  {
    var d := if n < 0 then Str(-n) else Str(n);
    assert IsNumeral(d);
  }

  lemma RunChars(r: Run)
    ensures ',' !in PrintRun(r) && Strip(PrintRun(r)) == PrintRun(r)
  {
    IntChars(r.first);
    IntChars(r.second);
    StripLine(PrintRun(r));
  }

  lemma PrintedParts(runs: seq<Run>)
    requires runs != []
    ensures Split(Join(Printed(runs), ','), ',') == Printed(runs)
    ensures forall k :: 0 <= k < |runs| ==> Strip(Printed(runs)[k]) == PrintRun(runs[k])
  {
    forall k | 0 <= k < |runs| ensures ',' !in Printed(runs)[k] && Strip(Printed(runs)[k]) == PrintRun(runs[k]) {
      RunChars(runs[k]);
    }
    SplitJoin(Printed(runs), ',');
  }

  predicate Readable(r: Run) {
    r.first == r.second || FourDigitRun(r)
  }

  lemma RunReads(r: Run)
    requires r.first <= r.second
    ensures forall y :: Covers(PrintRun(r), y) ==> InRun(r, y)
    ensures Readable(r) ==> forall y :: InRun(r, y) ==> Covers(PrintRun(r), y)
    ensures !Readable(r) ==> !Covers(PrintRun(r), r.first) || !Covers(PrintRun(r), r.second)
  {
    if r.first == r.second { SingleReads(r.first); } else { RangeReads(r); }
  }

  /** Reading the printed years never invents one, and misses none exactly when every run is
      a single year or has ends of four digits. */
  lemma RunsReadBack(runs: seq<Run>)
    requires Canonical(runs) && runs != []
    ensures var parts := Split(Join(Printed(runs), ','), ',');
            && (forall y :: Denotes(parts, y) ==> InRuns(runs, y))
            && ((forall y :: InRuns(runs, y) ==> Denotes(parts, y))
                <==> forall k :: 0 <= k < |runs| ==> Readable(runs[k]))
  {
    PrintedParts(runs);
    var parts := Printed(runs);
    forall y | Denotes(parts, y) ensures InRuns(runs, y) {
      var k :| 0 <= k < |parts| && Covers(Strip(parts[k]), y);
      RunReads(runs[k]);
      assert InRun(runs[k], y);
    }
    if forall k :: 0 <= k < |runs| ==> Readable(runs[k]) {
      forall y | InRuns(runs, y) ensures Denotes(parts, y) {
        var k :| 0 <= k < |runs| && InRun(runs[k], y);
        RunReads(runs[k]);
        assert Covers(Strip(parts[k]), y);
      }
    }
    forall k | 0 <= k < |runs| && !Readable(runs[k]) ensures exists y :: InRuns(runs, y) && !Denotes(parts, y) {
      MissedYear(runs, k);
    }
  }

  lemma RunsAreApart(runs: seq<Run>, j: nat, k: nat, y: int)
    requires Canonical(runs) && j < |runs| && k < |runs| && InRun(runs[j], y) && InRun(runs[k], y)
    ensures j == k
  {
  }

  lemma NeighboursShareRun(runs: seq<Run>, j: nat, k: nat, y: int)
    requires Canonical(runs) && j < |runs| && k < |runs| && InRun(runs[j], y) && InRun(runs[k], y + 1)
    ensures j == k
  {
  }

  /** No other run's text can stand for a year that its own run's text misses. */
  lemma MissedYear(runs: seq<Run>, k: nat)
    requires Canonical(runs) && k < |runs| && !Readable(runs[k])
    ensures exists y :: InRuns(runs, y) && !Denotes(Printed(runs), y)
  {
    var r := runs[k];
    RunReads(r);
    var y := if !Covers(PrintRun(r), r.first) then r.first else r.second;
    assert InRun(runs[k], y);
    forall j | 0 <= j < |runs| ensures !Covers(Strip(Printed(runs)[j]), y) {
      OtherRun(runs, j, k, y);
    }
    assert InRuns(runs, y) && !Denotes(Printed(runs), y);
  }

  lemma OtherRun(runs: seq<Run>, j: nat, k: nat, y: int)
    requires Canonical(runs) && j < |runs| && k < |runs| && InRun(runs[k], y) && !Covers(PrintRun(runs[k]), y)
    ensures !Covers(Strip(Printed(runs)[j]), y)
  {
    RunChars(runs[j]);
    RunReads(runs[j]);
    if InRun(runs[j], y) { RunsAreApart(runs, j, k, y); }
  }

  /** Two consecutive years outside 1000 to 9999 are exactly what the reader cannot take. */
  lemma ConsecutiveYears(runs: seq<Run>)
    requires Canonical(runs)
    ensures (forall k :: 0 <= k < |runs| ==> Readable(runs[k]))
            <==> forall y :: InRuns(runs, y) && InRuns(runs, y + 1) ==> 1000 <= y < 9999
  {
    if forall k :: 0 <= k < |runs| ==> Readable(runs[k]) {
      forall y | InRuns(runs, y) && InRuns(runs, y + 1) ensures 1000 <= y < 9999 {
        var k :| 0 <= k < |runs| && InRun(runs[k], y);
        var j :| 0 <= j < |runs| && InRun(runs[j], y + 1);
        NeighboursShareRun(runs, k, j, y);
      }
    }
    if forall y :: InRuns(runs, y) && InRuns(runs, y + 1) ==> 1000 <= y < 9999 {
      forall k | 0 <= k < |runs| ensures Readable(runs[k]) {
        var r := runs[k];
        if r.first < r.second {
          var low, high := r.first, r.second - 1;
          assert InRun(runs[k], low) && InRun(runs[k], low + 1) && InRun(runs[k], high) && InRun(runs[k], high + 1);
          assert InRuns(runs, low) && InRuns(runs, low + 1) && InRuns(runs, high) && InRuns(runs, high + 1);
        }
      }
    }
  }

  /** The years 999 and 1000 are printed as a range that reads as no year at all, and so are
      9999 and 10000. */
  lemma RangesAreLost(y: int)
    ensures !Denotes(Split(Join(Printed([Run(999, 1000)]), ','), ','), y)
    ensures !Denotes(Split(Join(Printed([Run(9999, 10000)]), ','), ','), y)
  {
    PrintedParts([Run(999, 1000)]);
    RangeOfOther(999, 1000);
    PrintedParts([Run(9999, 10000)]);
    RangeOfFour(9999, 10000);
    FirstFourOfTenThousand();
  }

  lemma FirstFourOfTenThousand()
    ensures |Str(10000)| >= 4 && Val(Str(10000)[..4]) == 1000
  {
    var s := Str(1000);
    assert Str(10000) == s + ['0'];
    StrLengths(1000);
    assert Str(10000)[..4] == s;
    ValStr(1000);
  }

  /** Printing a set of years and reading the text gives the set back, if and only if no two
      consecutive years of the set lie outside 1000 to 9999. */
  method RoundTrip(dates: set<int>) returns (back: set<int>)
    requires dates != {}
    ensures back <= dates
    ensures back == dates <==> forall y :: y in dates && y + 1 in dates ==> 1000 <= y < 9999
  {
    var text, runs := DateStr(dates);
    back := ProcessDates(text.value);
    RunsReadBack(runs);
    ConsecutiveYears(runs);
    SameYears(runs, Split(text.value, ','), dates, back);
  }

  lemma SameYears(runs: seq<Run>, parts: seq<string>, dates: set<int>, back: set<int>)
    requires forall y :: InRuns(runs, y) <==> y in dates
    requires forall y :: y in back <==> Denotes(parts, y)
    requires forall y :: Denotes(parts, y) ==> InRuns(runs, y)
    ensures back <= dates
    ensures back == dates <==> forall y :: InRuns(runs, y) ==> Denotes(parts, y)
    ensures (forall y :: InRuns(runs, y) && InRuns(runs, y + 1) ==> 1000 <= y < 9999)
            <==> forall y :: y in dates && y + 1 in dates ==> 1000 <= y < 9999
  {
    SubsetOrNot(back, dates);
    SubsetOrNot(dates, back);
  }
}
