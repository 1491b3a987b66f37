/** The timeline that gem5/util/o3-pipeview.py draws for one instruction: rows of equal
    width, one letter for each pipeline stage. */
module Timeline {
  import opened Counting
  import opened Wrappers

  /** Columns in a row and ticks in a column. */
  datatype Layout = Layout(width: nat, cycleTime: nat)

  ghost predicate Positive(l: Layout) {
    l.width > 0 && l.cycleTime > 0
  }

  function Span(l: Layout): nat {
    l.width * l.cycleTime
  }

  /** The tick of each stage, in pipeline order: fetch, decode, rename, dispatch, issue,
      complete, retire and, when store completions are shown, store. Zero means never. */
  type Ticks = t: seq<nat> | 7 <= |t| <= 8 witness [0, 0, 0, 0, 0, 0, 0]

  const DISPATCH: nat := 3
  const ISSUE: nat := 4
  const RETIRE: nat := 6

  function Letter(s: nat): char
    requires s < 8
  {
    "fdnpicrs"[s]
  }

  /** The place of a stage's name in alphabetical order, which breaks ties in the sort. */
  function NameRank(s: nat): (r: nat)
    requires s < 8
    ensures r < 8
  {
    [3, 1, 5, 2, 4, 0, 6, 7][s]
  }

  function Latest(t: seq<nat>): (m: nat)
    requires |t| >= 1
    ensures m in t && forall s :: 0 <= s < |t| ==> t[s] <= m
  {
    if |t| == 1 then t[0]
    else
      var m := Latest(t[..|t| - 1]);
      if t[|t| - 1] > m then t[|t| - 1] else m
  }

  lemma SpanPositive(l: Layout)
    requires Positive(l)
    ensures Span(l) > 0
  {
    MulLe(1, l.width, l.cycleTime);
  }

  // ------------------------------------------------------------------------- rows

  function Base(l: Layout, t: Ticks): nat
    requires Span(l) > 0
  {
    t[0] / Span(l) * Span(l)
  }

  predicate Compact(l: Layout, t: Ticks) {
    Latest(t) - t[0] < Span(l)
  }

  function NumLines(l: Layout, t: Ticks): int
    requires Span(l) > 0
  {
    if Compact(l, t) then 1 else (Latest(t) - Base(l, t)) / Span(l) + 1
  }

  function Start(l: Layout, t: Ticks, i: nat): nat
    requires Span(l) > 0
  {
    Base(l, t) + i * Span(l)
  }

  function End(l: Layout, t: Ticks, i: nat): int
    requires Span(l) > 0
  {
    Start(l, t, i) + Span(l) + (if NumLines(l, t) == 1 then t[0] - Base(l, t) else 0)
  }

  predicate InRow(l: Layout, t: Ticks, i: nat, s: nat)
    requires Span(l) > 0 && s < |t|
  {
    t[s] != 0 && Start(l, t, i) <= t[s] < End(l, t, i)
  }

  lemma BaseFacts(l: Layout, t: Ticks)
    requires Span(l) > 0
    ensures Base(l, t) <= t[0] < Base(l, t) + Span(l)
    ensures Compact(l, t) <==> NumLines(l, t) == 1
    ensures NumLines(l, t) >= 1
  {
    var n, fetch := Span(l), t[0];
    assert fetch == fetch / n * n + fetch % n;
    if !Compact(l, t) {
      var d := Latest(t) - Base(l, t);
      assert d >= n;
      assert d / n >= 1 by { QuotientAtLeast(d, n, 1); }
    }
  }

  /** Every stage lies less than a row's time after fetch. */
  ghost predicate FitsBehindFetch(l: Layout, t: Ticks) {
    forall s :: 0 <= s < |t| ==> t[s] - t[0] < l.width * l.cycleTime
  }

  /** The rows from that of fetch to that of the last event, when every row stands for the
      next `span` ticks. */
  ghost predicate RowsToLast(span: nat, t: Ticks, n: int)
    requires span > 0
  {
    exists m :: m in t && (forall s :: 0 <= s < |t| ==> t[s] <= m) && n == m / span - t[0] / span + 1
  }

  lemma CompactIff(l: Layout, t: Ticks)
    ensures Compact(l, t) <==> FitsBehindFetch(l, t)
  {
    var s :| 0 <= s < |t| && t[s] == Latest(t);
  }

  lemma NumLinesIs(l: Layout, t: Ticks)
    requires Span(l) > 0
    ensures NumLines(l, t) == 1 <==> FitsBehindFetch(l, t)
    ensures !FitsBehindFetch(l, t) ==> RowsToLast(Span(l), t, NumLines(l, t))
  {
    BaseFacts(l, t);
    CompactIff(l, t);
    QuotientMinus(Latest(t), t[0] / Span(l), Span(l));
  }

  lemma QuotientMinus(m: int, q: int, n: nat)
    requires n > 0
    ensures (m - q * n) / n == m / n - q
  {
    var d := m - q * n;
    Distribute(m / n, -q, n);
    assert m == m / n * n + m % n && d == d / n * n + d % n;
    DivisionIsUnique(n, d / n, d % n, m / n - q, m % n);
  }

  lemma QuotientAtLeast(d: int, n: int, q: int)
    requires n > 0 && q * n <= d
    ensures d / n >= q
  {
    assert d == d / n * n + d % n;
    MultiplesApart(n, d / n, q);
  }

  /** Every stage that happened, and not before the first row starts, is in exactly one row;
      every other stage is in none. */
  lemma RowIsUnique(l: Layout, t: Ticks, s: nat)
    requires Positive(l) && Span(l) > 0 && s < |t|
    ensures t[s] != 0 && t[s] >= Base(l, t) <==> exists i :: 0 <= i < NumLines(l, t) && InRow(l, t, i, s)
    ensures forall i, j | 0 <= i < NumLines(l, t) && 0 <= j < NumLines(l, t) ::
              InRow(l, t, i, s) && InRow(l, t, j, s) ==> i == j
  {
    BaseFacts(l, t);
    var n, d := Span(l), t[s] - Base(l, t);
    if Compact(l, t) {
      if t[s] != 0 && d >= 0 {
        assert 0 * n == 0;
        assert InRow(l, t, 0, s);
      }
    } else {
      if t[s] != 0 && d >= 0 { RowOf(l, t, s); }
      forall i, j | 0 <= i < NumLines(l, t) && 0 <= j < NumLines(l, t) && InRow(l, t, i, s) && InRow(l, t, j, s)
        ensures i == j
      {
        MultiplesApart(n, i, j);
        MultiplesApart(n, j, i);
      }
    }
    forall i | 0 <= i < NumLines(l, t) && InRow(l, t, i, s) ensures t[s] >= Base(l, t) {
      MulLe(0, i, n);
    }
  }

  lemma RowOf(l: Layout, t: Ticks, s: nat)
    requires Span(l) > 0 && s < |t| && !Compact(l, t) && t[s] != 0 && t[s] >= Base(l, t)
    ensures var i := (t[s] - Base(l, t)) / Span(l); 0 <= i < NumLines(l, t) && InRow(l, t, i, s)
  {
    BaseFacts(l, t);
    Quotient(t[s] - Base(l, t), Span(l));
    QuotientAtLeast(Latest(t) - Base(l, t), Span(l), (t[s] - Base(l, t)) / Span(l));
  }

  lemma Quotient(d: nat, n: nat)
    requires n > 0
    ensures d / n >= 0 && d / n * n <= d < d / n * n + n
  {
    assert d == d / n * n + d % n;
  }

  lemma RemainderIs(n: nat, q: int, tick: int)
    requires n > 0 && q * n <= tick < q * n + n
    ensures tick % n == tick - q * n
  {
    assert tick == tick / n * n + tick % n;
    DivisionIsUnique(n, tick / n, tick % n, q, tick - q * n);
  }

  /** In a wrapped timeline the offset inside the row is the time since the row's start. */
  lemma OffsetInRow(l: Layout, t: Ticks, i: nat, s: nat)
    requires Span(l) > 0 && s < |t| && InRow(l, t, i, s) && NumLines(l, t) > 1
    ensures t[s] % Span(l) == t[s] - Start(l, t, i)
  {
    Distribute(t[0] / Span(l), i, Span(l));
    RemainderIs(Span(l), t[0] / Span(l) + i, t[s]);
  }

  lemma Distribute(q: int, i: int, n: int)
    ensures q * n + i * n == (q + i) * n
  {
  }

  /** In the compact form a stage past the right edge continues at the left one. */
  lemma OffsetInCompact(l: Layout, t: Ticks, s: nat)
    requires Span(l) > 0 && s < |t| && InRow(l, t, 0, s) && NumLines(l, t) == 1
    ensures t[s] % Span(l) == if t[s] < Base(l, t) + Span(l) then t[s] - Base(l, t) else t[s] - Base(l, t) - Span(l)
  {
    BaseFacts(l, t);
    if t[s] < Base(l, t) + Span(l) {
      RemainderIs(Span(l), t[0] / Span(l), t[s]);
    } else {
      Distribute(t[0] / Span(l), 1, Span(l));
      RemainderIs(Span(l), t[0] / Span(l) + 1, t[s]);
    }
  }

  // ---------------------------------------------------------------------- columns

  function Column(l: Layout, tick: nat): nat
    requires Span(l) > 0 && l.cycleTime > 0
  {
    tick % Span(l) / l.cycleTime
  }

  /** The column lies in the row, and stands for the cycle that holds the offset. */
  lemma ColumnFacts(l: Layout, tick: nat)
    requires Positive(l) && Span(l) > 0
    ensures Column(l, tick) < l.width
    ensures Column(l, tick) * l.cycleTime <= tick % Span(l) < Column(l, tick) * l.cycleTime + l.cycleTime
  {
    var off, n := tick % Span(l), l.cycleTime;
    assert off == off / n * n + off % n;
    MulLe(0, 0, n);
    MultiplesApart(n, l.width - 1, off / n);
    if off / n >= l.width { MulLe(l.width, off / n, n); }
  }

  // ------------------------------------------------------------------- drawing a row

  datatype Mark = Mark(col: nat, letter: char)

  /** A character repeated; not at all for a count below one. */
  function Dots(dot: char, n: int): (s: string)
    ensures |s| == if n < 0 then 0 else n
  {
    if n <= 0 then "" else Dots(dot, n - 1) + [dot]
  }

  /** The letters in one column, in order. */
  function Cell(ms: seq<Mark>, c: nat): string {
    if ms == [] then ""
    else
      var last := ms[|ms| - 1];
      Cell(ms[..|ms| - 1], c) + (if last.col == c then [last.letter] else "")
  }

  function CellText(ms: seq<Mark>, c: nat, dot: char): string {
    if Cell(ms, c) == "" then [dot] else Cell(ms, c)
  }

  /** The first n columns side by side: the letters of each, or a dot if it has none. */
  function Columns(ms: seq<Mark>, n: nat, dot: char): string {
    if n == 0 then "" else Columns(ms, n - 1, dot) + CellText(ms, n - 1, dot)
  }

  ghost predicate AllBelow(ms: seq<Mark>, n: int) {
    forall k :: 0 <= k < |ms| ==> ms[k].col < n
  }

  lemma {:induction false} CellBeyond(ms: seq<Mark>, c: nat)
    requires AllBelow(ms, c)
    ensures Cell(ms, c) == ""
  {
    if ms != [] { CellBeyond(ms[..|ms| - 1], c); }
  }

  lemma CellOneMore(ms: seq<Mark>, m: Mark, c: nat)
    ensures Cell(ms + [m], c) == Cell(ms, c) + (if m.col == c then [m.letter] else "")
  {
    assert (ms + [m])[..|ms|] == ms;
  }

  lemma {:induction false} ColumnsSame(ms: seq<Mark>, m: Mark, n: nat, dot: char)
    requires n <= m.col
    ensures Columns(ms + [m], n, dot) == Columns(ms, n, dot)
  {
    if n > 0 {
      ColumnsSame(ms, m, n - 1, dot);
      CellOneMore(ms, m, n - 1);
      assert Cell(ms, n - 1) + "" == Cell(ms, n - 1);
    }
  }

  lemma Regroup(a: string, b: string, c: string)
    ensures a + b + c == a + (b + c)
  {
  }

  lemma OneDotMore(ms: seq<Mark>, n: nat, dot: char)
    requires AllBelow(ms, n)
    ensures Columns(ms, n + 1, dot) == Columns(ms, n, dot) + [dot]
  {
    CellBeyond(ms, n);
  }

  /** A text with n dots behind it, one at a time. */
  function Pad(text: string, dot: char, n: int): string {
    if n <= 0 then text else Pad(text, dot, n - 1) + [dot]
  }

  lemma {:induction false} PadIsDots(text: string, dot: char, n: int)
    ensures Pad(text, dot, n) == text + Dots(dot, n)
  {
    if n <= 0 {
      NoDots(text, dot, n);
    } else {
      PadIsDots(text, dot, n - 1);
      Regroup(text, Dots(dot, n - 1), [dot]);
    }
  }

  lemma {:induction false} ColumnsPad(ms: seq<Mark>, pos: nat, n: nat, dot: char)
    requires AllBelow(ms, pos) && pos <= n
    ensures Columns(ms, n, dot) == Pad(Columns(ms, pos, dot), dot, n - pos)
  {
    if pos < n {
      ColumnsPad(ms, pos, n - 1, dot);
      OneDotMore(ms, n - 1, dot);
    }
  }

  lemma ColumnsDots(ms: seq<Mark>, pos: nat, n: nat, dot: char)
    requires AllBelow(ms, pos) && pos <= n
    ensures Columns(ms, n, dot) == Columns(ms, pos, dot) + Dots(dot, n - pos)
  {
    ColumnsPad(ms, pos, n, dot);
    PadIsDots(Columns(ms, pos, dot), dot, n - pos);
  }

  lemma NoDots(text: string, dot: char, n: int)
    requires n <= 0
    ensures text + Dots(dot, n) == text
  {
  }

  /** The cursor stands just behind the last mark. */
  ghost predicate Behind(ms: seq<Mark>, pos: nat) {
    AllBelow(ms, pos) && (pos > 0 ==> Cell(ms, pos - 1) != "")
  }

  /** One more mark, to the right of all others. */
  lemma AddRight(ms: seq<Mark>, m: Mark, pos: nat, dot: char)
    requires AllBelow(ms, pos) && m.col >= pos
    ensures Columns(ms + [m], m.col + 1, dot) == Columns(ms, pos, dot) + Dots(dot, m.col - pos) + [m.letter]
    ensures Cell(ms + [m], m.col) == [m.letter]
  {
    ColumnsSame(ms, m, m.col, dot);
    CellOneMore(ms, m, m.col);
    ColumnsDots(ms, pos, m.col, dot);
    CellBeyond(ms, m.col);
  }

  /** One more mark in the column of the last one. */
  lemma AddHere(ms: seq<Mark>, m: Mark, dot: char)
    requires Cell(ms, m.col) != ""
    ensures Columns(ms + [m], m.col + 1, dot) == Columns(ms, m.col + 1, dot) + [m.letter]
    ensures Cell(ms + [m], m.col) != ""
  {
    ColumnsSame(ms, m, m.col, dot);
    CellOneMore(ms, m, m.col);
    Regroup(Columns(ms, m.col, dot), Cell(ms, m.col), [m.letter]);
  }

  lemma AddMark(ms: seq<Mark>, m: Mark, pos: nat, dot: char)
    requires Behind(ms, pos) && m.col >= pos - 1
    ensures Columns(ms + [m], m.col + 1, dot) == Columns(ms, pos, dot) + Dots(dot, m.col - pos) + [m.letter]
    ensures Behind(ms + [m], m.col + 1)
  {
    if m.col >= pos {
      AddRight(ms, m, pos, dot);
    } else {
      AddHere(ms, m, dot);
      NoDots(Columns(ms, pos, dot), dot, m.col - pos);
    }
  }

  function UsedColumns(ms: seq<Mark>, n: nat): (u: set<nat>)
    ensures forall c :: c in u ==> c < n
  {
    if n == 0 then {}
    else UsedColumns(ms, n - 1) + (if Cell(ms, n - 1) == "" then {} else {n - 1})
  }

  function Shown(ms: seq<Mark>, n: nat): nat {
    if n == 0 then 0 else Shown(ms, n - 1) + |Cell(ms, n - 1)|
  }

  lemma {:induction false} ColumnsLength(ms: seq<Mark>, n: nat, dot: char)
    ensures |Columns(ms, n, dot)| + |UsedColumns(ms, n)| == n + Shown(ms, n)
  {
    if n > 0 {
      ColumnsLength(ms, n - 1, dot);
      var u := UsedColumns(ms, n - 1);
      assert n - 1 !in u;
      assert |u + {n - 1}| == |u| + 1;
      assert u + {} == u;
    }
  }

  lemma {:induction false} ShownAll(ms: seq<Mark>, n: nat)
    requires AllBelow(ms, n)
    ensures Shown(ms, n) == |ms|
  {
    if ms == [] {
      ShownNone(ms, n);
    } else {
      var front, last := ms[..|ms| - 1], ms[|ms| - 1];
      assert ms == front + [last];
      ShownAll(front, n);
      ShownOneMore(front, last, n);
    }
  }

  lemma {:induction false} ShownNone(ms: seq<Mark>, n: nat)
    requires ms == []
    ensures Shown(ms, n) == 0
  {
    if n > 0 { ShownNone(ms, n - 1); }
  }

  lemma {:induction false} ShownOneMore(ms: seq<Mark>, m: Mark, n: nat)
    ensures Shown(ms + [m], n) == Shown(ms, n) + if m.col < n then 1 else 0
  {
    if n > 0 {
      ShownOneMore(ms, m, n - 1);
      CellOneMore(ms, m, n - 1);
    }
  }

  // ---------------------------------------------------------------------- the events

  /** The sort key: offset first, then the stage's name. */
  function Key(l: Layout, t: Ticks, s: nat): nat
    requires Span(l) > 0 && s < |t|
  {
    t[s] % Span(l) * 8 + NameRank(s)
  }

  ghost predicate Indices(t: Ticks, ev: seq<nat>) {
    forall k :: 0 <= k < |ev| ==> ev[k] < |t|
  }

  ghost predicate Ordered(l: Layout, t: Ticks, ev: seq<nat>)
    requires Span(l) > 0 && Indices(t, ev)
  {
    forall j, k :: 0 <= j < k < |ev| ==> Key(l, t, ev[j]) <= Key(l, t, ev[k])
  }

  function InsertEvent(l: Layout, t: Ticks, x: nat, ev: seq<nat>): (r: seq<nat>)
    requires Span(l) > 0 && x < |t| && Indices(t, ev)
    ensures Indices(t, r) && multiset(r) == multiset(ev) + multiset{x}
  {
    if ev == [] then [x]
    else if Key(l, t, ev[|ev| - 1]) <= Key(l, t, x) then ev + [x]
    else
      assert ev == ev[..|ev| - 1] + [ev[|ev| - 1]];
      InsertEvent(l, t, x, ev[..|ev| - 1]) + [ev[|ev| - 1]]
  }

  function SortEvents(l: Layout, t: Ticks, ev: seq<nat>): (r: seq<nat>)
    requires Span(l) > 0 && Indices(t, ev)
    ensures Indices(t, r) && multiset(r) == multiset(ev)
  {
    if ev == [] then []
    else
      assert ev == ev[..|ev| - 1] + [ev[|ev| - 1]];
      InsertEvent(l, t, ev[|ev| - 1], SortEvents(l, t, ev[..|ev| - 1]))
  }

  lemma {:induction false} InsertOrdered(l: Layout, t: Ticks, x: nat, ev: seq<nat>)
    requires Span(l) > 0 && x < |t| && Indices(t, ev) && Ordered(l, t, ev)
    ensures Ordered(l, t, InsertEvent(l, t, x, ev))
  {
    if ev != [] && Key(l, t, ev[|ev| - 1]) > Key(l, t, x) {
      var front, last := ev[..|ev| - 1], ev[|ev| - 1];
      InsertOrdered(l, t, x, front);
      var r := InsertEvent(l, t, x, front);
      forall j | 0 <= j < |r| ensures Key(l, t, r[j]) <= Key(l, t, last) {
        assert r[j] in multiset(r);
        if r[j] != x {
          assert r[j] in front;
        }
      }
    }
  }

  lemma {:induction false} SortOrdered(l: Layout, t: Ticks, ev: seq<nat>)
    requires Span(l) > 0 && Indices(t, ev)
    ensures Ordered(l, t, SortEvents(l, t, ev))
  {
    if ev != [] {
      SortOrdered(l, t, ev[..|ev| - 1]);
      InsertOrdered(l, t, ev[|ev| - 1], SortEvents(l, t, ev[..|ev| - 1]));
    }
  }

  /** The stages among the first n that fall in row i, in pipeline order. */
  function Found(l: Layout, t: Ticks, i: nat, n: nat): (ev: seq<nat>)
    requires Span(l) > 0 && n <= |t|
    ensures Indices(t, ev) && forall s: nat :: s in ev <==> s < n && InRow(l, t, i, s)
  {
    if n == 0 then []
    else Found(l, t, i, n - 1) + (if InRow(l, t, i, n - 1) then [n - 1] else [])
  }

  function Events(l: Layout, t: Ticks, i: nat): (ev: seq<nat>)
    requires Span(l) > 0
    ensures Indices(t, ev)
  {
    SortEvents(l, t, Found(l, t, i, |t|))
  }

  /** A dispatch in the tick of the issue is not drawn. */
  predicate Hidden(t: Ticks, s: nat) {
    s == DISPATCH && t[DISPATCH] == t[ISSUE]
  }

  function Marks(l: Layout, t: Ticks, ev: seq<nat>): seq<Mark>
    requires Positive(l) && Span(l) > 0 && Indices(t, ev)
  {
    if ev == [] then []
    else
      var front, s := Marks(l, t, ev[..|ev| - 1]), ev[|ev| - 1];
      if Hidden(t, s) then front else front + [Mark(Column(l, t[s]), Letter(s))]
  }

  function DotOf(t: Ticks): char {
    if t[RETIRE] == 0 then '=' else '.'
  }

  function RowText(l: Layout, t: Ticks, i: nat): string
    requires Positive(l) && Span(l) > 0
  {
    Columns(Marks(l, t, Events(l, t, i)), l.width, DotOf(t))
  }

  lemma KeysGiveColumns(l: Layout, t: Ticks, a: nat, b: nat)
    requires Positive(l) && Span(l) > 0 && a < |t| && b < |t| && Key(l, t, a) <= Key(l, t, b)
    ensures Column(l, t[a]) <= Column(l, t[b])
  {
    var x, y, n := t[a] % Span(l), t[b] % Span(l), l.cycleTime;
    assert x <= y;
    assert x == x / n * n + x % n && y == y / n * n + y % n;
    MultiplesApart(n, y / n, x / n);
  }

  /** Marks of sorted events stay left of any later event's column, inclusive. */
  lemma {:induction false} MarksBelow(l: Layout, t: Ticks, ev: seq<nat>, bound: int)
    requires Positive(l) && Span(l) > 0 && Indices(t, ev)
    requires forall k :: 0 <= k < |ev| ==> Column(l, t[ev[k]]) < bound
    ensures AllBelow(Marks(l, t, ev), bound)
  {
    if ev != [] { MarksBelow(l, t, ev[..|ev| - 1], bound); }
  }

  lemma NextColumn(l: Layout, t: Ticks, ev: seq<nat>, k: nat, pos: nat)
    requires Positive(l) && Span(l) > 0 && Indices(t, ev) && Ordered(l, t, ev) && k < |ev|
    requires Behind(Marks(l, t, ev[..k]), pos)
    ensures Column(l, t[ev[k]]) >= pos - 1
  {
    var c := Column(l, t[ev[k]]);
    forall j | 0 <= j < k ensures Column(l, t[ev[..k][j]]) < c + 1 {
      KeysGiveColumns(l, t, ev[j], ev[k]);
    }
    MarksBelow(l, t, ev[..k], c + 1);
    if pos > c + 1 { CellBeyond(Marks(l, t, ev[..k]), pos - 1); }
  }

  // ------------------------------------------------------------------ the source's loops

  method CollectEvents(l: Layout, t: Ticks, i: nat) returns (events: seq<nat>)
    requires Span(l) > 0
    ensures events == Events(l, t, i)
  {
    events := [];
    for s := 0 to |t|
      invariant events == Found(l, t, i, s)
    {
      if t[s] != 0 {
        if t[s] >= Start(l, t, i) && t[s] < End(l, t, i) {
          events := events + [s];
        }
      }
    }
    events := SortEvents(l, t, events);
  }

  /** Where the loop stands after k events. */
  ghost predicate Drawn(l: Layout, t: Ticks, events: seq<nat>, dot: char, k: nat, pos: nat, text: string)
    requires Positive(l) && Span(l) > 0 && Indices(t, events)
  {
    && k <= |events| && pos <= l.width && Behind(Marks(l, t, events[..k]), pos)
    && text == Columns(Marks(l, t, events[..k]), pos, dot)
  }

  lemma DrawNext(l: Layout, t: Ticks, events: seq<nat>, dot: char, k: nat, pos: nat, text: string)
    requires Positive(l) && Span(l) > 0 && Indices(t, events) && Ordered(l, t, events)
    requires Drawn(l, t, events, dot, k, pos, text) && k < |events|
    ensures var s := events[k];
            var col := Column(l, t[s]);
            if Hidden(t, s) then Drawn(l, t, events, dot, k + 1, pos, text)
            else Drawn(l, t, events, dot, k + 1, col + 1, text + Dots(dot, col - pos) + [Letter(s)])
  {
    var s := events[k];
    assert events[..k + 1][..k] == events[..k];
    if !Hidden(t, s) {
      ColumnFacts(l, t[s]);
      NextColumn(l, t, events, k, pos);
      AddMark(Marks(l, t, events[..k]), Mark(Column(l, t[s]), Letter(s)), pos, dot);
    }
  }

  method DrawRow(l: Layout, t: Ticks, events: seq<nat>, dot: char) returns (text: string)
    requires Positive(l) && Span(l) > 0 && Indices(t, events) && Ordered(l, t, events)
    ensures text == Columns(Marks(l, t, events), l.width, dot)
  {
    text := "";
    var pos: nat := 0;
    for k := 0 to |events|
      invariant Drawn(l, t, events, dot, k, pos, text)
    {
      DrawNext(l, t, events, dot, k, pos, text);
      var s := events[k];
      if s == DISPATCH && t[DISPATCH] == t[ISSUE] {
        continue;
      }
      var col := t[s] % Span(l) / l.cycleTime;
      text := text + Dots(dot, col - pos) + [Letter(s)];
      pos := col + 1;
    }
    assert events[..|events|] == events;
    ColumnsDots(Marks(l, t, events), pos, l.width, dot);
    text := text + Dots(dot, l.width - pos);
  }

  method PrintRow(l: Layout, t: Ticks, numLines: int, i: nat, dot: char) returns (row: Option<string>)
    requires Positive(l) && Span(l) > 0 && numLines == NumLines(l, t) && dot == DotOf(t)
    ensures row.None? ==> numLines == 1 && Events(l, t, i) == []
    ensures row.Some? ==> (numLines == 1 ==> Events(l, t, i) != []) && row.value == RowText(l, t, i)
  {
    var events := CollectEvents(l, t, i);
    if numLines == 1 && events == [] {
      return None;
    }
    SortOrdered(l, t, Found(l, t, i, |t|));
    var text := DrawRow(l, t, events, dot);
    return Some(text);
  }

  /** A compact timeline without an event. */
  predicate NothingToDraw(l: Layout, t: Ticks)
    requires Span(l) > 0
  {
    NumLines(l, t) == 1 && Events(l, t, 0) == []
  }

  function Rows(l: Layout, t: Ticks, n: nat): (rows: seq<string>)
    requires Positive(l) && Span(l) > 0
    ensures |rows| == n
  {
    if n == 0 then [] else Rows(l, t, n - 1) + [RowText(l, t, n - 1)]
  }

  /** The rows of one instruction. Drawing fails when a compact timeline has no event. */
  method PrintInst(l: Layout, t: Ticks) returns (rows: Option<seq<string>>)
    requires Positive(l)
    ensures Span(l) > 0
    ensures rows.None? <==> NothingToDraw(l, t)
    ensures rows.Some? ==> NumLines(l, t) >= 1 && rows.value == Rows(l, t, NumLines(l, t))
    ensures rows.Some? ==> (|rows.value| == 1 <==> FitsBehindFetch(l, t))
    ensures rows.Some? && |rows.value| > 1 ==> RowsToLast(Span(l), t, |rows.value|)
  {
    SpanPositive(l);
    BaseFacts(l, t);
    NumLinesIs(l, t);
    var numLines := NumLines(l, t);
    var dot := if t[RETIRE] == 0 then '=' else '.';
    var drawn: seq<string> := [];
    for i := 0 to numLines
      invariant drawn == Rows(l, t, i)
      invariant i > 0 ==> !NothingToDraw(l, t)
    {
      var row := PrintRow(l, t, numLines, i, dot);
      if row.None? {
        return None;
      }
      drawn := drawn + [row.value];
    }
    return Some(drawn);
  }

  // ------------------------------------------------------------------ what a row shows

  lemma EventsAreRow(l: Layout, t: Ticks, i: nat)
    requires Span(l) > 0
    ensures forall s: nat :: s in Events(l, t, i) <==> s < |t| && InRow(l, t, i, s)
  {
    var found, ev := Found(l, t, i, |t|), Events(l, t, i);
    forall s: nat ensures s in ev <==> s in found {
      assert s in ev <==> s in multiset(ev);
      assert s in found <==> s in multiset(found);
    }
  }

  /** Drawing fails exactly when nothing that happened falls in the one row; a nonzero fetch
      always does. */
  lemma FailsIff(l: Layout, t: Ticks)
    requires Positive(l) && Span(l) > 0
    ensures NothingToDraw(l, t)
            <==> Compact(l, t) && forall s :: 0 <= s < |t| ==> t[s] == 0 || t[s] < Base(l, t)
    ensures NothingToDraw(l, t) ==> t[0] == 0
  {
    BaseFacts(l, t);
    EventsAreRow(l, t, 0);
    assert 0 * Span(l) == 0;
    if Compact(l, t) {
      assert forall s :: 0 <= s < |t| ==> (InRow(l, t, 0, s) <==> t[s] != 0 && t[s] >= Base(l, t));
      if Events(l, t, 0) != [] {
        var s := Events(l, t, 0)[0];
        assert s in Events(l, t, 0);
      }
      assert Events(l, t, 0) == [] ==> !InRow(l, t, 0, 0);
    }
  }

  /** A column holds a letter exactly when a drawn event has that letter and that column. */
  lemma {:induction false} CellLetters(l: Layout, t: Ticks, ev: seq<nat>, c: nat, x: char)
    requires Positive(l) && Span(l) > 0 && Indices(t, ev)
    ensures x in Cell(Marks(l, t, ev), c)
            <==> exists k :: 0 <= k < |ev| && !Hidden(t, ev[k]) && Column(l, t[ev[k]]) == c && Letter(ev[k]) == x
  {
    if ev != [] {
      var front, s := ev[..|ev| - 1], ev[|ev| - 1];
      CellLetters(l, t, front, c, x);
      assert forall k :: 0 <= k < |front| ==> front[k] == ev[k];
      if !Hidden(t, s) {
        CellOneMore(Marks(l, t, front), Mark(Column(l, t[s]), Letter(s)), c);
      }
    }
  }

  /** A row is as long as its width plus one character for every mark that shares a column
      with an earlier one. */
  lemma RowLength(l: Layout, t: Ticks, i: nat)
    requires Positive(l) && Span(l) > 0
    ensures var ms := Marks(l, t, Events(l, t, i));
            |RowText(l, t, i)| == l.width + |ms| - |UsedColumns(ms, l.width)|
  {
    var ev := Events(l, t, i);
    var ms := Marks(l, t, ev);
    forall k | 0 <= k < |ev| ensures Column(l, t[ev[k]]) < l.width {
      ColumnFacts(l, t[ev[k]]);
    }
    MarksBelow(l, t, ev, l.width);
    ColumnsLength(ms, l.width, DotOf(t));
    ShownAll(ms, l.width);
  }
}
