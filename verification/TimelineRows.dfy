/** Where a stage is drawn in the timeline, and some timelines in full. */
module TimelineRows {
  import opened Counting
  import opened NameOrder
  import opened Timeline

  // ---------------------------------------------------------------- the order of events

  function StageName(s: nat): string
    requires s < 8
  {
    ["fetch", "decode", "rename", "dispatch", "issue", "complete", "retire", "store"][s]
  }

  /** The stages by name. */
  function ByName(r: nat): (s: nat)
    requires r < 8
    ensures s < 8 && NameRank(s) == r
  {
    [5, 1, 3, 0, 4, 2, 6, 7][r]
  }

  lemma NextName(r: nat)
    requires r < 7
    ensures Before(StageName(ByName(r)), StageName(ByName(r + 1)))
  {
    var a, b := StageName(ByName(r)), StageName(ByName(r + 1));
    var k := if r == 1 then 1 else if r == 5 then 2 else 0;
    assert DiffersAt(a, b, k);
  }

  lemma {:induction false} NamesAscend(q: nat, r: nat)
    requires q < r < 8
    ensures Before(StageName(ByName(q)), StageName(ByName(r)))
  {
    NextName(r - 1);
    if q < r - 1 {
      NamesAscend(q, r - 1);
      BeforeTransitive(StageName(ByName(q)), StageName(ByName(r - 1)), StageName(ByName(r)));
    }
  }

  lemma RankIsUnique(a: nat, b: nat)
    requires a < 8 && b < 8 && NameRank(a) == NameRank(b)
    ensures a == b
  {
  }

  /** Events are ordered by their offset in the row and then by the name of the stage. */
  lemma KeyIff(l: Layout, t: Ticks, a: nat, b: nat)
    requires Span(l) > 0 && a < |t| && b < |t|
    ensures Key(l, t, a) < Key(l, t, b) <==>
            || t[a] % Span(l) < t[b] % Span(l)
            || (t[a] % Span(l) == t[b] % Span(l) && Before(StageName(a), StageName(b)))
  {
    RankIsUnique(a, ByName(NameRank(a)));
    RankIsUnique(b, ByName(NameRank(b)));
    BeforeIsTotal(StageName(a), StageName(b));
    if NameRank(a) < NameRank(b) { NamesAscend(NameRank(a), NameRank(b)); }
    if NameRank(b) < NameRank(a) { NamesAscend(NameRank(b), NameRank(a)); }
    if NameRank(a) == NameRank(b) { RankIsUnique(a, b); }
  }

  // ----------------------------------------------------------------- where a stage is drawn

  /** Cycles in rows: the tick is `a` rows, `b` columns and a rest. */
  lemma InRowsAndColumns(tick: nat, c: nat, w: nat)
    requires c > 0 && w > 0
    ensures var a, b, r := tick / c / w, tick / c % w, tick % c;
            tick == a * (w * c) + (b * c + r) && 0 <= b * c && b * c + r < w * c
  {
    var q, r := tick / c, tick % c;
    var a, b := q / w, q % w;
    assert tick == q * c + r && q == a * w + b;
    Distribute(a * w, b, c);
    Associate(a, w, c);
    MultiplesApart(c, b, w);
    MulLe(0, b, c);
  }

  lemma Associate(a: int, w: int, c: int)
    ensures a * w * c == a * (w * c)
  {
  }

  /** The column is the cycle of the tick, counted modulo the width. */
  lemma ColumnIsCycle(l: Layout, tick: nat)
    requires Positive(l) && Span(l) > 0
    ensures Column(l, tick) == tick / l.cycleTime % l.width
  {
    var c, w := l.cycleTime, l.width;
    var a, b, r := tick / c / w, tick / c % w, tick % c;
    InRowsAndColumns(tick, c, w);
    QuotientIs(tick, w * c, a, b * c + r);
    QuotientIs(b * c + r, c, b, r);
  }

  /** The row of a tick: the only one, or that of its time. */
  function RowOfTick(l: Layout, t: Ticks, tick: nat): int
    requires Span(l) > 0
  {
    if NumLines(l, t) == 1 then 0 else tick / Span(l) - t[0] / Span(l)
  }

  lemma StageRow(l: Layout, t: Ticks, s: nat)
    requires Positive(l) && Span(l) > 0 && s < |t| && t[s] != 0 && t[s] >= Base(l, t)
    ensures var i := RowOfTick(l, t, t[s]);
            0 <= i < NumLines(l, t) && InRow(l, t, i, s)
  {
    BaseFacts(l, t);
    if NumLines(l, t) == 1 {
      assert 0 * Span(l) == 0;
    } else {
      RowOf(l, t, s);
      QuotientMinus(t[s], t[0] / Span(l), Span(l));
    }
  }

  /** A stage that happened, and not before the first row, is drawn with its letter in the row
      of its time and in the column of its cycle, unless it is a dispatch in the tick of the
      issue. */
  lemma StageIsDrawn(l: Layout, t: Ticks, s: nat)
    requires Positive(l) && Span(l) > 0 && s < |t| && t[s] != 0 && t[s] >= Base(l, t)
    requires s == 3 ==> t[3] != t[4]
    ensures var i := RowOfTick(l, t, t[s]);
            0 <= i < NumLines(l, t)
            && Letter(s) in Cell(Marks(l, t, Events(l, t, i)), t[s] / l.cycleTime % l.width)
  {
    StageRow(l, t, s);
    var i := RowOfTick(l, t, t[s]);
    EventsAreRow(l, t, i);
    ColumnIsCycle(l, t[s]);
    var ev := Events(l, t, i);
    var k :| 0 <= k < |ev| && ev[k] == s;
    CellLetters(l, t, ev, Column(l, t[s]), Letter(s));
  }

  /** In the compact form a stage past the right edge is drawn in the same row, not to the right
      of fetch. */
  lemma PastTheEdge(l: Layout, t: Ticks, s: nat)
    requires Positive(l) && Span(l) > 0 && s < |t| && FitsBehindFetch(l, t)
    requires t[s] / Span(l) > t[0] / Span(l)
    ensures InRow(l, t, 0, s) && Column(l, t[s]) <= Column(l, t[0])
  {
    NumLinesIs(l, t);
    BaseFacts(l, t);
    LaterRow(t[0], t[s], Span(l));
    assert 0 * Span(l) == 0;
    OffsetInCompact(l, t, s);
    RemainderIs(Span(l), t[0] / Span(l), t[0]);
    QuotientMono(t[s] % Span(l), t[0] % Span(l), l.cycleTime);
  }

  lemma LaterRow(a: nat, b: nat, n: nat)
    requires n > 0 && b / n > a / n
    ensures b >= a / n * n + n
  {
    assert b == b / n * n + b % n;
    MultiplesApart(n, a / n, b / n);
  }

  lemma QuotientMono(x: nat, y: nat, c: nat)
    requires c > 0 && x <= y
    ensures x / c <= y / c
  {
    assert x == x / c * c + x % c && y == y / c * c + y % c;
    MultiplesApart(c, y / c, x / c);
  }

  // -------------------------------------------------------------------- timelines in full

  /** Rows of four columns, one tick each. */
  ghost predicate Small(l: Layout) {
    l.width == 4 && l.cycleTime == 1 && Span(l) == 4
  }

  function Put(m: Mark, c: nat): string {
    if m.col == c then [m.letter] else ""
  }

  lemma CellOfTwo(ms: seq<Mark>, c: nat)
    requires |ms| == 2
    ensures Cell(ms, c) == Put(ms[0], c) + Put(ms[1], c)
  {
    var a, b := ms[..0], ms[..1];
    assert b == a + [ms[0]] && ms == b + [ms[1]];
    CellOneMore(a, ms[0], c);
    CellOneMore(b, ms[1], c);
  }

  lemma CellOfThree(ms: seq<Mark>, c: nat)
    requires |ms| == 3
    ensures Cell(ms, c) == Put(ms[0], c) + Put(ms[1], c) + Put(ms[2], c)
  {
    CellOfTwo(ms[..2], c);
    CellOneMore(ms[..2], ms[2], c);
    assert ms[..2] + [ms[2]] == ms;
  }

  lemma FourColumns(ms: seq<Mark>, dot: char, a: string, b: string, c: string, d: string)
    requires a == CellText(ms, 0, dot) && b == CellText(ms, 1, dot)
    requires c == CellText(ms, 2, dot) && d == CellText(ms, 3, dot)
    ensures Columns(ms, 4, dot) == a + b + c + d
  {
    assert Columns(ms, 1, dot) == a;
    assert Columns(ms, 2, dot) == a + b;
    assert Columns(ms, 3, dot) == a + b + c;
  }

  lemma InsertBehind(l: Layout, t: Ticks, x: nat, ev: seq<nat>, last: nat)
    requires Span(l) > 0 && x < |t| && last < |t| && Indices(t, ev)
    ensures Indices(t, ev + [last])
    ensures InsertEvent(l, t, x, ev + [last]) ==
            if Key(l, t, last) <= Key(l, t, x) then ev + [last] + [x] else InsertEvent(l, t, x, ev) + [last]
  {
    assert (ev + [last])[..|ev|] == ev;
  }

  lemma SortNext(l: Layout, t: Ticks, ev: seq<nat>, x: nat)
    requires Span(l) > 0 && x < |t| && Indices(t, ev)
    ensures Indices(t, ev + [x])
    ensures SortEvents(l, t, ev + [x]) == InsertEvent(l, t, x, SortEvents(l, t, ev))
  {
    assert (ev + [x])[..|ev|] == ev;
  }

  /** Three events of which the first found comes last in the row. */
  lemma SortThree(l: Layout, t: Ticks, a: nat, b: nat, d: nat)
    requires Span(l) > 0 && a < |t| && b < |t| && d < |t|
    requires Key(l, t, b) < Key(l, t, d) < Key(l, t, a)
    ensures SortEvents(l, t, [a, b, d]) == [b, d, a]
  {
    assert [] + [a] == [a] && [a] + [b] == [a, b] && [a, b] + [d] == [a, b, d];
    assert [b] + [a] == [b, a] && [b] + [d] + [a] == [b, d, a] && [] + [b] == [b];
    SortNext(l, t, [], a);
    SortNext(l, t, [a], b);
    SortNext(l, t, [a, b], d);
    InsertBehind(l, t, b, [], a);
    InsertBehind(l, t, d, [b], a);
    InsertBehind(l, t, d, [], b);
    assert [] + [b] + [d] == [b] + [d];
  }

  /** Three events found in their order. */
  lemma SortOrderedThree(l: Layout, t: Ticks, a: nat, b: nat, d: nat)
    requires Span(l) > 0 && a < |t| && b < |t| && d < |t|
    requires Key(l, t, a) <= Key(l, t, b) <= Key(l, t, d)
    ensures SortEvents(l, t, [a, b, d]) == [a, b, d]
  {
    assert [] + [a] == [a] && [a] + [b] == [a, b] && [a, b] + [d] == [a, b, d] && [] + [a] + [b] == [a, b];
    SortNext(l, t, [], a);
    SortNext(l, t, [a], b);
    SortNext(l, t, [a, b], d);
    InsertBehind(l, t, b, [], a);
    InsertBehind(l, t, d, [a], b);
  }

  lemma MarksNext(l: Layout, t: Ticks, ev: seq<nat>, s: nat)
    requires Small(l) && Indices(t, ev) && s < |t|
    ensures Indices(t, ev + [s])
    ensures Marks(l, t, ev + [s]) ==
            if Hidden(t, s) then Marks(l, t, ev) else Marks(l, t, ev) + [Mark(t[s] % 4, Letter(s))]
  {
    assert (ev + [s])[..|ev|] == ev;
    assert Column(l, t[s]) == t[s] % 4;
  }

  /** Which ticks the one row of a compact timeline holds. */
  lemma OneRow(l: Layout, t: Ticks, s: nat)
    requires Small(l) && t[0] < 4 && FitsBehindFetch(l, t) && s < |t|
    ensures NumLines(l, t) == 1
    ensures InRow(l, t, 0, s) <==> t[s] != 0
  {
    NumLinesIs(l, t);
    assert Base(l, t) == 0;
  }

  lemma FoundNext(l: Layout, t: Ticks, n: nat, ev: seq<nat>)
    requires Small(l) && t[0] < 4 && FitsBehindFetch(l, t) && n < |t| && Found(l, t, 0, n) == ev
    ensures Found(l, t, 0, n + 1) == ev + if t[n] != 0 then [n] else []
  {
    OneRow(l, t, n);
  }

  /** Fetch, decode and retire in the one row. */
  lemma FoundThree(l: Layout, t: Ticks)
    requires Small(l) && t[0] < 4 && FitsBehindFetch(l, t) && |t| == 7
    requires t[0] != 0 && t[1] != 0 && t[6] != 0 && t[2] == t[3] == t[4] == t[5] == 0
    ensures Found(l, t, 0, 7) == [0, 1, 6]
  {
    FoundNext(l, t, 0, []);
    FoundNext(l, t, 1, [0]);
    FoundNext(l, t, 2, [0, 1]);
    FoundNext(l, t, 3, [0, 1]);
    FoundNext(l, t, 4, [0, 1]);
    FoundNext(l, t, 5, [0, 1]);
    FoundNext(l, t, 6, [0, 1]);
  }

  lemma MarksThree(l: Layout, t: Ticks, a: nat, b: nat, d: nat)
    requires Small(l) && a < |t| && b < |t| && d < |t| && !Hidden(t, a) && !Hidden(t, b) && !Hidden(t, d)
    ensures Indices(t, [a, b, d])
    ensures Marks(l, t, [a, b, d]) == [Mark(t[a] % 4, Letter(a)), Mark(t[b] % 4, Letter(b)), Mark(t[d] % 4, Letter(d))]
  {
    MarksNext(l, t, [], a);
    MarksNext(l, t, [a], b);
    MarksNext(l, t, [a, b], d);
    assert [] + [a] == [a] && [a] + [b] == [a, b] && [a, b] + [d] == [a, b, d];
  }

  lemma RowOfThree(ms: seq<Mark>)
    requires ms == [Mark(0, 'd'), Mark(2, 'r'), Mark(3, 'f')]
    ensures Columns(ms, 4, '.') == "d.rf"
  {
    CellOfThree(ms, 0);
    CellOfThree(ms, 1);
    CellOfThree(ms, 2);
    CellOfThree(ms, 3);
    FourColumns(ms, '.', "d", ".", "r", "f");
  }

  /** Fetch in the last column, decode and retire past the right edge: these are drawn in the
      same row, left of fetch. */
  lemma WrapsInOneRow(l: Layout, t: Ticks)
    requires Small(l) && t == [3, 4, 0, 0, 0, 0, 6]
    ensures NumLines(l, t) == 1 && RowText(l, t, 0) == "d.rf"
  {
    OneRow(l, t, 0);
    FoundThree(l, t);
    SortThree(l, t, 0, 1, 6);
    MarksThree(l, t, 1, 6, 0);
    RowOfThree(Marks(l, t, [1, 6, 0]));
  }

  lemma FoundIssued(l: Layout, t: Ticks)
    requires Small(l) && t[0] < 4 && FitsBehindFetch(l, t) && |t| == 7
    requires t[0] != 0 && t[3] != 0 && t[4] != 0 && t[1] == t[2] == t[5] == t[6] == 0
    ensures Found(l, t, 0, 7) == [0, 3, 4]
  {
    FoundNext(l, t, 0, []);
    FoundNext(l, t, 1, [0]);
    FoundNext(l, t, 2, [0]);
    FoundNext(l, t, 3, [0]);
    FoundNext(l, t, 4, [0, 3]);
    FoundNext(l, t, 5, [0, 3, 4]);
    FoundNext(l, t, 6, [0, 3, 4]);
  }

  lemma MarksIssued(l: Layout, t: Ticks)
    requires Small(l) && t[3] == t[4]
    ensures Indices(t, [0, 3, 4])
    ensures Marks(l, t, [0, 3, 4]) == [Mark(t[0] % 4, 'f'), Mark(t[4] % 4, 'i')]
  {
    MarksNext(l, t, [], 0);
    MarksNext(l, t, [0], 3);
    MarksNext(l, t, [0, 3], 4);
    assert [] + [0] == [0] && [0] + [3] == [0, 3] && [0, 3] + [4] == [0, 3, 4];
  }

  lemma RowOfTwo(ms: seq<Mark>)
    requires ms == [Mark(1, 'f'), Mark(2, 'i')]
    ensures Columns(ms, 4, '=') == "=fi="
  {
    CellOfTwo(ms, 0);
    CellOfTwo(ms, 1);
    CellOfTwo(ms, 2);
    CellOfTwo(ms, 3);
    FourColumns(ms, '=', "=", "f", "i", "=");
  }

  /** An instruction that never retired has other dots, and its dispatch is not drawn because
      it was issued in the same tick. */
  lemma AbandonedRow(l: Layout, t: Ticks)
    requires Small(l) && t == [1, 0, 0, 2, 2, 0, 0]
    ensures NumLines(l, t) == 1 && RowText(l, t, 0) == "=fi="
  {
    OneRow(l, t, 0);
    FoundIssued(l, t);
    SortOrderedThree(l, t, 0, 3, 4);
    MarksIssued(l, t);
    RowOfTwo(Marks(l, t, [0, 3, 4]));
  }
}
