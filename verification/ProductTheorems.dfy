/** What the threads of the matrix benchmark leave in the result matrix. */
module ProductTheorems {
  import opened Counting
  import opened ParallelProduct

  // ------------------------------------------------------------------ cells and slices

  /** The sum of the first `k` products for a cell. */
  function Sum(c: Config, cell: nat, k: nat): int {
    if k == 0 then 0 else Sum(c, cell, k - 1) + Product(c, cell, k - 1)
  }

  lemma InMatrix(N: nat, y: nat, k: nat)
    requires y < N && k < N
    ensures y * N + k < N * N
  {
    MulLe(y + 1, N, N);
    assert (y + 1) * N == y * N + N;
  }

  lemma CellInMatrix(N: nat, cell: nat)
    requires cell < N * N
    ensures N > 0 && cell / N < N && cell % N < N
  {
    assert N > 0;
    assert cell == cell / N * N + cell % N;
    MultiplesApart(N, N - 1, cell / N);
    if cell / N >= N { MulLe(N, cell / N, N); }
  }

  lemma ProductReads(c: Config, cell: nat, k: nat, p: int, q: int)
    requires |c.a| == |c.b| == c.N * c.N && cell < c.N * c.N && 0 <= k < c.N
    requires p == cell % c.N * c.N + k && q == k * c.N + cell / c.N
    ensures 0 <= p < |c.a| && 0 <= q < |c.b| && Product(c, cell, k) == c.a[p] * c.b[q]
  {
    CellInMatrix(c.N, cell);
    InMatrix(c.N, cell % c.N, k);
    InMatrix(c.N, k, cell / c.N);
    MulLe(0, cell % c.N, c.N);
    MulLe(0, k, c.N);
  }

  /** Adds one cell's sum of products in place; every operand read is in bounds. */
  method AddCell(N: nat, m1: array<int>, m2: array<int>, m3: array<int>, cell: nat)
    requires m1.Length == m2.Length == m3.Length == N * N && cell < N * N && m3 != m1 && m3 != m2
    modifies m3
    ensures m3[cell] == old(m3[cell]) + Sum(Config(N, m1[..], m2[..], [], 0), cell, N)
    ensures forall j :: 0 <= j < m3.Length && j != cell ==> m3[j] == old(m3[j])
  {
    CellInMatrix(N, cell);
    ghost var c := Config(N, m1[..], m2[..], [], 0);
    assert |c.a| == |c.b| == N * N;
    var x, y := cell / N, cell % N;
    for k := 0 to N
      invariant m3[cell] == old(m3[cell]) + Sum(c, cell, k)
      invariant forall j :: 0 <= j < m3.Length && j != cell ==> m3[j] == old(m3[j])
    {
      var p, q := y * N + k, k * N + x;
      ProductReads(c, cell, k, p, q);
      m3[cell] := m3[cell] + m1[p] * m2[q];
    }
  }

  /** One thread's work: the cells of its slice grow by their sums and no other cell changes. */
  method Caculate(N: nat, m1: array<int>, m2: array<int>, m3: array<int>, offset: nat, length: nat)
    requires m1.Length == m2.Length == m3.Length == N * N && offset + length <= N * N && m3 != m1 && m3 != m2
    modifies m3
    ensures forall j :: offset <= j < offset + length ==>
              m3[j] == old(m3[j]) + Sum(Config(N, m1[..], m2[..], [], 0), j, N)
    ensures forall j :: 0 <= j < m3.Length && !(offset <= j < offset + length) ==> m3[j] == old(m3[j])
  {
    for i := 0 to length
      invariant forall j :: offset <= j < offset + i ==>
                  m3[j] == old(m3[j]) + Sum(Config(N, m1[..], m2[..], [], 0), j, N)
      invariant forall j :: 0 <= j < m3.Length && !(offset <= j < offset + i) ==> m3[j] == old(m3[j])
    {
      AddCell(N, m1, m2, m3, i + offset);
    }
  }

  function CellOf(c: Config, t: nat, j: nat): nat
    requires t < T(c)
  {
    c.slices[t].offset + j
  }

  ghost predicate Owns(c: Config, t: nat, cell: nat) {
    t < T(c) && c.slices[t].offset <= cell < c.slices[t].offset + c.slices[t].length
  }

  ghost predicate SlicesOk(c: Config) {
    && (forall t: nat, cell: nat :: Owns(c, t, cell) ==> cell < c.N * c.N)
    && (forall t: nat, u: nat, cell: nat :: Owns(c, t, cell) && Owns(c, u, cell) ==> t == u)
  }

  /** The value a thread has reached in the j-th cell of its slice. */
  function Reached(c: Config, th: Thread, cell: nat, j: nat): int {
    if th.left == 0 then 0
    else if th.pc.Calc? || th.pc.Store? then
      if j < th.pc.i then Sum(c, cell, c.N) else if j == th.pc.i then Sum(c, cell, th.pc.k) else 0
    else Sum(c, cell, c.N)
  }

  ghost predicate PcOk(c: Config, t: nat, th: Thread)
    requires t < T(c)
  {
    match th.pc
    case Calc(i, k) => th.left == 1 && k <= c.N && i <= c.slices[t].length
    case Store(i, k, x) =>
      th.left == 1 && k < c.N && i < c.slices[t].length && x == Sum(c, CellOf(c, t, i), k + 1)
    case SendLock => th.left == 1
    case Sending => th.left == 1
    case _ => true
  }

  ghost predicate CellOk(c: Config, s: State, t: nat, cell: nat)
    requires Owns(c, t, cell) && t < |s.threads| && cell < |s.m3|
  {
    s.m3[cell] == Reached(c, s.threads[t], cell, cell - c.slices[t].offset)
  }

  /** Every cell holds what its owner has reached, and a cell without an owner holds 0. */
  ghost predicate WorkInv(c: Config, s: State) {
    && |s.m3| == c.N * c.N && |s.threads| == T(c)
    && (forall t: nat :: t < T(c) ==> PcOk(c, t, s.threads[t]))
    && (forall t: nat, cell: nat :: Owns(c, t, cell) && cell < |s.m3| ==> CellOk(c, s, t, cell))
    && (forall cell: nat :: cell < |s.m3| && (forall t: nat :: !Owns(c, t, cell)) ==> s.m3[cell] == 0)
  }

  // -------------------------------------------------------------------- preservation

  /** A step that leaves the matrix alone and every thread where its cells say it is. */
  lemma SameReached(c: Config, s: State, s': State)
    requires WorkInv(c, s) && s'.m3 == s.m3 && |s'.threads| == |s.threads|
    requires forall t: nat :: t < T(c) ==> PcOk(c, t, s'.threads[t]) && Alike(c, s.threads[t], s'.threads[t])
    ensures WorkInv(c, s')
  {
    forall t: nat, cell: nat | Owns(c, t, cell) && cell < |s'.m3| ensures CellOk(c, s', t, cell) {
      assert CellOk(c, s, t, cell);
      assert Alike(c, s.threads[t], s'.threads[t]);
    }
  }

  ghost predicate Alike(c: Config, th: Thread, th': Thread) {
    forall cell: nat, j: nat :: Reached(c, th', cell, j) == Reached(c, th, cell, j)
  }

  lemma BarrierStepKeepsWork(c: Config, s: State, t: nat)
    requires WorkInv(c, s) && t < T(c) && InBarrier(s.threads[t].pc)
    ensures WorkInv(c, BarrierStep(c, s, t))
  {
    var s' := BarrierStep(c, s, t);
    forall u: nat | u < T(c) ensures PcOk(c, u, s'.threads[u]) && Alike(c, s.threads[u], s'.threads[u]) {
      assert PcOk(c, u, s.threads[u]);
    }
    SameReached(c, s, s');
  }

  lemma StoreKeepsWork(c: Config, s: State, t: nat)
    requires SlicesOk(c) && WorkInv(c, s) && t < T(c) && s.threads[t].pc.Store?
    ensures WorkInv(c, WorkStep(c, s, t))
  {
    var s', th := WorkStep(c, s, t), s.threads[t];
    assert PcOk(c, t, th);
    var own := CellOf(c, t, th.pc.i);
    assert Owns(c, t, own);
    assert s'.m3 == s.m3[own := th.pc.x];
    forall u: nat | u < T(c) ensures PcOk(c, u, s'.threads[u]) { assert PcOk(c, u, s.threads[u]); }
    forall u: nat, cell: nat | Owns(c, u, cell) && cell < |s'.m3| ensures CellOk(c, s', u, cell) {
      assert CellOk(c, s, u, cell);
    }
  }

  lemma CalcKeepsWork(c: Config, s: State, t: nat)
    requires SlicesOk(c) && WorkInv(c, s) && t < T(c) && s.threads[t].pc.Calc?
    ensures WorkInv(c, WorkStep(c, s, t))
  {
    var s', th := WorkStep(c, s, t), s.threads[t];
    var i, k := th.pc.i, th.pc.k;
    assert PcOk(c, t, th);
    if i < c.slices[t].length {
      assert Owns(c, t, CellOf(c, t, i));
      assert CellOk(c, s, t, CellOf(c, t, i));
    }
    forall u: nat | u < T(c) ensures PcOk(c, u, s'.threads[u]) { assert PcOk(c, u, s.threads[u]); }
    forall u: nat, cell: nat | Owns(c, u, cell) && cell < |s'.m3| ensures CellOk(c, s', u, cell) {
      assert CellOk(c, s, u, cell);
    }
  }

  lemma SendKeepsWork(c: Config, s: State, t: nat)
    requires WorkInv(c, s) && t < T(c) && (s.threads[t].pc.SendLock? || s.threads[t].pc.Sending?)
    ensures WorkInv(c, WorkStep(c, s, t))
  {
    var s' := WorkStep(c, s, t);
    forall u: nat | u < T(c) ensures PcOk(c, u, s'.threads[u]) && Alike(c, s.threads[u], s'.threads[u]) {
      assert PcOk(c, u, s.threads[u]);
    }
    SameReached(c, s, s');
  }

  lemma StepKeepsWork(c: Config, s: State, step: Step)
    requires SlicesOk(c) && WorkInv(c, s) && Enabled(c, s, step)
    ensures WorkInv(c, Apply(c, s, step))
  {
    var t := step.t;
    if step.Spurious? {
      var s' := Apply(c, s, step);
      forall u: nat | u < T(c) ensures PcOk(c, u, s'.threads[u]) && Alike(c, s.threads[u], s'.threads[u]) {
        assert PcOk(c, u, s.threads[u]);
      }
      SameReached(c, s, s');
    } else if InBarrier(s.threads[t].pc) {
      BarrierStepKeepsWork(c, s, t);
    } else if s.threads[t].pc.Calc? {
      CalcKeepsWork(c, s, t);
    } else if s.threads[t].pc.Store? {
      StoreKeepsWork(c, s, t);
    } else {
      SendKeepsWork(c, s, t);
    }
  }

  lemma {:induction false} WorkHolds(c: Config, steps: seq<Step>)
    requires SlicesOk(c) && Legal(c, steps)
    ensures WorkInv(c, After(c, steps))
  {
    if steps != [] {
      WorkHolds(c, steps[..|steps| - 1]);
      StepKeepsWork(c, After(c, steps[..|steps| - 1]), steps[|steps| - 1]);
    }
  }

  /** Every cell with an owner holds its full sum. */
  ghost predicate Complete(c: Config, m3: seq<int>) {
    forall u: nat, cell: nat :: Owns(c, u, cell) ==> cell < |m3| && m3[cell] == Sum(c, cell, c.N)
  }

  /** Some thread has left its second perf_cycle. */
  ghost predicate Crossed(s: State) {
    exists t: nat :: t < |s.threads| && s.threads[t].left >= 2
  }

  /** Once any thread has left its second perf_cycle, every slice is complete, whatever the
      interleaving of reads and writes was. */
  lemma SecondCrossingMeansDone(c: Config, steps: seq<Step>)
    requires T(c) >= 1 && SlicesOk(c) && Legal(c, steps) && NoSpurious(steps) && Crossed(After(c, steps))
    ensures Complete(c, After(c, steps).m3)
  {
    BarrierHolds(c, steps);
    WorkHolds(c, steps);
    DoneFromInv(c, After(c, steps));
  }

  lemma DoneFromInv(c: Config, s: State)
    requires SlicesOk(c) && BarrierInv(c, s) && WorkInv(c, s) && Crossed(s)
    ensures Complete(c, s.m3)
  {
    SafeFromInv(c, s);
    forall u: nat, cell: nat | Owns(c, u, cell) ensures cell < |s.m3| && s.m3[cell] == Sum(c, cell, c.N) {
      assert CellOk(c, s, u, cell);
      assert ThreadInv(s.bar.gen, s.threads[u]) && PcOk(c, u, s.threads[u]);
      assert s.threads[u].entered >= 2;
    }
  }

  // ------------------------------------------------------------------ the matrix product

  function Dot(row: seq<int>, col: seq<int>): int
    requires |row| == |col|
  {
    if row == [] then 0
    else Dot(row[..|row| - 1], col[..|col| - 1]) + row[|row| - 1] * col[|col| - 1]
  }

  ghost function Row(m: seq<int>, N: nat, y: nat): seq<int> {
    seq(N, k => At(m, y * N + k))
  }

  ghost function Col(m: seq<int>, N: nat, x: nat): seq<int> {
    seq(N, k => At(m, k * N + x))
  }

  lemma CellCoordinates(N: nat, x: nat, y: nat)
    requires x < N && y < N
    ensures (x * N + y) / N == x && (x * N + y) % N == y
    ensures x * N + y < N * N
  {
    var cell := x * N + y;
    DivisionIsUnique(N, cell / N, cell % N, x, y);
    MultiplesApart(N, x, N);
  }

  lemma {:induction false} SumIsDot(c: Config, x: nat, y: nat, k: nat)
    requires x < c.N && y < c.N && k <= c.N
    ensures Sum(c, x * c.N + y, k) == Dot(Row(c.a, c.N, y)[..k], Col(c.b, c.N, x)[..k])
  {
    if k > 0 {
      SumIsDot(c, x, y, k - 1);
      var row, col := Row(c.a, c.N, y)[..k], Col(c.b, c.N, x)[..k];
      assert row[..k - 1] == Row(c.a, c.N, y)[..k - 1] && col[..k - 1] == Col(c.b, c.N, x)[..k - 1];
      CellCoordinates(c.N, x, y);
    }
  }

  /** Cell (x, y) of the result ends as row y of the first operand times column x of the
      second: the transpose of the product. */
  lemma SumIsTransposedProduct(c: Config, x: nat, y: nat)
    requires x < c.N && y < c.N
    ensures Sum(c, x * c.N + y, c.N) == Dot(Row(c.a, c.N, y), Col(c.b, c.N, x))
  {
    SumIsDot(c, x, y, c.N);
    assert Row(c.a, c.N, y)[..c.N] == Row(c.a, c.N, y) && Col(c.b, c.N, x)[..c.N] == Col(c.b, c.N, x);
  }

  // ------------------------------------------------------------- the slices of a chiplet

  /** The slice of thread `i` on chiplet `id`, with the divisions in program order. */
  function ChipletSlice(N: nat, id: nat, i: nat): Slice {
    Slice(i * (N * N) / 4 / 2 + id * (N * N) / 2, N * N / 4 / 2)
  }

  function ChipletSlices(N: nat, id: nat): seq<Slice> {
    [ChipletSlice(N, id, 0), ChipletSlice(N, id, 1), ChipletSlice(N, id, 2), ChipletSlice(N, id, 3)]
  }

  ghost predicate Chiplet(c: Config, id: nat) {
    id < 2 && c.slices == ChipletSlices(c.N, id)
  }

  ghost predicate InSlice(N: nat, id: nat, i: nat, cell: nat) {
    var s := ChipletSlice(N, id, i);
    s.offset <= cell < s.offset + s.length
  }

  /** The start of slice q = 4 id + i in a matrix of S cells; the eighth is its end. */
  function Edge(S: nat, q: nat): nat {
    if q == 0 then 0
    else if q == 1 then S / 4 / 2
    else if q == 2 then 2 * S / 4 / 2
    else if q == 3 then 3 * S / 4 / 2
    else if q == 4 then S / 2
    else if q == 5 then S / 4 / 2 + S / 2
    else if q == 6 then 2 * S / 4 / 2 + S / 2
    else if q == 7 then 3 * S / 4 / 2 + S / 2
    else S
  }

  lemma SliceIsEdge(N: nat, id: nat, i: nat)
    requires id < 2 && i < 4
    ensures ChipletSlice(N, id, i) == Slice(Edge(N * N, 4 * id + i), N * N / 4 / 2)
  {
    var S := N * N;
    if i == 0 { } else if i == 1 { } else if i == 2 { } else { assert i == 3; }
  }

  lemma EdgeStep(S: nat, q: nat)
    requires q < 8
    ensures Edge(S, q) + S / 4 / 2 <= Edge(S, q + 1)
  {
  }

  lemma {:induction false} EdgeMono(S: nat, q: nat, q': nat)
    requires q <= q' <= 8
    ensures Edge(S, q) <= Edge(S, q')
    decreases q' - q
  {
    if q < q' {
      EdgeStep(S, q);
      EdgeMono(S, q + 1, q');
    }
  }

  lemma SliceBefore(N: nat, q: nat, q': nat)
    requires q < q' <= 8
    ensures Edge(N * N, q) + N * N / 4 / 2 <= Edge(N * N, q') <= N * N
  {
    EdgeStep(N * N, q);
    EdgeMono(N * N, q + 1, q');
    EdgeMono(N * N, q', 8);
  }

  /** The slices of the two chiplets are inside the matrix and pairwise disjoint, for
      every N. */
  lemma SlicesAreDisjoint(N: nat, id: nat, i: nat, id': nat, i': nat, cell: nat)
    requires id < 2 && i < 4 && id' < 2 && i' < 4
    requires InSlice(N, id, i, cell)
    ensures cell < N * N
    ensures InSlice(N, id', i', cell) ==> id == id' && i == i'
  {
    var q, q' := 4 * id + i, 4 * id' + i';
    SliceIsEdge(N, id, i);
    SliceIsEdge(N, id', i');
    SliceBefore(N, q, 8);
    if q < q' {
      SliceBefore(N, q, q');
    } else if q' < q {
      SliceBefore(N, q', q);
    }
  }

  lemma ChipletSlicesOk(c: Config, id: nat)
    requires Chiplet(c, id)
    ensures T(c) == 4 && SlicesOk(c)
    ensures forall t: nat, cell: nat :: Owns(c, t, cell) <==> t < 4 && InSlice(c.N, id, t, cell)
  {
    forall t: nat, cell: nat ensures Owns(c, t, cell) <==> t < 4 && InSlice(c.N, id, t, cell) { }
    forall t: nat, cell: nat | Owns(c, t, cell) ensures cell < c.N * c.N {
      SlicesAreDisjoint(c.N, id, t, id, t, cell);
    }
    forall t: nat, u: nat, cell: nat | Owns(c, t, cell) && Owns(c, u, cell) ensures t == u {
      SlicesAreDisjoint(c.N, id, t, id, u, cell);
    }
  }

  // --------------------------------------------------------------------------- coverage

  lemma SquareModEight(N: nat)
    ensures N * N % 8 == 0 <==> N % 4 == 0
  {
    var m, r := N / 4, N % 4;
    assert N * N == 8 * (2 * m * m + m * r) + r * r;
    SquareRest(2 * m * m + m * r, r);
  }

  lemma SquareRest(a: nat, r: nat)
    requires r < 4
    ensures (8 * a + r * r) % 8 == 0 <==> r == 0
  {
    if r == 0 { } else if r == 1 { } else if r == 2 { } else { assert r * r == 9; }
  }

  ghost predicate Covered(N: nat, cell: nat) {
    exists id: nat, i: nat :: id < 2 && i < 4 && InSlice(N, id, i, cell)
  }

  /** A slice that reaches the last cell exists only when the slices add up. */
  lemma LastCellMissed(N: nat, id: nat, i: nat)
    requires N * N % 8 != 0 && id < 2 && i < 4
    ensures !InSlice(N, id, i, N * N - 1)
  {
    SliceIsEdge(N, id, i);
    if 4 * id + i < 7 { SliceBefore(N, 4 * id + i, 7); }
    LastEdge(N * N);
  }

  lemma LastEdge(S: nat)
    requires S % 8 != 0
    ensures Edge(S, 7) + S / 4 / 2 < S
  {
  }

  lemma {:induction false} CellHasSlice(S: nat, cell: nat, q: nat) returns (p: nat)
    requires S % 8 == 0 && cell < Edge(S, q) && q <= 8
    ensures p < q && Edge(S, p) <= cell < Edge(S, p) + S / 4 / 2
  {
    EdgeExact(S, q - 1);
    if Edge(S, q - 1) <= cell { p := q - 1; } else { p := CellHasSlice(S, cell, q - 1); }
  }

  lemma EdgeExact(S: nat, q: nat)
    requires S % 8 == 0 && q < 8
    ensures Edge(S, q) + S / 4 / 2 == Edge(S, q + 1)
  {
    var m := S / 8;
    assert S == 8 * m;
    assert S / 4 / 2 == m && 2 * S / 4 / 2 == 2 * m && 3 * S / 4 / 2 == 3 * m && S / 2 == 4 * m;
  }

  /** The eight slices cover the whole matrix if and only if 4 divides N. */
  lemma CoverageIff(N: nat)
    ensures (forall cell: nat :: cell < N * N ==> Covered(N, cell)) <==> N % 4 == 0
  {
    SquareModEight(N);
    if N % 4 == 0 {
      forall cell: nat | cell < N * N ensures Covered(N, cell) {
        var p := CellHasSlice(N * N, cell, 8);
        SliceIsEdge(N, p / 4, p % 4);
        assert InSlice(N, p / 4, p % 4, cell);
      }
    } else {
      var last: nat := N * N - 1;
      forall id: nat, i: nat | id < 2 && i < 4 ensures !InSlice(N, id, i, last) {
        LastCellMissed(N, id, i);
      }
      assert !Covered(N, last);
    }
  }

  // --------------------------------------------------------------------- whole runs

  /** A run of one chiplet's threads, some of which has left the second perf_cycle. */
  ghost predicate FinishedRun(c: Config, id: nat, steps: seq<Step>) {
    Chiplet(c, id) && Legal(c, steps) && NoSpurious(steps) && Crossed(After(c, steps))
  }

  lemma FinishedIsComplete(c: Config, id: nat, steps: seq<Step>)
    requires FinishedRun(c, id, steps)
    ensures Complete(c, After(c, steps).m3)
  {
    ChipletSlicesOk(c, id);
    SecondCrossingMeansDone(c, steps);
  }

  /** In a complete matrix, cell (x, y) in a slice of the chiplet is row y times column x. */
  lemma CompleteCell(c: Config, id: nat, m3: seq<int>, i: nat, x: nat, y: nat)
    requires Chiplet(c, id) && Complete(c, m3) && x < c.N && y < c.N && i < 4 && InSlice(c.N, id, i, x * c.N + y)
    ensures At(m3, x * c.N + y) == Dot(Row(c.a, c.N, y), Col(c.b, c.N, x))
  {
    ChipletSlicesOk(c, id);
    var cell := x * c.N + y;
    assert Owns(c, i, cell);
    SumIsTransposedProduct(c, x, y);
  }

  ghost predicate HoldsProduct(c: Config, m3: seq<int>, x: nat, y: nat) {
    At(m3, x * c.N + y) == Dot(Row(c.a, c.N, y), Col(c.b, c.N, x))
  }

  /** The slices of id 0 lie in the first half of the matrix, those of id 1 in the second. */
  lemma HalfOf(N: nat, id: nat, i: nat, cell: nat)
    requires id < 2 && i < 4 && InSlice(N, id, i, cell)
    ensures id == 0 <==> cell < N * N / 2
  {
    SliceIsEdge(N, id, i);
    if id == 0 { SliceBefore(N, i, 4); } else { EdgeMono(N * N, 4, 4 + i); }
  }

  /** The cells of a chiplet's own half. */
  ghost predicate OwnHalf(N: nat, id: nat, cell: int) {
    id == 0 <==> cell < N * N / 2
  }

  /** When 4 divides N, a finished run of chiplet `id` holds the transpose of the product in
      exactly its own half of the matrix, and zeros in the other one. */
  lemma ProductIsComplete(c: Config, id: nat, steps: seq<Step>, x: nat, y: nat)
    requires FinishedRun(c, id, steps) && c.N % 4 == 0 && x < c.N && y < c.N
    ensures if OwnHalf(c.N, id, x * c.N + y) then HoldsProduct(c, After(c, steps).m3, x, y)
            else At(After(c, steps).m3, x * c.N + y) == 0
  {
    var owner, i := OwnerOf(c.N, x, y);
    HalfOf(c.N, owner, i, x * c.N + y);
    if owner == id {
      FinishedIsComplete(c, id, steps);
      CompleteCell(c, id, After(c, steps).m3, i, x, y);
    } else {
      ForeignCellStaysZero(c, id, steps, x * c.N + y);
    }
  }

  lemma ForeignCellStaysZero(c: Config, id: nat, steps: seq<Step>, cell: nat)
    requires Chiplet(c, id) && Legal(c, steps) && cell < c.N * c.N && !OwnHalf(c.N, id, cell)
    ensures At(After(c, steps).m3, cell) == 0
  {
    ChipletSlicesOk(c, id);
    WorkHolds(c, steps);
    forall t: nat ensures !Owns(c, t, cell) {
      if t < 4 && InSlice(c.N, id, t, cell) { HalfOf(c.N, id, t, cell); }
    }
  }

  lemma OwnerOf(N: nat, x: nat, y: nat) returns (id: nat, i: nat)
    requires N % 4 == 0 && x < N && y < N
    ensures id < 2 && i < 4 && InSlice(N, id, i, x * N + y) && x * N + y < N * N
  {
    CoverageIff(N);
    CellCoordinates(N, x, y);
    assert Covered(N, x * N + y);
    id, i :| id < 2 && i < 4 && InSlice(N, id, i, x * N + y);
  }

  /** When 4 does not divide N, no run of either chiplet ever computes the last cell. */
  lemma LastCellStaysZero(c: Config, id: nat, steps: seq<Step>)
    requires Chiplet(c, id) && Legal(c, steps) && c.N % 4 != 0
    ensures |After(c, steps).m3| == c.N * c.N && At(After(c, steps).m3, c.N * c.N - 1) == 0
  {
    ChipletSlicesOk(c, id);
    WorkHolds(c, steps);
    SquareModEight(c.N);
    var last: nat := c.N * c.N - 1;
    forall t: nat ensures !Owns(c, t, last) {
      if t < 4 { LastCellMissed(c.N, id, t); }
    }
  }
}
