/** What every step of the search keeps. */
module SearchInvariant {
  import opened Counting
  import opened SearchProtocol

  ghost predicate Typed(c: Config, s: State) {
    && ValidConfig(c)
    && |s.q.slots| == c.V && |s.visited| == c.V && |s.workers| == c.N
    && !s.fault
  }

  ghost predicate Vertex(c: Config, x: int) {
    0 <= x < c.V
  }

  // ---------------------------------------------------- the queue and its only writer

  /** Distinct vertices other than the root, then free slots; a slot written but not yet
      counted is the only exception. */
  ghost predicate QueueInv(c: Config, s: State)
    requires Typed(c, s)
  {
    && s.q.counter <= s.q.length < c.V
    && (forall k :: 0 <= k < s.q.length ==> Vertex(c, s.q.slots[k]) && s.q.slots[k] != c.root)
    && Distinct(s.q.slots[..s.q.length])
    && (forall k :: s.q.length <= k < c.V ==>
          s.q.slots[k] == if s.main.Bump? && k == s.q.length then s.main.i else EMPTY)
  }

  ghost predicate Fresh(c: Config, s: State, i: int) {
    Vertex(c, i) && i != c.root && s.q.length < |s.q.slots| && i !in s.q.slots[..s.q.length]
  }

  ghost predicate MainInv(c: Config, s: State)
    requires Typed(c, s)
  {
    && (match s.main
        case Enter(id) => Vertex(c, id)
        case Mark(id) => Vertex(c, id)
        case Scan(id, i) => Vertex(c, id) && 0 <= i <= c.V
        case Line(id, i, k) =>
          && Vertex(c, id) && Vertex(c, i) && i != c.root && 0 <= k <= c.V
          && (forall j :: 0 <= j < k ==> s.q.slots[j] != i)
        case Write(id, i) => Vertex(c, id) && Fresh(c, s, i)
        case Bump(id, i) => Vertex(c, id) && Fresh(c, s, i) && s.q.length + 1 < c.V
        case HeadAt(t) => 0 <= t <= s.q.counter
        case PeekAt(t) => 0 <= t <= s.q.counter
        case Notify(v) => Vertex(c, v)
        case NotifyAt(v, n) => Vertex(c, v)
        case NotifyIf(v) => Vertex(c, v)
        case Cast(v) => Vertex(c, v)
        case SetFlag => s.q.counter == s.q.length
        case Spin => s.q.counter == s.q.length
        case Done => s.q.counter == s.q.length
        case _ => true)
    && (s.mainFlag <==> s.main.Spin? || s.main.Done?)
    && (s.visited[c.root] || ((s.main == Enter(c.root) || s.main == Mark(c.root)) && s.q.length == 0))
  }

  // ------------------------------------------------------------------- the workers

  /** A vertex somebody has visited or the queue holds. */
  ghost predicate Covered(s: State, x: int) {
    (0 <= x < |s.visited| && s.visited[x]) || x in s.q.slots
  }

  ghost predicate Swept(s: State, i: int) {
    forall x :: 0 <= x < i ==> Covered(s, x)
  }

  ghost predicate Holding(c: Config, s: State, slot: nat, v: int)
    requires Typed(c, s)
  {
    slot < s.q.counter && slot < c.V && s.q.slots[slot] == v && Vertex(c, v)
  }

  /** The stack never outgrows the pushed values, and these are distinct: the vertex taken
      from the queue first, then vertices this call found neither visited nor queued. */
  ghost predicate DfsInv(c: Config, s: State, d: Dfs)
    requires Typed(c, s)
  {
    && 0 < |d.pushed|
    && |d.stack| <= |d.pushed|
    && Distinct(d.pushed)
    && (forall j :: 0 <= j < |d.pushed| ==> Vertex(c, d.pushed[j]))
    && (forall j :: 0 <= j < |d.stack| ==> Vertex(c, d.stack[j]))
    && (forall j :: 0 < j < |d.pushed| ==> s.visited[d.pushed[j]])
    && Holding(c, s, d.slot, d.pushed[0])
  }

  ghost predicate WorkerInv(c: Config, s: State, p: WorkerPc)
    requires Typed(c, s)
  {
    match p
    case PeekSlot(r, t) => 0 <= t <= s.q.counter
    case Clear(slot, v) => Holding(c, s, slot, v)
    case Up(slot, v) => Holding(c, s, slot, v)
    case Unlock(slot, v) => Holding(c, s, slot, v)
    case Start(slot, v) => Holding(c, s, slot, v)
    case Test(d, i) => DfsInv(c, s, d) && 0 <= i <= c.V && Swept(s, i)
    case InLine(d, i, k) =>
      && DfsInv(c, s, d) && Vertex(c, i) && Swept(s, i) && 0 <= k <= c.V
      && i !in d.pushed[1..]
      && (i == d.pushed[0] ==> k <= d.slot)
    case Visit(d, i) => DfsInv(c, s, d) && Vertex(c, i) && Swept(s, i) && i !in d.pushed
    case Push(d, i) => DfsInv(c, s, d) && Vertex(c, i) && Swept(s, i) && i !in d.pushed && s.visited[i]
    case Pop(d) => DfsInv(c, s, d) && Swept(s, c.V)
    case _ => true
  }

  ghost predicate WorkersInv(c: Config, s: State)
    requires Typed(c, s)
  {
    forall w :: 0 <= w < c.N ==> WorkerInv(c, s, s.workers[w])
  }

  /** Shared data only grows: slots are written once, marks and the counter never go back. */
  ghost predicate Grows(s: State, s': State) {
    && |s'.q.slots| == |s.q.slots| && |s'.visited| == |s.visited|
    && (forall k :: 0 <= k < |s.q.slots| && s.q.slots[k] != EMPTY ==> s'.q.slots[k] == s.q.slots[k])
    && (forall x :: 0 <= x < |s.visited| && s.visited[x] ==> s'.visited[x])
    && s.q.counter <= s'.q.counter
  }

  lemma CoveredStable(s: State, s': State, x: int)
    requires Grows(s, s') && Covered(s, x) && x != EMPTY
    ensures Covered(s', x)
  {
    if x in s.q.slots {
      var k :| 0 <= k < |s.q.slots| && s.q.slots[k] == x;
      assert s'.q.slots[k] == x;
    }
  }

  lemma SweptStable(s: State, s': State, i: int)
    requires Grows(s, s') && Swept(s, i)
    ensures Swept(s', i)
  {
    forall x | 0 <= x < i ensures Covered(s', x) { CoveredStable(s, s', x); }
  }

  lemma SweptNext(s: State, s': State, i: nat)
    requires s'.q.slots == s.q.slots && s'.visited == s.visited
    requires Swept(s, i) && Covered(s, i)
    ensures Swept(s', i + 1)
  {
    forall x | 0 <= x < i + 1 ensures Covered(s', x) {
      assert Covered(s, x);
    }
  }

  lemma DfsStable(c: Config, s: State, s': State, d: Dfs)
    requires Typed(c, s) && Typed(c, s') && Grows(s, s') && DfsInv(c, s, d)
    ensures DfsInv(c, s', d)
  {
  }

  /** What a worker relies on survives every growth of the shared data. */
  lemma WorkerStable(c: Config, s: State, s': State, p: WorkerPc)
    requires Typed(c, s) && Typed(c, s') && Grows(s, s') && WorkerInv(c, s, p)
    ensures WorkerInv(c, s', p)
  {
    match p
    case Test(d, i) => DfsStable(c, s, s', d); SweptStable(s, s', i);
    case InLine(d, i, k) => DfsStable(c, s, s', d); SweptStable(s, s', i);
    case Visit(d, i) => DfsStable(c, s, s', d); SweptStable(s, s', i);
    case Push(d, i) => DfsStable(c, s, s', d); SweptStable(s, s', i);
    case Pop(d) => DfsStable(c, s, s', d); SweptStable(s, s', c.V);
    case _ =>
  }

  // ------------------------------------------------------- steps of the BFS thread

  ghost predicate DataInv(c: Config, s: State) {
    Typed(c, s) && QueueInv(c, s) && MainInv(c, s) && WorkersInv(c, s)
  }

  /** Before a write there is room for one more vertex beside the root. */
  lemma RoomForOneMore(c: Config, s: State, i: int)
    requires Typed(c, s) && QueueInv(c, s) && Fresh(c, s, i)
    ensures s.q.length + 1 < c.V
  {
    var vertices := s.q.slots[..s.q.length] + [i];
    assert Distinct(vertices);
    DistinctBelow(vertices, c.V, {c.root});
  }

  lemma MainGrows(c: Config, s: State)
    requires Typed(c, s) && QueueInv(c, s) && MainInv(c, s)
    ensures Typed(c, MainStep(c, s)) && Grows(s, MainStep(c, s))
  {
  }

  lemma QueueFrame(c: Config, s: State, s': State)
    requires Typed(c, s) && Typed(c, s') && QueueInv(c, s)
    requires s'.q.slots == s.q.slots && s'.q.length == s.q.length && s'.q.counter <= s.q.length
    requires !s.main.Bump? && !s'.main.Bump?
    ensures QueueInv(c, s')
  {
  }

  lemma WriteKeepsQueue(c: Config, s: State)
    requires Typed(c, s) && QueueInv(c, s) && MainInv(c, s) && s.main.Write?
    ensures Typed(c, MainStep(c, s)) && QueueInv(c, MainStep(c, s)) && MainInv(c, MainStep(c, s))
  {
    var s' := MainStep(c, s);
    RoomForOneMore(c, s, s.main.i);
    assert s'.q.slots[..s'.q.length] == s.q.slots[..s.q.length];
  }

  lemma BumpKeepsQueue(c: Config, s: State)
    requires Typed(c, s) && QueueInv(c, s) && MainInv(c, s) && s.main.Bump?
    ensures Typed(c, MainStep(c, s)) && QueueInv(c, MainStep(c, s)) && MainInv(c, MainStep(c, s))
  {
    var s' := MainStep(c, s);
    assert s'.q.slots[..s'.q.length] == s.q.slots[..s.q.length] + [s.main.i];
  }

  /** A finished scan of the whole queue has proved the vertex fresh. */
  lemma LineKeepsMain(c: Config, s: State)
    requires Typed(c, s) && QueueInv(c, s) && MainInv(c, s) && s.main.Line?
    ensures Typed(c, MainStep(c, s)) && QueueInv(c, MainStep(c, s)) && MainInv(c, MainStep(c, s))
  {
    var i, k := s.main.i, s.main.k;
    QueueFrame(c, s, MainStep(c, s));
    if k == c.V || s.q.slots[k] == EMPTY {
      forall x | x in s.q.slots[..s.q.length] ensures x != i {
        var j :| 0 <= j < s.q.length && s.q.slots[j] == x;
        assert j < k;
      }
    }
  }

  lemma ProcessKeepsMain(c: Config, s: State)
    requires Typed(c, s) && QueueInv(c, s) && MainInv(c, s)
    requires s.main.Enter? || s.main.Mark? || s.main.Scan?
    ensures Typed(c, MainStep(c, s)) && QueueInv(c, MainStep(c, s)) && MainInv(c, MainStep(c, s))
  {
    QueueFrame(c, s, MainStep(c, s));
  }

  predicate Looking(m: MainPc) {
    m.Head? || m.HeadAt? || m.HeadFull? || m.Peek? || m.PeekAt? || m.PeekFull?
  }

  /** Between taking a vertex and starting to process it. */
  predicate Handing(m: MainPc) {
    m.Notify? || m.NotifyAt? || m.NotifyIf? || m.Cast?
  }

  lemma LookKeepsMain(c: Config, s: State)
    requires Typed(c, s) && QueueInv(c, s) && MainInv(c, s) && Looking(s.main)
    ensures Typed(c, MainStep(c, s)) && QueueInv(c, MainStep(c, s)) && MainInv(c, MainStep(c, s))
  {
    QueueFrame(c, s, MainStep(c, s));
  }

  lemma DequeueKeepsMain(c: Config, s: State)
    requires Typed(c, s) && QueueInv(c, s) && MainInv(c, s)
    requires s.main.Take? || Handing(s.main)
    ensures Typed(c, MainStep(c, s)) && QueueInv(c, MainStep(c, s)) && MainInv(c, MainStep(c, s))
  {
    QueueFrame(c, s, MainStep(c, s));
  }

  lemma FlagKeepsMain(c: Config, s: State)
    requires Typed(c, s) && QueueInv(c, s) && MainInv(c, s)
    requires s.main.SetFlag? || s.main.Spin? || s.main.Done?
    ensures Typed(c, MainStep(c, s)) && QueueInv(c, MainStep(c, s)) && MainInv(c, MainStep(c, s))
  {
    QueueFrame(c, s, MainStep(c, s));
  }

  lemma MainKeepsQueue(c: Config, s: State)
    requires Typed(c, s) && QueueInv(c, s) && MainInv(c, s)
    ensures Typed(c, MainStep(c, s)) && QueueInv(c, MainStep(c, s)) && MainInv(c, MainStep(c, s))
  {
    if s.main.Write? {
      WriteKeepsQueue(c, s);
    } else if s.main.Bump? {
      BumpKeepsQueue(c, s);
    } else if s.main.Line? {
      LineKeepsMain(c, s);
    } else if s.main.Enter? || s.main.Mark? || s.main.Scan? {
      ProcessKeepsMain(c, s);
    } else if s.main.SetFlag? || s.main.Spin? || s.main.Done? {
      FlagKeepsMain(c, s);
    } else if Looking(s.main) {
      LookKeepsMain(c, s);
    } else {
      DequeueKeepsMain(c, s);
    }
  }

  lemma MainKeepsData(c: Config, s: State)
    requires DataInv(c, s)
    ensures DataInv(c, MainStep(c, s)) && Grows(s, MainStep(c, s))
  {
    var s' := MainStep(c, s);
    MainGrows(c, s);
    MainKeepsQueue(c, s);
    forall w | 0 <= w < c.N ensures WorkerInv(c, s', s'.workers[w]) {
      WorkerStable(c, s, s', s.workers[w]);
    }
  }

  // --------------------------------------------------- steps of workers and others

  /** A step that leaves the queue, its length and the BFS thread alone. */
  ghost predicate Beside(s: State, s': State) {
    && s'.q.slots == s.q.slots && s'.q.length == s.q.length && s'.main == s.main
    && s'.mainFlag == s.mainFlag
    && s.q.counter <= s'.q.counter <= s.q.length
    && |s'.visited| == |s.visited|
    && (forall x :: 0 <= x < |s.visited| && s.visited[x] ==> s'.visited[x])
  }

  lemma BesideKeepsData(c: Config, s: State, s': State)
    requires DataInv(c, s) && Typed(c, s') && Beside(s, s')
    requires forall w :: 0 <= w < c.N && s'.workers[w] != s.workers[w] ==> WorkerInv(c, s', s'.workers[w])
    ensures DataInv(c, s') && Grows(s, s')
  {
    forall w | 0 <= w < c.N ensures WorkerInv(c, s', s'.workers[w]) {
      if s'.workers[w] == s.workers[w] { WorkerStable(c, s, s', s.workers[w]); }
    }
  }

  /** No step of a worker touches the program counter of another one. */
  lemma OthersStay(c: Config, s: State, w: nat)
    requires w < |s.workers|
    ensures |WorkerStep(c, s, w).workers| == |s.workers|
    ensures forall u :: 0 <= u < |s.workers| && u != w ==> WorkerStep(c, s, w).workers[u] == s.workers[u]
  {
    if InDfs(s.workers[w]) {
      DfsFrame(c, s, w);
    } else if InGet(s.workers[w]) {
      GetFrame(c, s, w);
    } else {
      ParkFrame(c, s, w);
    }
  }

  ghost predicate Only(w: nat, s: State, s': State) {
    w < |s.workers| == |s'.workers| && s'.workers == s.workers[w := s'.workers[w]]
  }

  lemma DfsFrame(c: Config, s: State, w: nat)
    requires w < |s.workers| && InDfs(s.workers[w])
    ensures Only(w, s, DfsStep(c, s, w))
  {
  }

  lemma GetFrame(c: Config, s: State, w: nat)
    requires w < |s.workers| && InGet(s.workers[w])
    ensures Only(w, s, GetStep(c, s, w))
  {
  }

  lemma ParkFrame(c: Config, s: State, w: nat)
    requires w < |s.workers| && InPark(s.workers[w])
    ensures Only(w, s, ParkStep(c, s, w))
  {
  }

  /** A worker's step leaves the BFS thread's data alone and its own claims true. */
  ghost predicate OwnKept(c: Config, s: State, w: nat)
    requires w < |s.workers|
  {
    var s' := WorkerStep(c, s, w);
    Typed(c, s') && w < c.N && Beside(s, s') && WorkerInv(c, s', s'.workers[w])
  }

  lemma GetKeepsOwn(c: Config, s: State, w: nat)
    requires Typed(c, s) && QueueInv(c, s) && w < c.N && WorkerInv(c, s, s.workers[w]) && InGet(s.workers[w])
    ensures OwnKept(c, s, w)
  {
  }

  lemma ParkKeepsOwn(c: Config, s: State, w: nat)
    requires Typed(c, s) && QueueInv(c, s) && w < c.N && WorkerInv(c, s, s.workers[w]) && InPark(s.workers[w])
    ensures OwnKept(c, s, w)
  {
  }

  /** Scanning the queue for the vertex it was started on, a worker finds it. */
  lemma OwnVertexFound(c: Config, s: State, d: Dfs, i: int, k: int)
    requires Typed(c, s) && QueueInv(c, s) && WorkerInv(c, s, InLine(d, i, k))
    ensures i == d.pushed[0] ==> k < c.V && s.q.slots[k] != EMPTY
  {
  }

  lemma PushKeepsDfs(c: Config, s: State, d: Dfs, i: int)
    requires Typed(c, s) && QueueInv(c, s) && WorkerInv(c, s, Push(d, i))
    ensures |d.stack| < c.V
    ensures WorkerInv(c, s, Test(d.(stack := d.stack + [i], pushed := d.pushed + [i]), i + 1))
  {
    DistinctBelow(d.pushed + [i], c.V, {});
  }

  lemma TestKeepsOwn(c: Config, s: State, w: nat)
    requires Typed(c, s) && QueueInv(c, s) && w < c.N && WorkerInv(c, s, s.workers[w]) && s.workers[w].Test?
    ensures OwnKept(c, s, w)
  {
    var d, i, s' := s.workers[w].d, s.workers[w].i, DfsStep(c, s, w);
    SweptStable(s, s', i);
    if i < c.V && s.visited[i] { SweptNext(s, s', i); }
  }

  lemma InLineKeepsOwn(c: Config, s: State, w: nat)
    requires Typed(c, s) && QueueInv(c, s) && w < c.N && WorkerInv(c, s, s.workers[w]) && s.workers[w].InLine?
    ensures OwnKept(c, s, w)
  {
    var d, i, k := s.workers[w].d, s.workers[w].i, s.workers[w].k;
    var s' := DfsStep(c, s, w);
    OwnVertexFound(c, s, d, i, k);
    assert d.pushed == [d.pushed[0]] + d.pushed[1..];
    SweptStable(s, s', i);
    if k < c.V && s.q.slots[k] == i { SweptNext(s, s', i); }
  }

  lemma VisitKeepsOwn(c: Config, s: State, w: nat)
    requires Typed(c, s) && QueueInv(c, s) && w < c.N && WorkerInv(c, s, s.workers[w]) && s.workers[w].Visit?
    ensures OwnKept(c, s, w)
  {
    WorkerStable(c, s, DfsStep(c, s, w), s.workers[w]);
  }

  lemma PushKeepsOwn(c: Config, s: State, w: nat)
    requires Typed(c, s) && QueueInv(c, s) && w < c.N && WorkerInv(c, s, s.workers[w]) && s.workers[w].Push?
    ensures OwnKept(c, s, w)
  {
    PushKeepsDfs(c, s, s.workers[w].d, s.workers[w].i);
    var s' := DfsStep(c, s, w);
    WorkerStable(c, s, s', s'.workers[w]);
  }

  lemma StartPopKeepOwn(c: Config, s: State, w: nat)
    requires Typed(c, s) && QueueInv(c, s) && w < c.N && WorkerInv(c, s, s.workers[w])
    requires s.workers[w].Start? || s.workers[w].Pop?
    ensures OwnKept(c, s, w)
  {
  }

  lemma WorkerKeepsOwn(c: Config, s: State, w: nat)
    requires Typed(c, s) && QueueInv(c, s) && w < c.N && WorkerInv(c, s, s.workers[w])
    ensures OwnKept(c, s, w)
  {
    var p := s.workers[w];
    if InGet(p) {
      GetKeepsOwn(c, s, w);
    } else if InPark(p) {
      ParkKeepsOwn(c, s, w);
    } else if p.Test? {
      TestKeepsOwn(c, s, w);
    } else if p.InLine? {
      InLineKeepsOwn(c, s, w);
    } else if p.Visit? {
      VisitKeepsOwn(c, s, w);
    } else if p.Push? {
      PushKeepsOwn(c, s, w);
    } else {
      StartPopKeepOwn(c, s, w);
    }
  }

  lemma WorkerKeepsData(c: Config, s: State, w: nat)
    requires DataInv(c, s) && w < c.N
    ensures DataInv(c, WorkerStep(c, s, w)) && Grows(s, WorkerStep(c, s, w))
  {
    OthersStay(c, s, w);
    WorkerKeepsOwn(c, s, w);
    BesideKeepsData(c, s, WorkerStep(c, s, w));
  }

  /** Every step keeps the queue, the BFS thread and every worker consistent, and only
      adds to the shared data. */
  lemma StepKeepsData(c: Config, s: State, step: Step)
    requires DataInv(c, s) && Enabled(c, s, step)
    ensures DataInv(c, Apply(c, s, step)) && Grows(s, Apply(c, s, step))
  {
    match step
    case MainRun => MainKeepsData(c, s);
    case WorkerRun(w) => WorkerKeepsData(c, s, w);
    case Spurious(w) => BesideKeepsData(c, s, Apply(c, s, step));
    case Report(v) => BesideKeepsData(c, s, Apply(c, s, step));
  }
}
