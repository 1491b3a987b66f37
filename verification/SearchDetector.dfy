/** The parking protocol: who holds `mtx`, what the thread counter counts, when `subThread`
    is set, and what the search has covered. */
module SearchDetector {
  import opened SearchProtocol
  import opened SearchInvariant
  import opened Sequences

  // ----------------------------------------------------------- lock, counter and flag

  predicate Holds(p: WorkerPc) {
    InGet(p) || p.Down? || p.Judge? || p.Sleep? || p.Clear? || p.Up? || p.Unlock?
  }

  /** Between the decrement and the increment of the thread counter. */
  predicate Out(p: WorkerPc) {
    (InGet(p) && p.r) || p.Judge? || p.Sleep? || p.Waiting? || p.Woken? || p.Clear? || p.Up?
  }

  predicate Parked(p: WorkerPc) {
    p.Waiting? || p.Woken?
  }

  function One(b: bool): nat {
    if b then 1 else 0
  }

  function CountOut(ps: seq<WorkerPc>): nat {
    if ps == [] then 0 else CountOut(Front(ps)) + One(Out(Last(ps)))
  }

  lemma {:induction false} CountUpdate(ps: seq<WorkerPc>, w: nat, p: WorkerPc)
    requires w < |ps|
    ensures CountOut(ps[w := p]) + One(Out(ps[w])) == CountOut(ps) + One(Out(p))
  {
    var qs := ps[w := p];
    if w == |ps| - 1 {
      assert Front(qs) == Front(ps);
    } else {
      CountUpdate(Front(ps), w, p);
      assert Front(qs) == Front(ps)[w := p];
    }
  }

  lemma {:induction false} CountSame(ps: seq<WorkerPc>, qs: seq<WorkerPc>)
    requires |ps| == |qs| && forall w :: 0 <= w < |ps| ==> Out(ps[w]) == Out(qs[w])
    ensures CountOut(ps) == CountOut(qs)
  {
    if ps != [] { CountSame(Front(ps), Front(qs)); }
  }

  /** Everybody is out exactly when the count says so. */
  lemma {:induction false} CountAll(ps: seq<WorkerPc>)
    ensures CountOut(ps) <= |ps|
    ensures CountOut(ps) == |ps| <==> forall w :: 0 <= w < |ps| ==> Out(ps[w])
  {
    if ps != [] {
      CountAll(Front(ps));
      if forall w :: 0 <= w < |ps| ==> Out(ps[w]) {
        assert forall w :: 0 <= w < |Front(ps)| ==> Out(Front(ps)[w]);
      }
      if CountOut(ps) == |ps| {
        forall w | 0 <= w < |ps| ensures Out(ps[w]) {
          if w < |ps| - 1 { assert Front(ps)[w] == ps[w]; }
        }
      }
    }
  }

  ghost predicate LockInv(c: Config, s: State) {
    && |s.workers| == c.N
    && (s.park.mtx == FREE || 0 <= s.park.mtx < c.N)
    && (forall w :: 0 <= w < c.N ==> (Holds(s.workers[w]) <==> s.park.mtx == w))
  }

  ghost predicate Unsettled(s: State) {
    0 <= s.park.mtx < |s.workers| && (s.workers[s.park.mtx].Judge? || s.workers[s.park.mtx].Up?)
  }

  ghost predicate FlagInv(c: Config, s: State) {
    && s.park.threads == c.N - CountOut(s.workers)
    && (if Unsettled(s) then !s.park.subFlag else s.park.subFlag == (s.park.threads == 0))
  }

  ghost predicate SyncInv(c: Config, s: State) {
    c.N >= 1 && LockInv(c, s) && FlagInv(c, s)
  }

  /** A broadcast or a spurious wakeup moves waiters only. */
  lemma WakeKeepsSync(c: Config, s: State, s': State)
    requires SyncInv(c, s)
    requires |s'.workers| == |s.workers|
    requires forall w :: 0 <= w < c.N ==> s'.workers[w] == s.workers[w] || s'.workers[w] == WakeOne(s.workers[w])
    requires s'.park == s.park
    ensures SyncInv(c, s')
  {
    CountSame(s.workers, s'.workers);
  }

  lemma MainKeepsSync(c: Config, s: State)
    requires SyncInv(c, s)
    ensures SyncInv(c, MainStep(c, s))
  {
    MainFrameSync(c, s);
    WakeKeepsSync(c, s, MainStep(c, s));
  }

  lemma MainFrameSync(c: Config, s: State)
    ensures var s' := MainStep(c, s);
            && (s'.workers == s.workers || s'.workers == WakeAll(s.workers))
            && s'.park == s.park && s'.hist == s.hist
  {
    if InProcess(s.main) { ProcessFrameSync(c, s); } else { TurnFrameSync(c, s); }
  }

  lemma ProcessFrameSync(c: Config, s: State)
    requires InProcess(s.main)
    ensures var s' := ProcessStep(c, s);
            s'.workers == s.workers && s'.park == s.park && s'.hist == s.hist
  {
  }

  lemma TurnFrameSync(c: Config, s: State)
    requires !InProcess(s.main)
    ensures var s' := TurnStep(c, s);
            && (s'.workers == s.workers || s'.workers == WakeAll(s.workers))
            && s'.park == s.park && s'.hist == s.hist
  {
  }

  /** A step of worker `w` that neither takes nor drops the lock nor is counted. */
  lemma SameRole(c: Config, s: State, s': State, w: nat)
    requires SyncInv(c, s) && Only(w, s, s') && s'.park == s.park
    requires Holds(s'.workers[w]) == Holds(s.workers[w]) && Out(s'.workers[w]) == Out(s.workers[w])
    requires !s.workers[w].Judge? && !s.workers[w].Up? && !s'.workers[w].Judge? && !s'.workers[w].Up?
    ensures SyncInv(c, s')
  {
    CountUpdate(s.workers, w, s'.workers[w]);
  }

  lemma GetKeepsSync(c: Config, s: State, w: nat)
    requires SyncInv(c, s) && w < c.N && InGet(s.workers[w])
    requires Typed(c, s) && QueueInv(c, s) && WorkerInv(c, s, s.workers[w])
    ensures SyncInv(c, GetStep(c, s, w))
  {
    GetFrame(c, s, w);
    SameRole(c, s, GetStep(c, s, w), w);
  }

  lemma DfsStays(c: Config, s: State, w: nat)
    requires w < |s.workers| && InDfs(s.workers[w])
    ensures DfsStep(c, s, w).park == s.park
    ensures w < |DfsStep(c, s, w).workers|
    ensures InDfs(DfsStep(c, s, w).workers[w]) || DfsStep(c, s, w).workers[w].Idle?
  {
  }

  lemma DfsKeepsSync(c: Config, s: State, w: nat)
    requires SyncInv(c, s) && w < c.N && InDfs(s.workers[w])
    ensures SyncInv(c, DfsStep(c, s, w))
  {
    DfsFrame(c, s, w);
    DfsStays(c, s, w);
    SameRole(c, s, DfsStep(c, s, w), w);
  }

  lemma ParkKeepsLock(c: Config, s: State, w: nat)
    requires LockInv(c, s) && w < c.N && InPark(s.workers[w])
    requires Enabled(c, s, WorkerRun(w))
    ensures LockInv(c, ParkStep(c, s, w))
  {
    ParkFrame(c, s, w);
  }

  lemma LeaveKeepsFlag(c: Config, s: State, w: nat)
    requires SyncInv(c, s) && w < c.N
    requires s.workers[w].Clear? || s.workers[w].Up? || s.workers[w].Unlock?
    ensures FlagInv(c, ParkStep(c, s, w))
  {
    var s' := ParkStep(c, s, w);
    ParkFrame(c, s, w);
    CountUpdate(s.workers, w, s'.workers[w]);
    CountAll(s.workers);
    CountAll(s'.workers);
  }

  lemma EnterKeepsFlag(c: Config, s: State, w: nat)
    requires SyncInv(c, s) && w < c.N && InPark(s.workers[w]) && Enabled(c, s, WorkerRun(w))
    requires !s.workers[w].Clear? && !s.workers[w].Up? && !s.workers[w].Unlock?
    ensures FlagInv(c, ParkStep(c, s, w))
  {
    var s' := ParkStep(c, s, w);
    ParkFrame(c, s, w);
    CountUpdate(s.workers, w, s'.workers[w]);
    CountAll(s'.workers);
  }

  lemma ParkKeepsFlag(c: Config, s: State, w: nat)
    requires SyncInv(c, s) && w < c.N && InPark(s.workers[w])
    requires Enabled(c, s, WorkerRun(w))
    ensures FlagInv(c, ParkStep(c, s, w))
  {
    if s.workers[w].Clear? || s.workers[w].Up? || s.workers[w].Unlock? {
      LeaveKeepsFlag(c, s, w);
    } else {
      EnterKeepsFlag(c, s, w);
    }
  }

  lemma StepKeepsSync(c: Config, s: State, step: Step)
    requires SyncInv(c, s) && DataInv(c, s) && Enabled(c, s, step)
    ensures SyncInv(c, Apply(c, s, step))
  {
    match step
    case MainRun => MainKeepsSync(c, s);
    case WorkerRun(w) =>
      if InDfs(s.workers[w]) {
        DfsKeepsSync(c, s, w);
      } else if InGet(s.workers[w]) {
        GetKeepsSync(c, s, w);
      } else {
        ParkKeepsLock(c, s, w);
        ParkKeepsFlag(c, s, w);
      }
    case Spurious(w) => WakeKeepsSync(c, s, Apply(c, s, step));
    case Report(v) =>
  }

  // ------------------------------------------------------------------------ coverage

  /** Holding a vertex taken from the queue, before or during my_DFS. */
  predicate HasWork(p: WorkerPc) {
    p.Clear? || p.Up? || p.Unlock? || InDfs(p)
  }

  ghost predicate Busy(s: State) {
    exists w :: 0 <= w < |s.workers| && HasWork(s.workers[w])
  }

  /** Work given to workers is in their hands until a search has covered everything. */
  ghost predicate WorkInv(c: Config, s: State) {
    && (s.hist.given == 0 ==> !Busy(s))
    && (s.hist.given > 0 ==> s.hist.searched || Busy(s))
    && (s.hist.searched ==> Swept(s, c.V))
  }

  lemma WorkerKeepsWork(c: Config, s: State, w: nat)
    requires DataInv(c, s) && WorkInv(c, s) && w < c.N
    ensures WorkInv(c, WorkerStep(c, s, w))
  {
    var s' := WorkerStep(c, s, w);
    WorkerKeepsData(c, s, w);
    OthersStay(c, s, w);
    WorkerGives(c, s, w);
    assert WorkerInv(c, s, s.workers[w]);
    if s.hist.searched { SweptStable(s, s', c.V); }
    if s.workers[w].Pop? { SweptStable(s, s', c.V); }
    if HasWork(s'.workers[w]) {
      assert Busy(s');
    } else if Busy(s) && s'.hist.given > 0 {
      var u :| 0 <= u < |s.workers| && HasWork(s.workers[u]);
      if u != w { assert HasWork(s'.workers[u]); }
    }
  }

  /** Only a successful fetch gives work, only a returning my_DFS drops it. */
  lemma WorkerGives(c: Config, s: State, w: nat)
    requires DataInv(c, s) && w < c.N
    ensures var s', p := WorkerStep(c, s, w), s.workers[w];
            && w < |s'.workers|
            && (s'.hist.given == s.hist.given || (s'.hist.given == s.hist.given + 1 && HasWork(s'.workers[w])))
            && (HasWork(s'.workers[w]) ==> HasWork(p) || s'.hist.given == s.hist.given + 1)
            && (HasWork(p) ==> HasWork(s'.workers[w]) || (p.Pop? && s'.hist.searched))
            && (s'.hist.searched == s.hist.searched || p.Pop?)
  {
    assert WorkerInv(c, s, s.workers[w]);
    if InDfs(s.workers[w]) {
      DfsGives(c, s, w);
    } else if InGet(s.workers[w]) {
      GetGives(c, s, w);
    } else {
      ParkGives(c, s, w);
    }
  }

  lemma GetGives(c: Config, s: State, w: nat)
    requires Typed(c, s) && QueueInv(c, s) && w < c.N && WorkerInv(c, s, s.workers[w]) && InGet(s.workers[w])
    ensures var s' := GetStep(c, s, w);
            && w < |s'.workers|
            && (HasWork(s'.workers[w]) <==> s'.hist.given == s.hist.given + 1)
            && (s'.hist.given == s.hist.given || s'.hist.given == s.hist.given + 1)
            && s'.hist.searched == s.hist.searched
  {
  }

  lemma ParkGives(c: Config, s: State, w: nat)
    requires w < |s.workers| && InPark(s.workers[w])
    ensures var s' := ParkStep(c, s, w);
            && w < |s'.workers|
            && (HasWork(s'.workers[w]) <==> HasWork(s.workers[w]))
            && s'.hist.given == s.hist.given && s'.hist.searched == s.hist.searched
  {
  }

  lemma DfsGives(c: Config, s: State, w: nat)
    requires Typed(c, s) && QueueInv(c, s) && w < c.N && WorkerInv(c, s, s.workers[w]) && InDfs(s.workers[w])
    ensures var s' := DfsStep(c, s, w);
            && w < |s'.workers| && s'.hist.given == s.hist.given
            && (HasWork(s'.workers[w]) || (s.workers[w].Pop? && s'.hist.searched))
            && (s'.hist.searched == s.hist.searched || s.workers[w].Pop?)
  {
  }

  lemma StepKeepsWork(c: Config, s: State, step: Step)
    requires DataInv(c, s) && WorkInv(c, s) && Enabled(c, s, step)
    ensures WorkInv(c, Apply(c, s, step))
  {
    var s' := Apply(c, s, step);
    StepKeepsData(c, s, step);
    match step
    case WorkerRun(w) => WorkerKeepsWork(c, s, w);
    case _ =>
      if step.MainRun? { MainFrameSync(c, s); }
      if s.hist.searched { SweptStable(s, s', c.V); }
      assert forall w :: 0 <= w < c.N ==> HasWork(s'.workers[w]) == HasWork(s.workers[w]);
      if Busy(s) {
        var u :| 0 <= u < |s.workers| && HasWork(s.workers[u]);
        assert HasWork(s'.workers[u]);
      }
  }

  // --------------------------------------------------- the BFS thread on its own

  predicate Scanning(m: MainPc) {
    m.Scan? || m.Line? || m.Write? || m.Bump?
  }

  predicate Scans(m: MainPc, u: int) {
    Scanning(m) && m.id == u
  }

  predicate InHand(m: MainPc, v: int) {
    (Handing(m) && m.v == v) || m == Enter(v) || m == Mark(v)
  }

  /** While nobody else has taken work or marked vertices: neighbours of visited vertices
      are covered, up to the scan in progress, and dequeued vertices are visited or about
      to be. */
  ghost predicate SoloInv(c: Config, s: State)
    requires Typed(c, s)
  {
    !c.env && s.hist.given == 0 ==>
      && (forall u, x ::
            Vertex(c, u) && Vertex(c, x) && s.visited[u] && (u, x) in c.adj && !Scans(s.main, u) ==> Covered(s, x))
      && (Scanning(s.main) ==>
            forall x :: 0 <= x < s.main.i && (s.main.id, x) in c.adj ==> Covered(s, x))
      && (forall k :: 0 <= k < s.q.counter && k < c.V ==>
            Vertex(c, s.q.slots[k]) && (s.visited[s.q.slots[k]] || InHand(s.main, s.q.slots[k])))
  }

  /** A step that moves neither the marks nor the queue forward keeps the claim. */
  lemma SoloFrame(c: Config, s: State, s': State)
    requires Typed(c, s) && Typed(c, s') && SoloInv(c, s)
    requires s'.q.slots == s.q.slots && s'.visited == s.visited && s'.main == s.main
    requires s'.hist.given > 0 || (s'.hist.given == s.hist.given && s'.q.counter == s.q.counter)
    ensures SoloInv(c, s')
  {
    if !c.env && s'.hist.given == 0 {
      forall x | Covered(s, x) ensures Covered(s', x) { }
    }
  }

  lemma WorkerKeepsSolo(c: Config, s: State, w: nat)
    requires DataInv(c, s) && WorkInv(c, s) && SoloInv(c, s) && w < c.N
    ensures Typed(c, WorkerStep(c, s, w)) && SoloInv(c, WorkerStep(c, s, w))
  {
    var s' := WorkerStep(c, s, w);
    WorkerKeepsData(c, s, w);
    WorkerGives(c, s, w);
    if s'.hist.given == 0 {
      assert !HasWork(s.workers[w]);
      ParkingMarksNothing(c, s, w);
      SoloFrame(c, s, s');
    }
  }

  lemma ParkingMarksNothing(c: Config, s: State, w: nat)
    requires w < |s.workers| && !InDfs(s.workers[w])
    ensures var s' := WorkerStep(c, s, w);
            && s'.visited == s.visited && s'.q.slots == s.q.slots && s'.main == s.main
            && (s'.hist.given == s.hist.given ==> s'.q.counter == s.q.counter)
  {
  }

  lemma ScanMarksNothing(c: Config, s: State)
    requires Scanning(s.main)
    ensures var s' := ProcessStep(c, s);
            && s'.hist == s.hist && s'.visited == s.visited && s'.q.counter == s.q.counter
            && (s'.main.Head? || Scans(s'.main, s.main.id))
  {
  }

  /** All claims of SoloInv about the vertex being scanned, pushed one vertex further. */
  lemma ScanKeepsSolo(c: Config, s: State)
    requires DataInv(c, s) && SoloInv(c, s) && !c.env && s.hist.given == 0
    requires s.main.Scan?
    ensures Typed(c, MainStep(c, s)) && SoloInv(c, MainStep(c, s))
  {
    var s', i := MainStep(c, s), s.main.i;
    MainKeepsData(c, s);
    ScanMarksNothing(c, s);
    forall x | Covered(s, x) && x != EMPTY ensures Covered(s', x) { CoveredStable(s, s', x); }
    if i < c.V && s.visited[i] { assert Covered(s, i); }
  }

  lemma LineKeepsSolo(c: Config, s: State)
    requires DataInv(c, s) && SoloInv(c, s) && !c.env && s.hist.given == 0
    requires s.main.Line?
    ensures Typed(c, MainStep(c, s)) && SoloInv(c, MainStep(c, s))
  {
    var s', i, k := MainStep(c, s), s.main.i, s.main.k;
    MainKeepsData(c, s);
    ScanMarksNothing(c, s);
    forall x | Covered(s, x) && x != EMPTY ensures Covered(s', x) { CoveredStable(s, s', x); }
    if k < c.V && s.q.slots[k] == i { assert Covered(s, i); }
  }

  lemma WriteKeepsSolo(c: Config, s: State)
    requires DataInv(c, s) && SoloInv(c, s) && !c.env && s.hist.given == 0
    requires s.main.Write? || s.main.Bump?
    ensures Typed(c, MainStep(c, s)) && SoloInv(c, MainStep(c, s))
  {
    var s' := MainStep(c, s);
    MainKeepsData(c, s);
    ScanMarksNothing(c, s);
    forall x | Covered(s, x) && x != EMPTY ensures Covered(s', x) { CoveredStable(s, s', x); }
    if s.main.Bump? {
      assert s.q.slots[s.q.length] == s.main.i;
      assert Covered(s, s.main.i);
    }
  }

  lemma EnterKeepsSolo(c: Config, s: State)
    requires DataInv(c, s) && SoloInv(c, s) && !c.env && s.hist.given == 0
    requires s.main.Enter? || s.main.Mark?
    ensures Typed(c, MainStep(c, s)) && SoloInv(c, MainStep(c, s))
  {
    var s' := MainStep(c, s);
    MainKeepsData(c, s);
    assert s'.q.slots == s.q.slots && s'.hist.given == s.hist.given;
    forall x | Covered(s, x) && x != EMPTY ensures Covered(s', x) { CoveredStable(s, s', x); }
  }

  lemma TurnMarksNothing(c: Config, s: State)
    requires DataInv(c, s) && !InProcess(s.main)
    ensures var s' := TurnStep(c, s);
            && s'.q.slots == s.q.slots && s'.visited == s.visited && s'.hist == s.hist
            && !Scanning(s'.main)
            && (s'.q.counter == s.q.counter
                || (s'.q.counter == s.q.counter + 1 && s'.main == Notify(s.q.slots[s.q.counter])))
            && (Handing(s.main) ==> InHand(s'.main, s.main.v))
  {
  }

  lemma TurnKeepsSolo(c: Config, s: State)
    requires DataInv(c, s) && SoloInv(c, s) && !c.env && s.hist.given == 0
    requires !InProcess(s.main)
    ensures Typed(c, MainStep(c, s)) && SoloInv(c, MainStep(c, s))
  {
    var s' := TurnStep(c, s);
    MainKeepsData(c, s);
    TurnMarksNothing(c, s);
    forall x | Covered(s, x) ensures Covered(s', x) { }
  }

  lemma StepKeepsSolo(c: Config, s: State, step: Step)
    requires DataInv(c, s) && WorkInv(c, s) && SoloInv(c, s) && Enabled(c, s, step)
    ensures Typed(c, Apply(c, s, step)) && SoloInv(c, Apply(c, s, step))
  {
    StepKeepsData(c, s, step);
    match step
    case MainRun =>
      MainFrameSync(c, s);
      if !c.env && s.hist.given == 0 {
        if s.main.Scan? {
          ScanKeepsSolo(c, s);
        } else if s.main.Line? {
          LineKeepsSolo(c, s);
        } else if Scanning(s.main) {
          WriteKeepsSolo(c, s);
        } else if InProcess(s.main) {
          EnterKeepsSolo(c, s);
        } else {
          TurnKeepsSolo(c, s);
        }
      }
    case WorkerRun(w) => WorkerKeepsSolo(c, s, w);
    case Spurious(w) => SoloFrame(c, s, Apply(c, s, step));
    case Report(v) =>
  }

  // ------------------------------------------------------------ all of it, always

  ghost predicate Inv(c: Config, s: State) {
    DataInv(c, s) && SyncInv(c, s) && WorkInv(c, s) && SoloInv(c, s)
  }

  lemma InitInv(c: Config)
    requires ValidConfig(c)
    ensures Inv(c, Init(c))
  {
    CountAll(Init(c).workers);
    CountNone(Init(c).workers);
  }

  lemma {:induction false} CountNone(ps: seq<WorkerPc>)
    requires forall w :: 0 <= w < |ps| ==> !Out(ps[w])
    ensures CountOut(ps) == 0
  {
    if ps != [] { CountNone(Front(ps)); }
  }

  lemma StepKeepsInv(c: Config, s: State, step: Step)
    requires Inv(c, s) && Enabled(c, s, step)
    ensures Inv(c, Apply(c, s, step))
  {
    StepKeepsData(c, s, step);
    StepKeepsSync(c, s, step);
    StepKeepsWork(c, s, step);
    StepKeepsSolo(c, s, step);
  }

  /** Every reachable state satisfies the invariant. */
  lemma {:induction false} InvHolds(c: Config, steps: seq<Step>)
    requires ValidConfig(c) && Legal(c, steps)
    ensures Inv(c, After(c, steps))
  {
    if steps == [] {
      InitInv(c);
    } else {
      InvHolds(c, Front(steps));
      StepKeepsInv(c, After(c, Front(steps)), Last(steps));
    }
  }
}
