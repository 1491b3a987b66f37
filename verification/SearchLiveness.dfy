/** The search as a whole comes to an end: every run makes a bounded number of steps, and it
    cannot get stuck before both flags are set. */
module SearchLiveness {
  import opened Counting
  import opened SearchProtocol
  import opened SearchInvariant
  import opened SearchDetector
  import opened SearchTheorems
  import opened Sequences

  /** A step of a worker, or of the BFS thread before it waits for the workers. */
  predicate Productive(s: State, step: Step) {
    step.WorkerRun? || (step.MainRun? && !s.main.Spin?)
  }

  // -------------------------------------------------------------- the BFS thread's loop

  /** Steps of one turn of the outer loop. */
  function TurnSteps(V: nat): nat {
    SweepSteps(V, 0) + 16
  }

  /** Steps left in the current turn. */
  function MainInner(V: nat, m: MainPc): int {
    match m
    case Notify(_) => SweepSteps(V, 0) + 15
    case NotifyAt(_, _) => SweepSteps(V, 0) + 14
    case NotifyIf(_) => SweepSteps(V, 0) + 13
    case Cast(_) => SweepSteps(V, 0) + 12
    case Enter(_) => SweepSteps(V, 0) + 11
    case Mark(_) => SweepSteps(V, 0) + 10
    case Scan(_, i) => SweepSteps(V, i) + 9
    case Line(_, i, k) => SweepSteps(V, i) + 8 - k
    case Write(_, i) => SweepSteps(V, i) + 7 - V
    case Bump(_, i) => SweepSteps(V, i) + 6 - V
    case Head => 8
    case HeadAt(_) => 7
    case HeadFull => 6
    case Peek => 5
    case PeekAt(_) => 4
    case PeekFull => 3
    case Take => 2
    case SetFlag => 1
    case Spin => 0
    case Done => 0
  }

  /** Every turn but the last takes a slot from the queue. */
  function MainRank(c: Config, s: State): int {
    (c.V - s.q.counter) * TurnSteps(c.V) + MainInner(c.V, s.main)
  }

  lemma MainInnerBound(c: Config, s: State)
    requires Typed(c, s) && QueueInv(c, s) && MainInv(c, s)
    ensures 0 <= MainInner(c.V, s.main) < TurnSteps(c.V)
  {
    if Scanning(s.main) { SweepMono(c.V, s.main.i); }
  }

  lemma ProcessInnerFalls(c: Config, s: State)
    requires Typed(c, s) && QueueInv(c, s) && MainInv(c, s) && InProcess(s.main)
    ensures var s' := ProcessStep(c, s);
            s'.q.counter == s.q.counter && MainInner(c.V, s'.main) < MainInner(c.V, s.main)
  {
  }

  lemma TurnInnerFalls(c: Config, s: State)
    requires Typed(c, s) && QueueInv(c, s) && MainInv(c, s) && !InProcess(s.main) && !s.mainFlag
    ensures var s' := TurnStep(c, s);
            || (s'.q.counter == s.q.counter && MainInner(c.V, s'.main) < MainInner(c.V, s.main))
            || (s'.q.counter == s.q.counter + 1)
  {
  }

  /** Each step of the BFS thread brings the end of its loop nearer. */
  lemma MainRankFalls(c: Config, s: State)
    requires DataInv(c, s) && !s.mainFlag
    ensures MainRank(c, MainStep(c, s)) < MainRank(c, s)
  {
    var s' := MainStep(c, s);
    if InProcess(s.main) { ProcessInnerFalls(c, s); } else { TurnInnerFalls(c, s); }
    MainKeepsData(c, s);
    MainInnerBound(c, s);
    MainInnerBound(c, s');
    if s'.q.counter == s.q.counter + 1 {
      Lexicographic(c.V - s.q.counter, MainInner(c.V, s.main), c.V - s'.q.counter, MainInner(c.V, s'.main),
                    TurnSteps(c.V));
    }
  }

  lemma MainRankBound(c: Config, s: State)
    requires DataInv(c, s)
    ensures MainRank(c, s) >= 0
  {
    MainInnerBound(c, s);
    MulLe(0, c.V - s.q.counter, TurnSteps(c.V));
  }

  // ----------------------------------------------------------------------- the workers

  /** An upper bound on the steps of one my_DFS call. */
  function DfsSteps(V: nat): nat {
    (2 * V + 1) * (V * (V + 4) + 2)
  }

  /** Steps a worker can make before it parks without getting work. */
  function WorkerRank(V: nat, p: WorkerPc): int {
    if InDfs(p) then 11 + Rank(V, p)
    else match p
      case Waiting => 0
      case Sleep => 1
      case Judge => 2
      case Down => 3
      case Fetch(_) => 4
      case Full(_) => 5
      case PeekSlot(_, _) => 6
      case Load(_) => 7
      case GapAt(_, _) => 8
      case Gap(_) => 9
      case Unlock(_, _) => 12 + DfsSteps(V)
      case Up(_, _) => 13 + DfsSteps(V)
      case Clear(_, _) => 14 + DfsSteps(V)
      case _ => 10
  }

  lemma WorkerRankBound(c: Config, s: State, w: nat)
    requires DataInv(c, s) && w < c.N
    ensures 0 <= WorkerRank(c.V, s.workers[w]) <= 14 + DfsSteps(c.V)
  {
    if InDfs(s.workers[w]) { RankBound(c, s, w); }
  }

  lemma DfsRankFalls(c: Config, s: State, w: nat)
    requires DataInv(c, s) && w < c.N && InDfs(s.workers[w])
    ensures var s' := DfsStep(c, s, w);
            w < |s'.workers| && WorkerRank(c.V, s'.workers[w]) < WorkerRank(c.V, s.workers[w])
  {
    RankFalls(c, s, w);
    DfsStays(c, s, w);
    RankBound(c, s, w);
  }

  lemma UnlockRankFalls(c: Config, s: State, w: nat)
    requires DataInv(c, s) && w < c.N && s.workers[w].Unlock?
    ensures var s' := ParkStep(c, s, w);
            w < |s'.workers| && WorkerRank(c.V, s'.workers[w]) < WorkerRank(c.V, s.workers[w])
  {
    WorkerKeepsData(c, s, w);
    RankBound(c, ParkStep(c, s, w), w);
  }

  lemma ParkRankFalls(c: Config, s: State, w: nat)
    requires w < |s.workers| && InPark(s.workers[w]) && !s.workers[w].Waiting? && !s.workers[w].Unlock?
    ensures var s' := ParkStep(c, s, w);
            w < |s'.workers| && WorkerRank(c.V, s'.workers[w]) < WorkerRank(c.V, s.workers[w])
  {
  }

  /** Looking for work uses up a step; finding it uses up a slot of the queue. */
  lemma GetRankFalls(c: Config, s: State, w: nat)
    requires DataInv(c, s) && w < c.N && InGet(s.workers[w])
    ensures var s' := GetStep(c, s, w);
            && w < |s'.workers|
            && (|| (s'.q.counter == s.q.counter && WorkerRank(c.V, s'.workers[w]) < WorkerRank(c.V, s.workers[w]))
                || (s'.q.counter == s.q.counter + 1 && WorkerRank(c.V, s'.workers[w]) <= 14 + DfsSteps(c.V)))
  {
    assert WorkerInv(c, s, s.workers[w]);
  }

  function TotalRank(V: nat, ps: seq<WorkerPc>): int {
    if ps == [] then 0 else TotalRank(V, Front(ps)) + WorkerRank(V, Last(ps))
  }

  lemma {:induction false} TotalUpdate(V: nat, ps: seq<WorkerPc>, w: nat, p: WorkerPc)
    requires w < |ps|
    ensures TotalRank(V, ps[w := p]) == TotalRank(V, ps) - WorkerRank(V, ps[w]) + WorkerRank(V, p)
  {
    var qs := ps[w := p];
    if w == |ps| - 1 {
      assert Front(qs) == Front(ps);
    } else {
      TotalUpdate(V, Front(ps), w, p);
      assert Front(qs) == Front(ps)[w := p];
    }
  }

  lemma {:induction false} TotalWake(V: nat, ps: seq<WorkerPc>)
    ensures TotalRank(V, WakeAll(ps)) <= TotalRank(V, ps) + 10 * |ps|
  {
    if ps != [] {
      TotalWake(V, Front(ps));
      assert Front(WakeAll(ps)) == WakeAll(Front(ps));
    }
  }

  lemma {:induction false} TotalNonNegative(V: nat, ps: seq<WorkerPc>)
    requires forall w :: 0 <= w < |ps| ==> WorkerRank(V, ps[w]) >= 0
    ensures TotalRank(V, ps) >= 0
  {
    if ps != [] { TotalNonNegative(V, Front(ps)); }
  }

  lemma {:induction false} TotalIdle(V: nat, ps: seq<WorkerPc>)
    requires forall w :: 0 <= w < |ps| ==> ps[w].Idle?
    ensures TotalRank(V, ps) == 10 * |ps|
  {
    if ps != [] { TotalIdle(V, Front(ps)); }
  }

  // ------------------------------------------------------------------- the whole search

  /** What one step of the BFS thread, or one slot of the queue, can cost the workers. */
  function Weight(c: Config): nat {
    10 * c.N + DfsSteps(c.V) + 15
  }

  function Potential(c: Config, s: State): int {
    MainRank(c, s) * Weight(c) + TotalRank(c.V, s.workers)
  }

  lemma WeightedFall(a: int, b: int, n: nat)
    requires a < b
    ensures a * n + n <= b * n
  {
    MultiplesApart(n, a, b);
  }

  lemma MainPays(c: Config, s: State)
    requires DataInv(c, s) && !s.mainFlag
    ensures Potential(c, MainStep(c, s)) < Potential(c, s)
  {
    var s' := MainStep(c, s);
    MainRankFalls(c, s);
    MainFrameSync(c, s);
    TotalWake(c.V, s.workers);
    WeightedFall(MainRank(c, s'), MainRank(c, s), Weight(c));
  }

  lemma SlotPays(c: Config, s: State, s': State)
    requires s'.main == s.main && s'.q.counter == s.q.counter + 1
    ensures MainRank(c, s') < MainRank(c, s)
  {
    var n := TurnSteps(c.V);
    assert (c.V - s.q.counter) * n == (c.V - s'.q.counter) * n + n;
  }

  lemma WorkerPays(c: Config, s: State, w: nat)
    requires DataInv(c, s) && w < c.N && !s.workers[w].Waiting?
    ensures Potential(c, WorkerStep(c, s, w)) < Potential(c, s)
  {
    var s' := WorkerStep(c, s, w);
    WorkerMoves(c, s, w);
    TotalUpdate(c.V, s.workers, w, s'.workers[w]);
    WorkerRankBound(c, s, w);
    if s'.q.counter == s.q.counter + 1 {
      SlotPays(c, s, s');
      WeightedFall(MainRank(c, s'), MainRank(c, s), Weight(c));
    }
  }

  lemma WorkerMoves(c: Config, s: State, w: nat)
    requires DataInv(c, s) && w < c.N && !s.workers[w].Waiting?
    ensures var s' := WorkerStep(c, s, w);
            && Only(w, s, s') && s'.main == s.main
            && (|| (s'.q.counter == s.q.counter && WorkerRank(c.V, s'.workers[w]) < WorkerRank(c.V, s.workers[w]))
                || (s'.q.counter == s.q.counter + 1 && WorkerRank(c.V, s'.workers[w]) <= 14 + DfsSteps(c.V)))
  {
    assert WorkerInv(c, s, s.workers[w]);
    WorkerKeepsOwn(c, s, w);
    if InDfs(s.workers[w]) {
      DfsFrame(c, s, w);
      DfsTakesNothing(c, s, w);
      DfsRankFalls(c, s, w);
    } else if InGet(s.workers[w]) {
      GetFrame(c, s, w);
      GetRankFalls(c, s, w);
    } else {
      ParkFrame(c, s, w);
      ParkTakesNothing(c, s, w);
      if s.workers[w].Unlock? { UnlockRankFalls(c, s, w); } else { ParkRankFalls(c, s, w); }
    }
  }

  lemma WakeCosts(c: Config, s: State, w: nat)
    requires w < |s.workers| && s.workers[w].Waiting?
    ensures Potential(c, Go(s, w, Woken)) == Potential(c, s) + 10
  {
    TotalUpdate(c.V, s.workers, w, Woken);
  }

  /** A productive step uses up potential, a spurious wakeup adds ten units, and nothing else
      changes it. */
  lemma StepPays(c: Config, s: State, step: Step)
    requires DataInv(c, s) && Enabled(c, s, step)
    ensures Potential(c, Apply(c, s, step)) + One(Productive(s, step)) <= Potential(c, s) + 10 * One(step.Spurious?)
  {
    match step
    case MainRun => if !s.main.Spin? { MainPays(c, s); }
    case WorkerRun(w) => WorkerPays(c, s, w);
    case Spurious(w) => WakeCosts(c, s, w);
    case Report(v) =>
  }

  function ProductiveSteps(c: Config, steps: seq<Step>): nat
    requires Legal(c, steps)
  {
    if steps == [] then 0
    else ProductiveSteps(c, Front(steps)) + One(Productive(After(c, Front(steps)), Last(steps)))
  }

  function SpuriousWakeups(steps: seq<Step>): nat {
    if steps == [] then 0 else SpuriousWakeups(Front(steps)) + One(Last(steps).Spurious?)
  }

  lemma {:induction false} PotentialFalls(c: Config, steps: seq<Step>)
    requires ValidConfig(c) && Legal(c, steps)
    ensures ProductiveSteps(c, steps) + Potential(c, After(c, steps))
         <= Potential(c, Init(c)) + 10 * SpuriousWakeups(steps)
  {
    if steps != [] {
      PotentialFalls(c, Front(steps));
      InvHolds(c, Front(steps));
      StepPays(c, After(c, Front(steps)), Last(steps));
    }
  }

  /** The budget of a run, from the number of vertices and of workers alone. */
  function Budget(V: nat, N: nat): int {
    (V * (V * (V + 4) + 16) + V * (V + 4) + 11) * (10 * N + DfsSteps(V) + 15) + 10 * N
  }

  lemma InitialPotential(c: Config)
    ensures Potential(c, Init(c)) == Budget(c.V, c.N)
  {
    SweepClosedForm(c.V, 0);
    TotalIdle(c.V, Init(c).workers);
  }

  lemma PotentialBound(c: Config, s: State)
    requires DataInv(c, s)
    ensures Potential(c, s) >= 0
  {
    MainRankBound(c, s);
    MulLe(0, MainRank(c, s), Weight(c));
    forall w | 0 <= w < c.N ensures WorkerRank(c.V, s.workers[w]) >= 0 { WorkerRankBound(c, s, w); }
    TotalNonNegative(c.V, s.workers);
  }

  /** Every run is bounded: whatever the schedule and whatever is marked from outside, the
      threads make at most `Budget` steps, and ten more for each spurious wakeup, beside the
      busy waiting of the BFS thread. */
  lemma SearchIsBounded(c: Config, steps: seq<Step>)
    requires ValidConfig(c) && Legal(c, steps)
    ensures ProductiveSteps(c, steps) <= Budget(c.V, c.N) + 10 * SpuriousWakeups(steps)
  {
    PotentialFalls(c, steps);
    InitialPotential(c);
    InvHolds(c, steps);
    PotentialBound(c, After(c, steps));
  }

  ghost predicate CanMove(c: Config, s: State) {
    exists step :: Enabled(c, s, step) && Productive(s, step)
  }

  ghost predicate AllWaiting(s: State) {
    forall w :: 0 <= w < |s.workers| ==> s.workers[w].Waiting?
  }

  /** Somebody can move until the loop is over and everybody is parked. */
  lemma SomebodyMoves(c: Config, s: State)
    requires Inv(c, s)
    ensures CanMove(c, s) || (s.mainFlag && AllWaiting(s))
  {
    if !s.mainFlag {
      assert Enabled(c, s, MainRun) && Productive(s, MainRun);
    } else if s.park.mtx != FREE {
      var u := s.park.mtx;
      assert Holds(s.workers[u]);
      assert Enabled(c, s, WorkerRun(u)) && Productive(s, WorkerRun(u));
    } else if !AllWaiting(s) {
      var w :| 0 <= w < |s.workers| && !s.workers[w].Waiting?;
      assert Enabled(c, s, WorkerRun(w)) && Productive(s, WorkerRun(w));
    }
  }

  /** No wakeup is lost: a run that cannot go on has set both flags, with the lock free. */
  lemma NoDeadlock(c: Config, steps: seq<Step>)
    requires ValidConfig(c) && Legal(c, steps)
    ensures CanMove(c, After(c, steps)) ||
            (BothFlags(After(c, steps)) && AllWaiting(After(c, steps)) && After(c, steps).park.mtx == FREE)
  {
    InvHolds(c, steps);
    var s := After(c, steps);
    SomebodyMoves(c, s);
    CountAll(s.workers);
    if !CanMove(c, s) {
      assert forall w :: 0 <= w < c.N ==> !Holds(s.workers[w]) && Out(s.workers[w]);
    }
  }

  /** Less than `n` of the budget is left. */
  ghost predicate Left(c: Config, steps: seq<Step>, n: nat) {
    Legal(c, steps) && Potential(c, After(c, steps)) < n
  }

  /** The run cannot go on. */
  ghost predicate Ended(c: Config, steps: seq<Step>) {
    Legal(c, steps) && !CanMove(c, After(c, steps))
  }

  lemma MoveOn(c: Config, steps: seq<Step>, n: nat) returns (step: Step)
    requires ValidConfig(c) && Left(c, steps, n) && !Ended(c, steps)
    ensures (step.MainRun? || step.WorkerRun?) && n > 0 && Left(c, steps + [step], n - 1)
  {
    var s := After(c, steps);
    step :| Enabled(c, s, step) && Productive(s, step);
    assert Front(steps + [step]) == steps && Last(steps + [step]) == step;
    InvHolds(c, steps);
    StepPays(c, s, step);
    InvHolds(c, steps + [step]);
    PotentialBound(c, After(c, steps + [step]));
  }

  /** A thread can make a step and leave less than `k` of the budget. */
  ghost predicate Makes(left: iset<(seq<Step>, nat)>, steps: seq<Step>, step: Step, k: nat) {
    (step.MainRun? || step.WorkerRun?) && (steps + [step], k) in left
  }

  /** A run has ended, or a thread can make a step that uses part of the budget. */
  ghost predicate Onward(left: iset<(seq<Step>, nat)>, ended: iset<seq<Step>>, steps: seq<Step>, n: nat) {
    steps in ended || exists step, k: nat :: Makes(left, steps, step, k) && k < n
  }

  lemma BudgetGoesOn(c: Config, left: iset<(seq<Step>, nat)>, ended: iset<seq<Step>>, steps: seq<Step>, n: nat)
    requires ValidConfig(c) && Left(c, steps, n)
    requires left == (iset a, m: nat | Left(c, a, m) :: (a, m)) && ended == iset a | Ended(c, a)
    ensures Onward(left, ended, steps, n)
  {
    if !Ended(c, steps) {
      var step := MoveOn(c, steps, n);
      assert Makes(left, steps, step, n - 1);
    }
  }

  lemma {:induction false} EndsWithin(left: iset<(seq<Step>, nat)>, ended: iset<seq<Step>>,
                                      steps: seq<Step>, n: nat) returns (more: seq<Step>)
    requires (steps, n) in left && forall a, m :: (a, m) in left ==> Onward(left, ended, a, m)
    ensures steps + more in ended
    ensures forall k :: 0 <= k < |more| ==> more[k].MainRun? || more[k].WorkerRun?
    decreases n
  {
    if steps in ended {
      more := [];
      assert steps + more == steps;
    } else {
      var step, k: nat :| Makes(left, steps, step, k) && k < n;
      var rest := EndsWithin(left, ended, steps + [step], k);
      more := [step] + rest;
      assert steps + more == steps + [step] + rest;
    }
  }

  /** Every run can be brought to its end, without spurious wakeups or outside marks. */
  lemma EveryRunCanEnd(c: Config, steps: seq<Step>) returns (more: seq<Step>)
    requires ValidConfig(c) && Legal(c, steps)
    ensures Ended(c, steps + more)
    ensures forall k :: 0 <= k < |more| ==> more[k].MainRun? || more[k].WorkerRun?
  {
    var left, ended := (iset a, m: nat | Left(c, a, m) :: (a, m)), iset a | Ended(c, a);
    forall a, m | (a, m) in left ensures Onward(left, ended, a, m) { BudgetGoesOn(c, left, ended, a, m); }
    var n := Potential(c, After(c, steps));
    var start: nat := if n >= 0 then n + 1 else 0;
    assert Left(c, steps, start);
    more := EndsWithin(left, ended, steps, start);
  }

  /** When a run without outside marks cannot go on, no vertex with a path from the root has
      been missed, and no later wakeup changes the verdict. */
  lemma EndIsComplete(c: Config, steps: seq<Step>, p: seq<int>, later: seq<Step>)
    requires ValidConfig(c) && Legal(c, steps) && !CanMove(c, After(c, steps))
    requires !c.env && Path(c, p) && Legal(c, steps + later)
    ensures Accounted(After(c, steps), HandOuts(c, steps), Last(p))
    ensures BothFlags(After(c, steps + later)) && HandOuts(c, steps + later) == HandOuts(c, steps)
  {
    NoDeadlock(c, steps);
    NothingIsLost(c, steps, p);
    DetectorIsFinal(c, steps, later);
  }

  // --------------------------------------------------------------- the end of normalBFS

  /** The BFS thread leaves its busy waiting exactly when it reads `subThread` as set. */
  lemma ReturnStep(c: Config, s: State, step: Step)
    requires DataInv(c, s) && Enabled(c, s, step)
    ensures !s.main.Done? && Apply(c, s, step).main.Done? <==>
            step.MainRun? && s.main.Spin? && s.park.subFlag
    ensures s.main.Spin? && !Apply(c, s, step).main.Done? ==> Apply(c, s, step).main.Spin?
  {
    match step
    case WorkerRun(w) => WorkerMoves(c, s, w);
    case _ =>
  }

  /** Both flags were set when the last of the first k + 1 steps was made. */
  ghost predicate ReturnedAt(c: Config, steps: seq<Step>, k: nat) {
    && k < |steps| && steps[k].MainRun? && Legal(c, steps[..k])
    && After(c, steps[..k]).main.Spin? && BothFlags(After(c, steps[..k]))
  }

  /** When normalBFS has returned, both flags were set at its last read: in no schedule does it
      return earlier. */
  lemma {:induction false} ReturnedAfterFlags(c: Config, steps: seq<Step>) returns (k: nat)
    requires ValidConfig(c) && Legal(c, steps) && After(c, steps).main.Done?
    ensures ReturnedAt(c, steps, k)
  {
    var front := Front(steps);
    if After(c, front).main.Done? {
      k := ReturnedAfterFlags(c, front);
      assert front[..k] == steps[..k];
    } else {
      k := |front|;
      InvHolds(c, front);
      ReturnStep(c, After(c, front), Last(steps));
      assert steps[..k] == front;
    }
  }
}
