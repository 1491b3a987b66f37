/** The matrix benchmark comes to an end: every run is bounded, and as long as waits return
    only after a broadcast no thread is left behind at the barrier. */
module ProductLiveness {
  import opened ParallelProduct
  import opened ProductTheorems

  // --------------------------------------------------------------- how many crossings

  /** A thread inside perf_cycle still has that crossing to finish. */
  ghost predicate CrossInv(c: Config, th: Thread) {
    th.left <= c.cycles && (InBarrier(th.pc) && !th.pc.Outside? ==> th.left < c.cycles)
  }

  ghost predicate CrossingsInv(c: Config, s: State) {
    |s.threads| == T(c) && forall t :: 0 <= t < T(c) ==> CrossInv(c, s.threads[t])
  }

  lemma StepKeepsCrossings(c: Config, s: State, step: Step)
    requires CrossingsInv(c, s) && Enabled(c, s, step)
    ensures CrossingsInv(c, Apply(c, s, step))
  {
    assert CrossInv(c, s.threads[step.t]);
  }

  lemma {:induction false} CrossingsHold(c: Config, steps: seq<Step>)
    requires Legal(c, steps)
    ensures CrossingsInv(c, After(c, steps))
  {
    if steps != [] {
      CrossingsHold(c, steps[..|steps| - 1]);
      StepKeepsCrossings(c, After(c, steps[..|steps| - 1]), steps[|steps| - 1]);
    }
  }

  // ------------------------------------------------------------------------ the bound

  /** Steps to compute and send the cells of a slice from the i-th on. */
  function SliceSteps(N: nat, length: nat, i: nat): nat
    decreases if i < length then length - i else 0
  {
    if i >= length then 3 else 2 * N + 2 + SliceSteps(N, length, i + 1)
  }

  lemma {:induction false} SliceClosedForm(N: nat, length: nat, i: nat)
    requires i <= length
    ensures SliceSteps(N, length, i) == (length - i) * (2 * N + 2) + 3
    decreases length - i
  {
    if i < length {
      SliceClosedForm(N, length, i + 1);
      assert (length - i) * (2 * N + 2) == (length - (i + 1)) * (2 * N + 2) + (2 * N + 2);
    }
  }

  /** How far into a crossing a thread is. */
  function Phase(p: Pc): int {
    match p
    case Dec => -1
    case Check => -2
    case Reset => -3
    case Waiting => -3
    case Cast => -4
    case Woken => -4
    case Unlock => -5
    case _ => 0
  }

  /** Steps left in the computation of the slice. */
  function WorkLeft(N: nat, length: nat, th: Thread): int {
    match th.pc
    case Calc(i, k) => if i >= length then 3 else SliceSteps(N, length, i) - 2 * k
    case Store(i, k, _) => SliceSteps(N, length, i) - 2 * k - 1
    case SendLock => 2
    case Sending => 1
    case _ => if th.left == 0 then SliceSteps(N, length, 0) else 0
  }

  function ThreadRank(c: Config, t: nat, th: Thread): int
    requires t < T(c)
  {
    7 * (c.cycles - th.left) + Phase(th.pc) + WorkLeft(c.N, c.slices[t].length, th)
  }

  lemma RankNonNegative(c: Config, t: nat, th: Thread)
    requires t < T(c) && CrossInv(c, th) && PcOk(c, t, th)
    ensures ThreadRank(c, t, th) >= 0
  {
  }

  lemma BarrierRankFalls(c: Config, s: State, t: nat)
    requires t < T(c) == |s.threads| && InBarrier(s.threads[t].pc) && !s.threads[t].pc.Waiting?
    ensures ThreadRank(c, t, BarrierStep(c, s, t).threads[t]) < ThreadRank(c, t, s.threads[t])
  {
  }

  lemma WorkRankFalls(c: Config, s: State, t: nat)
    requires t < T(c) == |s.threads| && !InBarrier(s.threads[t].pc) && PcOk(c, t, s.threads[t])
    ensures ThreadRank(c, t, WorkStep(c, s, t).threads[t]) < ThreadRank(c, t, s.threads[t])
  {
  }

  function TotalRank(c: Config, ts: seq<Thread>): int
    requires |ts| <= T(c)
  {
    if ts == [] then 0 else TotalRank(c, ts[..|ts| - 1]) + ThreadRank(c, |ts| - 1, ts[|ts| - 1])
  }

  lemma {:induction false} TotalUpdate(c: Config, ts: seq<Thread>, t: nat, th: Thread)
    requires t < |ts| <= T(c)
    ensures TotalRank(c, ts[t := th]) == TotalRank(c, ts) - ThreadRank(c, t, ts[t]) + ThreadRank(c, t, th)
  {
    var us := ts[t := th];
    if t == |ts| - 1 {
      assert us[..|us| - 1] == ts[..|ts| - 1];
    } else {
      TotalUpdate(c, ts[..|ts| - 1], t, th);
      assert us[..|us| - 1] == ts[..|ts| - 1][t := th];
    }
  }

  /** A broadcast brings the waiting threads nearer to their end. */
  lemma {:induction false} TotalWake(c: Config, ts: seq<Thread>)
    requires |ts| <= T(c)
    ensures TotalRank(c, WakeAll(ts)) <= TotalRank(c, ts)
  {
    if ts != [] {
      TotalWake(c, ts[..|ts| - 1]);
      assert WakeAll(ts)[..|ts| - 1] == WakeAll(ts[..|ts| - 1]);
    }
  }

  lemma {:induction false} TotalNonNegative(c: Config, ts: seq<Thread>)
    requires |ts| <= T(c) && forall t :: 0 <= t < |ts| ==> CrossInv(c, ts[t]) && PcOk(c, t, ts[t])
    ensures TotalRank(c, ts) >= 0
  {
    if ts != [] {
      TotalNonNegative(c, ts[..|ts| - 1]);
      RankNonNegative(c, |ts| - 1, ts[|ts| - 1]);
    }
  }

  lemma CastFalls(c: Config, s: State, t: nat)
    requires t < T(c) == |s.threads| && s.threads[t].pc.Cast?
    ensures TotalRank(c, BarrierStep(c, s, t).threads) < TotalRank(c, s.threads)
  {
    TotalWake(c, s.threads);
    TotalUpdate(c, WakeAll(s.threads), t, s.threads[t].(pc := Unlock));
  }

  lemma OwnStepFalls(c: Config, s: State, s': State, t: nat)
    requires t < T(c) == |s.threads| == |s'.threads| && s'.threads == s.threads[t := s'.threads[t]]
    requires ThreadRank(c, t, s'.threads[t]) < ThreadRank(c, t, s.threads[t])
    ensures TotalRank(c, s'.threads) < TotalRank(c, s.threads)
  {
    TotalUpdate(c, s.threads, t, s'.threads[t]);
  }

  lemma BarrierFrame(c: Config, s: State, t: nat)
    requires t < |s.threads| && InBarrier(s.threads[t].pc) && !s.threads[t].pc.Cast?
    ensures var s' := BarrierStep(c, s, t); |s'.threads| == |s.threads| && s'.threads == s.threads[t := s'.threads[t]]
  {
  }

  /** Every step, a spurious return included, brings the end nearer. */
  lemma StepFalls(c: Config, s: State, step: Step)
    requires WorkInv(c, s) && Enabled(c, s, step)
    ensures |Apply(c, s, step).threads| == T(c)
    ensures TotalRank(c, Apply(c, s, step).threads) < TotalRank(c, s.threads)
  {
    var s', t := Apply(c, s, step), step.t;
    assert PcOk(c, t, s.threads[t]);
    if step.Spurious? {
      OwnStepFalls(c, s, s', t);
    } else if s.threads[t].pc.Cast? {
      CastFalls(c, s, t);
    } else if InBarrier(s.threads[t].pc) {
      BarrierFrame(c, s, t);
      BarrierRankFalls(c, s, t);
      OwnStepFalls(c, s, s', t);
    } else {
      WorkFrame(c, s, t);
      WorkRankFalls(c, s, t);
      OwnStepFalls(c, s, s', t);
    }
  }

  /** Seven steps for each crossing, and the slice, for each of the first n threads. */
  function Budget(c: Config, n: nat): int
    requires n <= T(c)
  {
    if n == 0 then 0 else Budget(c, n - 1) + 7 * c.cycles + c.slices[n - 1].length * (2 * c.N + 2) + 3
  }

  lemma {:induction false} InitialRank(c: Config, ts: seq<Thread>)
    requires |ts| <= T(c) && forall t :: 0 <= t < |ts| ==> ts[t] == Thread(Outside, 0, 0)
    ensures TotalRank(c, ts) == Budget(c, |ts|)
  {
    if ts != [] {
      InitialRank(c, ts[..|ts| - 1]);
      SliceClosedForm(c.N, c.slices[|ts| - 1].length, 0);
    }
  }

  lemma {:induction false} RankFalls(c: Config, steps: seq<Step>)
    requires SlicesOk(c) && Legal(c, steps)
    ensures |After(c, steps).threads| == T(c)
    ensures |steps| + TotalRank(c, After(c, steps).threads) <= Budget(c, T(c))
  {
    if steps == [] {
      InitialRank(c, Init(c).threads);
    } else {
      RankFalls(c, steps[..|steps| - 1]);
      WorkHolds(c, steps[..|steps| - 1]);
      StepFalls(c, After(c, steps[..|steps| - 1]), steps[|steps| - 1]);
    }
  }

  /** Every run is bounded by the slices and the crossings, whatever the interleaving. */
  lemma RunIsBounded(c: Config, steps: seq<Step>)
    requires SlicesOk(c) && Legal(c, steps)
    ensures |steps| <= Budget(c, T(c))
  {
    RankFalls(c, steps);
    WorkHolds(c, steps);
    CrossingsHold(c, steps);
    TotalNonNegative(c, After(c, steps).threads);
  }

  // ------------------------------------------------------------------------- progress

  ghost predicate CanRun(c: Config, s: State) {
    exists t: nat :: Enabled(c, s, Run(t))
  }

  /** All threads have left their last perf_cycle. */
  ghost predicate AllDone(c: Config, s: State) {
    forall t :: 0 <= t < |s.threads| ==> s.threads[t].pc.Outside? && s.threads[t].left == c.cycles
  }

  ghost predicate Stopped(c: Config, th: Thread) {
    th.pc.Waiting? || (th.pc.Outside? && th.left >= c.cycles)
  }

  /** Unless every thread waits or is done, one of them can run. */
  lemma SomebodyRuns(c: Config, s: State)
    requires LockInv(c, s)
    ensures CanRun(c, s) || (s.bar.mtx == FREE && forall t :: 0 <= t < T(c) ==> Stopped(c, s.threads[t]))
  {
    if s.bar.mtx != FREE {
      var t := s.bar.mtx;
      assert Holds(s.threads[t].pc);
      assert Enabled(c, s, Run(t));
    } else if !forall t :: 0 <= t < T(c) ==> Stopped(c, s.threads[t]) {
      var t :| 0 <= t < T(c) && !Stopped(c, s.threads[t]);
      assert Enabled(c, s, Run(t));
    }
  }

  /** If everybody has stopped then nobody is waiting: the last one in would have woken them. */
  lemma StoppedMeansDone(c: Config, s: State)
    requires BarrierInv(c, s) && CrossingsInv(c, s) && s.bar.mtx == FREE
    requires forall t :: 0 <= t < T(c) ==> Stopped(c, s.threads[t])
    ensures AllDone(c, s)
  {
    ArrivedAll(s.threads, s.bar.gen);
    var u :| 0 <= u < T(c) && s.threads[u].entered != s.bar.gen + 1;
    assert ThreadInv(s.bar.gen, s.threads[u]) && CrossInv(c, s.threads[u]);
    forall t | 0 <= t < T(c) ensures s.threads[t].pc.Outside? && s.threads[t].left == c.cycles {
      assert ThreadInv(s.bar.gen, s.threads[t]) && CrossInv(c, s.threads[t]);
    }
  }

  /** Nobody is left behind: a run that cannot go on has brought every thread through its last
      perf_cycle. */
  lemma NoDeadlock(c: Config, steps: seq<Step>)
    requires T(c) >= 1 && Legal(c, steps) && NoSpurious(steps)
    ensures CanRun(c, After(c, steps)) || AllDone(c, After(c, steps))
  {
    BarrierHolds(c, steps);
    CrossingsHold(c, steps);
    var s := After(c, steps);
    SomebodyRuns(c, s);
    if s.bar.mtx == FREE && forall t :: 0 <= t < T(c) ==> Stopped(c, s.threads[t]) {
      StoppedMeansDone(c, s);
    }
  }

  /** With the program's two crossings, such a run has also completed every slice. */
  lemma EndIsComplete(c: Config, steps: seq<Step>)
    requires T(c) >= 1 && SlicesOk(c) && Legal(c, steps) && NoSpurious(steps) && c.cycles >= 2
    requires !CanRun(c, After(c, steps))
    ensures Complete(c, After(c, steps).m3)
  {
    NoDeadlock(c, steps);
    BarrierHolds(c, steps);
    assert After(c, steps).threads[0].left >= 2;
    SecondCrossingMeansDone(c, steps);
  }
}
