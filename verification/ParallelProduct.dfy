/** The matrix benchmark of benchmark/matrix/test01.cpp: threads that meet at a reusable
    counter barrier, fill disjoint slices of the result in between, and meet again. */
module ParallelProduct {

  /** A contiguous range of cells given to one thread. */
  datatype Slice = Slice(offset: nat, length: nat)

  /** `N` x `N` operands `a` and `b`, one slice per thread, and the number of barrier
      crossings per thread (two in the program). */
  datatype Config = Config(N: nat, a: seq<int>, b: seq<int>, slices: seq<Slice>, cycles: nat)

  function T(c: Config): nat {
    |c.slices|
  }

  const FREE := -1

  /** Where a thread is in perf_cycle, caculate or toWrite. */
  datatype Pc =
    | Outside                       // about to lock mtx in perf_cycle
    | Dec                           // *counter -= 1
    | Check                         // last one in?
    | Reset                         // *counter = num_threads
    | Cast                          // broadcast
    | Waiting                       // in pthread_cond_wait
    | Woken                         // about to reacquire mtx
    | Unlock                        // about to leave perf_cycle
    | Calc(i: nat, k: nat)          // caculate: read cell i of the slice and add product k
    | Store(i: nat, k: nat, x: int) // caculate: write the new value back
    | SendLock                      // toWrite: about to lock mtx
    | Sending                       // toWrite: sending the slice under mtx

  /** A thread with the number of perf_cycle calls it has entered and left. */
  datatype Thread = Thread(pc: Pc, entered: nat, left: nat)

  /** `gen` counts the broadcasts. */
  datatype Barrier = Barrier(counter: int, mtx: int, gen: nat)

  datatype State = State(bar: Barrier, threads: seq<Thread>, m3: seq<int>)

  function Init(c: Config): State {
    State(Barrier(T(c), FREE, 0), seq(T(c), _ => Thread(Outside, 0, 0)), seq(c.N * c.N, _ => 0))
  }

  /** The k-th product in the sum for a cell. The quotient picks the column and the remainder
      the row, as in the program. */
  function Product(c: Config, cell: nat, k: nat): int {
    if c.N == 0 then 0
    else
      var x, y := cell / c.N, cell % c.N;
      At(c.a, y * c.N + k) * At(c.b, k * c.N + x)
  }

  function At(s: seq<int>, i: int): int {
    if 0 <= i < |s| then s[i] else 0
  }

  function Put(s: State, t: nat, th: Thread): State
    requires t < |s.threads|
  {
    s.(threads := s.threads[t := th])
  }

  function WakeThread(th: Thread): Thread {
    if th.pc.Waiting? then th.(pc := Woken) else th
  }

  function WakeAll(ts: seq<Thread>): seq<Thread> {
    seq(|ts|, t requires 0 <= t < |ts| => WakeThread(ts[t]))
  }

  predicate InBarrier(p: Pc) {
    !(p.Calc? || p.Store? || p.SendLock? || p.Sending?)
  }

  /** The steps of perf_cycle. */
  function BarrierStep(c: Config, s: State, t: nat): State
    requires t < |s.threads| && InBarrier(s.threads[t].pc)
  {
    var th := s.threads[t];
    match th.pc
    case Outside => Put(s.(bar := s.bar.(mtx := t)), t, th.(pc := Dec))
    case Dec => Put(s.(bar := s.bar.(counter := s.bar.counter - 1)), t, Thread(Check, th.entered + 1, th.left))
    case Check =>
      if s.bar.counter == 0 then Put(s, t, th.(pc := Reset))
      else Put(s.(bar := s.bar.(mtx := FREE)), t, th.(pc := Waiting))
    case Reset => Put(s.(bar := s.bar.(counter := T(c))), t, th.(pc := Cast))
    case Cast =>
      Put(s.(bar := s.bar.(gen := s.bar.gen + 1), threads := WakeAll(s.threads)), t, th.(pc := Unlock))
    case Waiting => s
    case Woken => Put(s.(bar := s.bar.(mtx := t)), t, th.(pc := Unlock))
    case Unlock =>
      Put(s.(bar := s.bar.(mtx := FREE)), t, Leave(th))
  }

  /** Leaving perf_cycle: after the first one the thread computes its slice. */
  function Leave(th: Thread): Thread {
    Thread(if th.left == 0 then Calc(0, 0) else Outside, th.entered, th.left + 1)
  }

  /** The steps of caculate and toWrite, between the first and the second perf_cycle. */
  function WorkStep(c: Config, s: State, t: nat): State
    requires t < |s.threads| && t < T(c) && !InBarrier(s.threads[t].pc)
  {
    var th, slice := s.threads[t], c.slices[t];
    match th.pc
    case Calc(i, k) =>
      if i >= slice.length then Put(s, t, th.(pc := SendLock))
      else if k >= c.N then Put(s, t, th.(pc := Calc(i + 1, 0)))
      else
        var cell := slice.offset + i;
        Put(s, t, th.(pc := Store(i, k, At(s.m3, cell) + Product(c, cell, k))))
    case Store(i, k, x) =>
      var cell := slice.offset + i;
      Put(if cell < |s.m3| then s.(m3 := s.m3[cell := x]) else s, t, th.(pc := Calc(i, k + 1)))
    case SendLock => Put(s.(bar := s.bar.(mtx := t)), t, th.(pc := Sending))
    case Sending => Put(s.(bar := s.bar.(mtx := FREE)), t, th.(pc := Outside))
  }

  /** Run a thread, or let its pthread_cond_wait return without a broadcast. */
  datatype Step = Run(t: nat) | Spurious(t: nat)

  predicate Enabled(c: Config, s: State, step: Step) {
    && step.t < |s.threads| && step.t < T(c)
    && var th := s.threads[step.t];
       match step
       case Run(t) =>
         && !th.pc.Waiting?
         && (th.pc.Outside? ==> th.left < c.cycles)
         && (th.pc.Outside? || th.pc.Woken? || th.pc.SendLock? ==> s.bar.mtx == FREE)
       case Spurious(t) => th.pc.Waiting?
  }

  function Apply(c: Config, s: State, step: Step): State
    requires Enabled(c, s, step)
  {
    match step
    case Run(t) => if InBarrier(s.threads[t].pc) then BarrierStep(c, s, t) else WorkStep(c, s, t)
    case Spurious(t) => Put(s, t, s.threads[t].(pc := Woken))
  }

  predicate Legal(c: Config, steps: seq<Step>)
    decreases |steps|, 0
  {
    steps == [] ||
    (Legal(c, steps[..|steps| - 1])
     && Enabled(c, After(c, steps[..|steps| - 1]), steps[|steps| - 1]))
  }

  function After(c: Config, steps: seq<Step>): State
    requires Legal(c, steps)
    decreases |steps|, 1
  {
    if steps == [] then Init(c) else Apply(c, After(c, steps[..|steps| - 1]), steps[|steps| - 1])
  }

  // ---------------------------------------------------------------- barrier invariant

  predicate Holds(p: Pc) {
    p.Dec? || p.Check? || p.Reset? || p.Cast? || p.Unlock? || p.Sending?
  }

  /** The last thread in, between noticing it and the broadcast. */
  predicate Turning(p: Pc) {
    p.Reset? || p.Cast?
  }

  /** How far a thread is, relative to the number of broadcasts so far. */
  ghost predicate ThreadInv(g: nat, th: Thread) {
    if th.pc.Check? || th.pc.Waiting? || Turning(th.pc) then th.entered == g + 1 && th.left == g
    else if th.pc.Woken? || th.pc.Unlock? then th.entered == g && th.left + 1 == g
    else th.entered == g && th.left == g
  }

  /** Threads that have arrived since the last broadcast. */
  function Arrived(ts: seq<Thread>, g: nat): nat {
    if ts == [] then 0
    else Arrived(ts[..|ts| - 1], g) + (if ts[|ts| - 1].entered == g + 1 then 1 else 0)
  }

  lemma {:induction false} ArrivedUpdate(ts: seq<Thread>, t: nat, th: Thread, g: nat)
    requires t < |ts|
    ensures Arrived(ts[t := th], g) + (if ts[t].entered == g + 1 then 1 else 0)
         == Arrived(ts, g) + (if th.entered == g + 1 then 1 else 0)
  {
    var us := ts[t := th];
    if t == |ts| - 1 {
      assert us[..|us| - 1] == ts[..|ts| - 1];
    } else {
      ArrivedUpdate(ts[..|ts| - 1], t, th, g);
      assert us[..|us| - 1] == ts[..|ts| - 1][t := th];
    }
  }

  lemma {:induction false} ArrivedAll(ts: seq<Thread>, g: nat)
    ensures Arrived(ts, g) <= |ts|
    ensures Arrived(ts, g) == |ts| <==> forall t :: 0 <= t < |ts| ==> ts[t].entered == g + 1
  {
    if ts != [] {
      ArrivedAll(ts[..|ts| - 1], g);
      assert ts == ts[..|ts| - 1] + [ts[|ts| - 1]];
    }
  }

  lemma {:induction false} ArrivedNone(ts: seq<Thread>, g: nat)
    requires forall t :: 0 <= t < |ts| ==> ts[t].entered != g + 1
    ensures Arrived(ts, g) == 0
  {
    if ts != [] { ArrivedNone(ts[..|ts| - 1], g); }
  }

  ghost predicate LockInv(c: Config, s: State) {
    && |s.threads| == T(c)
    && (s.bar.mtx == FREE || 0 <= s.bar.mtx < T(c))
    && (forall t :: 0 <= t < T(c) ==> (Holds(s.threads[t].pc) <==> s.bar.mtx == t))
  }

  ghost predicate Casting(s: State) {
    0 <= s.bar.mtx < |s.threads| && s.threads[s.bar.mtx].pc.Cast?
  }

  ghost predicate CountInv(c: Config, s: State) {
    && (s.bar.counter == if Casting(s) then T(c) else T(c) - Arrived(s.threads, s.bar.gen))
    && (if 0 <= s.bar.mtx < |s.threads| && Turning(s.threads[s.bar.mtx].pc)
        then Arrived(s.threads, s.bar.gen) == T(c)
        else s.bar.counter > 0 || (0 <= s.bar.mtx < |s.threads| && s.threads[s.bar.mtx].pc.Check?))
  }

  ghost predicate BarrierInv(c: Config, s: State) {
    && T(c) >= 1 && LockInv(c, s)
    && (forall t :: 0 <= t < T(c) ==> ThreadInv(s.bar.gen, s.threads[t]))
    && CountInv(c, s)
  }

  lemma CastKeepsBarrier(c: Config, s: State, t: nat)
    requires BarrierInv(c, s) && t < T(c) && s.threads[t].pc.Cast?
    ensures BarrierInv(c, BarrierStep(c, s, t))
  {
    var s' := BarrierStep(c, s, t);
    ArrivedAll(s.threads, s.bar.gen);
    forall u | 0 <= u < T(c) ensures s'.threads[u].entered == s.bar.gen + 1 && ThreadInv(s'.bar.gen, s'.threads[u]) {
      assert s.threads[u].entered == s.bar.gen + 1;
      assert ThreadInv(s.bar.gen, s.threads[u]);
      assert u != t ==> !Holds(s.threads[u].pc);
    }
    ArrivedNone(s'.threads, s'.bar.gen);
  }

  predicate Plain(p: Pc) {
    !p.Check? && !Turning(p)
  }

  /** A thread that only takes or drops the lock, or works, keeps the barrier consistent. */
  lemma PlainMove(c: Config, s: State, s': State, t: nat)
    requires BarrierInv(c, s) && t < T(c) && |s'.threads| == T(c) && s'.threads == s.threads[t := s'.threads[t]]
    requires s'.bar.gen == s.bar.gen && s'.bar.counter == s.bar.counter
    requires Plain(s.threads[t].pc) && Plain(s'.threads[t].pc)
    requires s'.threads[t].entered == s.threads[t].entered && ThreadInv(s.bar.gen, s'.threads[t])
    requires if Holds(s'.threads[t].pc) then s'.bar.mtx == t && (s.bar.mtx == t || s.bar.mtx == FREE)
             else s'.bar.mtx == if Holds(s.threads[t].pc) then FREE else s.bar.mtx
    ensures BarrierInv(c, s')
  {
    ArrivedUpdate(s.threads, t, s'.threads[t], s.bar.gen);
  }

  lemma LockKeepsBarrier(c: Config, s: State, t: nat)
    requires BarrierInv(c, s) && t < T(c) && s.bar.mtx == FREE && (s.threads[t].pc.Outside? || s.threads[t].pc.Woken?)
    ensures BarrierInv(c, BarrierStep(c, s, t))
  {
    assert ThreadInv(s.bar.gen, s.threads[t]);
    PlainMove(c, s, BarrierStep(c, s, t), t);
  }

  lemma DecKeepsBarrier(c: Config, s: State, t: nat)
    requires BarrierInv(c, s) && t < T(c) && s.threads[t].pc.Dec?
    ensures BarrierInv(c, BarrierStep(c, s, t))
  {
    var s' := BarrierStep(c, s, t);
    assert ThreadInv(s.bar.gen, s.threads[t]);
    ArrivedUpdate(s.threads, t, s'.threads[t], s.bar.gen);
  }

  lemma CheckKeepsBarrier(c: Config, s: State, t: nat)
    requires BarrierInv(c, s) && t < T(c) && (s.threads[t].pc.Check? || s.threads[t].pc.Reset?)
    ensures BarrierInv(c, BarrierStep(c, s, t))
  {
    var s' := BarrierStep(c, s, t);
    assert ThreadInv(s.bar.gen, s.threads[t]);
    ArrivedUpdate(s.threads, t, s'.threads[t], s.bar.gen);
    ArrivedAll(s'.threads, s.bar.gen);
  }

  /** What leaving perf_cycle does to the thread and to the lock. */
  lemma UnlockFrame(c: Config, s: State, t: nat)
    requires t < |s.threads| && s.threads[t].pc.Unlock?
    ensures var s' := BarrierStep(c, s, t);
            && |s'.threads| == |s.threads| && s'.threads == s.threads[t := s'.threads[t]]
            && s'.threads[t] == Leave(s.threads[t]) && s'.bar == s.bar.(mtx := FREE)
  {
  }

  lemma LeaveKeepsThread(g: nat, th: Thread)
    requires th.pc.Unlock? && ThreadInv(g, th)
    ensures ThreadInv(g, Leave(th)) && Leave(th).entered == th.entered
    ensures Plain(Leave(th).pc) && !Holds(Leave(th).pc)
  {
  }

  lemma UnlockKeepsBarrier(c: Config, s: State, t: nat)
    requires BarrierInv(c, s) && t < T(c) && s.threads[t].pc.Unlock?
    ensures BarrierInv(c, BarrierStep(c, s, t))
  {
    UnlockFrame(c, s, t);
    LeaveKeepsThread(s.bar.gen, s.threads[t]);
    PlainMove(c, s, BarrierStep(c, s, t), t);
  }

  /** Between the crossings a thread moves only itself, the lock and the result matrix. */
  lemma WorkFrame(c: Config, s: State, t: nat)
    requires t < |s.threads| && t < T(c) && !InBarrier(s.threads[t].pc)
    ensures var s', th := WorkStep(c, s, t), s.threads[t];
            && |s'.threads| == |s.threads| && s'.threads == s.threads[t := s'.threads[t]]
            && s'.threads[t].entered == th.entered && s'.threads[t].left == th.left
            && (!InBarrier(s'.threads[t].pc) || (th.pc.Sending? && s'.threads[t].pc.Outside?))
            && s'.bar == s.bar.(mtx := if th.pc.SendLock? then t else if th.pc.Sending? then FREE else s.bar.mtx)
            && Holds(s'.threads[t].pc) == th.pc.SendLock?
  {
  }

  lemma WorkStepKeeps(c: Config, s: State, t: nat)
    requires BarrierInv(c, s) && t < T(c) && Enabled(c, s, Run(t)) && !InBarrier(s.threads[t].pc)
    ensures BarrierInv(c, WorkStep(c, s, t))
  {
    var s' := WorkStep(c, s, t);
    assert ThreadInv(s.bar.gen, s.threads[t]);
    WorkFrame(c, s, t);
    PlainMove(c, s, s', t);
  }

  lemma StepKeepsBarrier(c: Config, s: State, step: Step)
    requires BarrierInv(c, s) && Enabled(c, s, step) && step.Run?
    ensures BarrierInv(c, Apply(c, s, step))
  {
    var t := step.t;
    if !InBarrier(s.threads[t].pc) {
      WorkStepKeeps(c, s, t);
    } else if s.threads[t].pc.Cast? {
      CastKeepsBarrier(c, s, t);
    } else if s.threads[t].pc.Dec? {
      DecKeepsBarrier(c, s, t);
    } else if s.threads[t].pc.Check? || s.threads[t].pc.Reset? {
      CheckKeepsBarrier(c, s, t);
    } else if s.threads[t].pc.Unlock? {
      UnlockKeepsBarrier(c, s, t);
    } else {
      LockKeepsBarrier(c, s, t);
    }
  }

  /** The assumption line 101 makes: waits return only after a broadcast. */
  ghost predicate NoSpurious(steps: seq<Step>) {
    forall k :: 0 <= k < |steps| ==> steps[k].Run?
  }

  lemma {:induction false} BarrierHolds(c: Config, steps: seq<Step>)
    requires T(c) >= 1 && Legal(c, steps) && NoSpurious(steps)
    ensures BarrierInv(c, After(c, steps))
  {
    if steps == [] {
      ArrivedNone(Init(c).threads, 0);
    } else {
      BarrierHolds(c, steps[..|steps| - 1]);
      StepKeepsBarrier(c, After(c, steps[..|steps| - 1]), steps[|steps| - 1]);
    }
  }

  /** Nobody has left more crossings than anybody else has entered. */
  ghost predicate BarrierSafe(s: State) {
    forall t, u :: 0 <= t < |s.threads| && 0 <= u < |s.threads| ==> s.threads[t].left <= s.threads[u].entered
  }

  lemma SafeFromInv(c: Config, s: State)
    requires BarrierInv(c, s)
    ensures BarrierSafe(s)
  {
    forall t, u | 0 <= t < |s.threads| && 0 <= u < |s.threads| ensures s.threads[t].left <= s.threads[u].entered {
      assert ThreadInv(s.bar.gen, s.threads[t]) && ThreadInv(s.bar.gen, s.threads[u]);
    }
  }

  /** The barrier is reusable: as long as waits return only after a broadcast, no thread
      leaves its k-th perf_cycle before all threads have entered their k-th, for every k and
      every interleaving, also when fast threads come back before slow ones have left. */
  lemma BarrierIsSafe(c: Config, steps: seq<Step>)
    requires T(c) >= 1 && Legal(c, steps) && NoSpurious(steps)
    ensures BarrierSafe(After(c, steps))
  {
    BarrierHolds(c, steps);
    SafeFromInv(c, After(c, steps));
  }

  lemma AfterNext(c: Config, steps: seq<Step>, step: Step)
    requires Legal(c, steps) && Enabled(c, After(c, steps), step)
    ensures Legal(c, steps + [step]) && After(c, steps + [step]) == Apply(c, After(c, steps), step)
  {
    assert (steps + [step])[..|steps + [step]| - 1] == steps;
  }
}
