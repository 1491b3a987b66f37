/** When a pthread_cond_wait of the matrix benchmark that returns without a broadcast lets a
    thread through the barrier too early. */
module BarrierWakeups {
  import opened ParallelProduct

  /** Every thread has entered the crossing that is under way, or is about to be counted. */
  ghost predicate AllIn(s: State) {
    forall u :: 0 <= u < |s.threads| ==> s.threads[u].entered == s.bar.gen + 1 || s.threads[u].pc.Dec?
  }

  /** The state after the wait of `t` has returned. */
  function Returned(s: State, t: nat): State
    requires t < |s.threads|
  {
    Put(s, t, s.threads[t].(pc := Woken))
  }

  // ----------------------------------------------------------------- harmless returns

  /** `s` is `twin` with `t` awake, and in `twin` everybody is in. */
  ghost predicate Early(c: Config, s: State, twin: State, t: nat) {
    && t < T(c) && BarrierInv(c, twin) && AllIn(twin)
    && twin.threads[t].pc.Waiting? && s == Returned(twin, t)
  }

  /** The last thread in holds the lock, so it is the only one that can run. */
  lemma OnlyLastRuns(c: Config, s: State, twin: State, t: nat, u: nat)
    requires Early(c, s, twin, t) && Enabled(c, s, Run(u))
    ensures u != t && s.threads[u] == twin.threads[u] && Enabled(c, twin, Run(u))
    ensures s.threads[u].pc.Dec? || s.threads[u].pc.Check? || Turning(s.threads[u].pc)
  {
    ArrivedAll(twin.threads, twin.bar.gen);
    if u < T(c) {
      assert ThreadInv(twin.bar.gen, twin.threads[u]);
    }
  }

  lemma CountedStays(c: Config, twin: State, t: nat, u: nat)
    requires BarrierInv(c, twin) && AllIn(twin) && t < T(c) && u < T(c) && u != t && twin.threads[t].pc.Waiting?
    requires twin.threads[u].pc.Dec? || twin.threads[u].pc.Check? || twin.threads[u].pc.Reset?
    ensures var next := BarrierStep(c, twin, u);
            && |next.threads| == T(c) && AllIn(next) && next.threads[t].pc.Waiting?
            && BarrierStep(c, Returned(twin, t), u) == Returned(next, t)
  {
    var next := BarrierStep(c, twin, u);
    ArrivedAll(twin.threads, twin.bar.gen);
    assert forall v :: 0 <= v < T(c) && v != u ==> next.threads[v] == twin.threads[v] && !twin.threads[v].pc.Dec?;
    assert ThreadInv(twin.bar.gen, twin.threads[u]);
    assert Returned(twin, t).threads[u := next.threads[u]] == Returned(next, t).threads;
  }

  /** The broadcast wakes `t` anyway. */
  lemma CastCatchesUp(c: Config, twin: State, t: nat, u: nat)
    requires t < |twin.threads| && u < |twin.threads| && u != t
    requires twin.threads[t].pc.Waiting? && twin.threads[u].pc.Cast?
    ensures BarrierStep(c, Returned(twin, t), u) == BarrierStep(c, twin, u)
  {
    assert WakeAll(Returned(twin, t).threads) == WakeAll(twin.threads);
  }

  /** Until the broadcast the early return changes nothing, and after it nothing is left of it. */
  lemma EarlyStep(c: Config, s: State, twin: State, t: nat, u: nat)
    requires Early(c, s, twin, t) && Enabled(c, s, Run(u))
    ensures var s' := Apply(c, s, Run(u));
            BarrierInv(c, s') || Early(c, s', BarrierStep(c, twin, u), t)
  {
    OnlyLastRuns(c, s, twin, t, u);
    StepKeepsBarrier(c, twin, Run(u));
    if s.threads[u].pc.Cast? {
      CastCatchesUp(c, twin, t, u);
    } else {
      CountedStays(c, twin, t, u);
    }
  }

  ghost predicate Harmless(c: Config, s: State, t: nat) {
    BarrierInv(c, s) || exists twin :: Early(c, s, twin, t)
  }

  lemma HarmlessStep(c: Config, s: State, t: nat, step: Step)
    requires Harmless(c, s, t) && Enabled(c, s, step) && step.Run?
    ensures Harmless(c, Apply(c, s, step), t)
  {
    if BarrierInv(c, s) {
      StepKeepsBarrier(c, s, step);
    } else {
      var twin :| Early(c, s, twin, t);
      EarlyStep(c, s, twin, t, step.t);
    }
  }

  lemma HarmlessIsSafe(c: Config, s: State, t: nat)
    requires Harmless(c, s, t)
    ensures BarrierSafe(s)
  {
    if BarrierInv(c, s) {
      SafeFromInv(c, s);
    } else {
      var twin :| Early(c, s, twin, t);
      SafeFromInv(c, twin);
    }
  }

  lemma {:induction false} StaysHarmless(c: Config, a: seq<Step>, b: seq<Step>, t: nat)
    requires Legal(c, a) && Harmless(c, After(c, a), t) && NoSpurious(b) && Legal(c, a + b)
    ensures Harmless(c, After(c, a + b), t)
  {
    if b == [] {
      assert a + b == a;
    } else {
      var front := b[..|b| - 1];
      assert (a + b)[..|a + b| - 1] == a + front;
      StaysHarmless(c, a, front, t);
      HarmlessStep(c, After(c, a + front), t, b[|b| - 1]);
    }
  }

  // ------------------------------------------------------------------ harmful returns

  /** A set of states closed under every step of a thread. */
  ghost predicate Closed(c: Config, R: iset<State>) {
    forall s, t: nat :: s in R && Enabled(c, s, Run(t)) ==> Apply(c, s, Run(t)) in R
  }

  /** What can be reached from the end of a schedule without further spurious returns. */
  ghost predicate Reach(c: Config, a: seq<Step>, s: State) {
    exists b :: NoSpurious(b) && Legal(c, a + b) && After(c, a + b) == s
  }

  lemma ReachIsClosed(c: Config, a: seq<Step>)
    requires Legal(c, a)
    ensures Reach(c, a, After(c, a)) && Closed(c, iset s | Reach(c, a, s))
  {
    assert a + [] == a && NoSpurious([]);
    forall s, t: nat | Reach(c, a, s) && Enabled(c, s, Run(t)) ensures Reach(c, a, Apply(c, s, Run(t))) {
      var b :| NoSpurious(b) && Legal(c, a + b) && After(c, a + b) == s;
      AfterNext(c, a + b, Run(t));
      assert a + b + [Run(t)] == a + (b + [Run(t)]) && NoSpurious(b + [Run(t)]);
    }
  }

  /** `t` is awake too early: it has arrived, and `u` has not. */
  ghost predicate TooEarly(s: State, t: nat, u: nat) {
    && t < |s.threads| && u < |s.threads| && t != u
    && s.threads[t].pc.Woken? && s.threads[u].entered <= s.threads[t].left
  }

  lemma WalkThrough(c: Config, R: iset<State>, s: State, t: nat, u: nat) returns (s': State)
    requires Closed(c, R) && s in R && TooEarly(s, t, u) && |s.threads| == T(c) && s.bar.mtx == FREE
    ensures s' in R && !BarrierSafe(s')
  {
    s' := Apply(c, s, Run(t));
    s' := Apply(c, s', Run(t));
    assert s'.threads[t].left == s.threads[t].left + 1 && s'.threads[u] == s.threads[u];
  }

  /** Whoever holds the lock gives it back without being the last one in. */
  lemma GiveBack(c: Config, R: iset<State>, s: State, t: nat, u: nat, h: nat) returns (s': State)
    requires Closed(c, R) && s in R && TooEarly(s, t, u) && |s.threads| == T(c)
    requires h < T(c) && h != t && s.bar.mtx == h && h != u
    requires s.threads[h].pc.Check? || s.threads[h].pc.Unlock? || s.threads[h].pc.Sending?
    requires s.threads[h].pc.Check? ==> s.bar.counter != 0
    ensures s' in R && TooEarly(s', t, u) && |s'.threads| == T(c) && s'.bar.mtx == FREE
  {
    s' := Apply(c, s, Run(h));
  }

  lemma GiveBackOwn(c: Config, R: iset<State>, s: State, t: nat, u: nat) returns (s': State)
    requires Closed(c, R) && s in R && TooEarly(s, t, u) && |s.threads| == T(c) && s.bar.mtx == u
    requires s.threads[u].pc.Unlock? || s.threads[u].pc.Sending?
    ensures s' in R && TooEarly(s', t, u) && |s'.threads| == T(c) && s'.bar.mtx == FREE
  {
    s' := Apply(c, s, Run(u));
  }

  /** Somebody is not in: the others are not the last, so the counter is not yet zero. */
  lemma NotLast(c: Config, s: State, u: nat, h: nat)
    requires BarrierInv(c, s) && u < T(c) && h < T(c) && u != h && s.bar.mtx == h
    requires s.threads[u].entered != s.bar.gen + 1
    ensures !Turning(s.threads[h].pc)
    ensures s.threads[h].pc.Check? ==> s.bar.counter != 0
    ensures s.threads[h].pc.Dec? ==> s.bar.counter != 1
  {
    ArrivedAll(s.threads, s.bar.gen);
    assert ThreadInv(s.bar.gen, s.threads[h]);
    if s.threads[h].pc.Dec? {
      var th := Thread(Check, s.bar.gen + 1, s.bar.gen);
      ArrivedUpdate(s.threads, h, th, s.bar.gen);
      ArrivedAll(s.threads[h := th], s.bar.gen);
      assert s.threads[h := th][u].entered != s.bar.gen + 1;
    }
  }

  lemma FreeLock(c: Config, R: iset<State>, s: State, t: nat, u: nat) returns (s': State)
    requires Closed(c, R) && BarrierInv(c, s) && t < T(c) && u < T(c) && s.threads[t].pc.Waiting?
    requires Returned(s, t) in R && s.bar.mtx != FREE
    requires s.threads[u].entered != s.bar.gen + 1 && !s.threads[u].pc.Dec?
    ensures s' in R && TooEarly(s', t, u) && |s'.threads| == T(c) && s'.bar.mtx == FREE
  {
    var h := s.bar.mtx;
    assert Holds(s.threads[h].pc);
    assert ThreadInv(s.bar.gen, s.threads[u]) && ThreadInv(s.bar.gen, s.threads[t]);
    s' := Returned(s, t);
    if h == u {
      s' := GiveBackOwn(c, R, s', t, u);
    } else {
      NotLast(c, s, u, h);
      if s.threads[h].pc.Dec? { s' := Apply(c, s', Run(h)); }
      s' := GiveBack(c, R, s', t, u, h);
    }
  }

  lemma BreaksFrom(c: Config, R: iset<State>, s: State, t: nat, u: nat) returns (s': State)
    requires Closed(c, R) && BarrierInv(c, s) && t < T(c) && u < T(c) && s.threads[t].pc.Waiting?
    requires Returned(s, t) in R
    requires s.threads[u].entered != s.bar.gen + 1 && !s.threads[u].pc.Dec?
    ensures s' in R && !BarrierSafe(s')
  {
    assert ThreadInv(s.bar.gen, s.threads[u]) && ThreadInv(s.bar.gen, s.threads[t]);
    s' := Returned(s, t);
    if s.bar.mtx != FREE { s' := FreeLock(c, R, s, t, u); }
    s' := WalkThrough(c, R, s', t, u);
  }

  // --------------------------------------------------------------- the exact condition

  /** Some continuation without further spurious returns breaks the barrier. */
  ghost predicate CanBreak(c: Config, a: seq<Step>) {
    exists b :: NoSpurious(b) && Legal(c, a + b) && !BarrierSafe(After(c, a + b))
  }

  /** One return of `t` without a broadcast can break the barrier if and only if some thread
      has not entered and is not just about to be counted. */
  lemma SpuriousReturnIff(c: Config, steps: seq<Step>, t: nat)
    requires T(c) >= 1 && Legal(c, steps) && NoSpurious(steps) && t < T(c)
    requires t < |After(c, steps).threads| && After(c, steps).threads[t].pc.Waiting?
    ensures Legal(c, steps + [Spurious(t)])
    ensures CanBreak(c, steps + [Spurious(t)]) <==> !AllIn(After(c, steps))
  {
    var s, a := After(c, steps), steps + [Spurious(t)];
    BarrierHolds(c, steps);
    AfterNext(c, steps, Spurious(t));
    assert After(c, a) == Returned(s, t);
    if AllIn(s) {
      assert Early(c, After(c, a), s, t);
      forall b | NoSpurious(b) && Legal(c, a + b) ensures BarrierSafe(After(c, a + b)) {
        StaysHarmless(c, a, b, t);
        HarmlessIsSafe(c, After(c, a + b), t);
      }
    } else {
      var u :| 0 <= u < |s.threads| && !(s.threads[u].entered == s.bar.gen + 1 || s.threads[u].pc.Dec?);
      ReachIsClosed(c, a);
      var s' := BreaksFrom(c, (iset x | Reach(c, a, x)), s, t, u);
    }
  }

  // ------------------------------------------------------------------ a concrete run

  function TwoThreads(): Config {
    Config(1, [1], [1], [Slice(0, 1), Slice(1, 0)], 2)
  }

  /** Thread 0 locks, is counted and waits. */
  lemma FirstWaits()
    ensures var a := [Run(0), Run(0), Run(0)];
            && Legal(TwoThreads(), a)
            && After(TwoThreads(), a).threads == [Thread(Waiting, 1, 0), Thread(Outside, 0, 0)]
            && After(TwoThreads(), a).bar == Barrier(1, FREE, 0)
  {
    var c := TwoThreads();
    AfterNext(c, [], Run(0));
    AfterNext(c, [Run(0)], Run(0));
    AfterNext(c, [Run(0), Run(0)], Run(0));
    assert [] + [Run(0)] == [Run(0)] && [Run(0)] + [Run(0)] == [Run(0), Run(0)];
    assert [Run(0), Run(0)] + [Run(0)] == [Run(0), Run(0), Run(0)];
  }

  /** Two threads: after one spurious return the first one computes, although the second has
      not reached the barrier. */
  lemma SpuriousReturnBreaks()
    ensures var a := [Run(0), Run(0), Run(0)] + [Spurious(0)] + [Run(0)] + [Run(0)];
            && Legal(TwoThreads(), a)
            && After(TwoThreads(), a).threads == [Thread(Calc(0, 0), 1, 1), Thread(Outside, 0, 0)]
            && !BarrierSafe(After(TwoThreads(), a))
  {
    var c, a := TwoThreads(), [Run(0), Run(0), Run(0)];
    FirstWaits();
    AfterNext(c, a, Spurious(0));
    AfterNext(c, a + [Spurious(0)], Run(0));
    AfterNext(c, a + [Spurious(0)] + [Run(0)], Run(0));
    var s := After(c, a + [Spurious(0)] + [Run(0)] + [Run(0)]);
    assert s.threads[0].left > s.threads[1].entered;
  }
}
