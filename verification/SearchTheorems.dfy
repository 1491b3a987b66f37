/** What holds along every schedule of the concurrent search. */
module SearchTheorems {
  import opened Counting
  import opened SearchProtocol
  import opened SearchInvariant
  import opened SearchDetector
  import opened Sequences

  /** A legal schedule is legal up to any point. */
  lemma NextStep(c: Config, steps: seq<Step>, step: Step)
    requires Legal(c, steps) && Enabled(c, After(c, steps), step)
    ensures Legal(c, steps + [step]) && After(c, steps + [step]) == Apply(c, After(c, steps), step)
  {
    assert Front(steps + [step]) == steps && Last(steps + [step]) == step;
  }

  lemma {:induction false} LegalPrefix(c: Config, a: seq<Step>, b: seq<Step>)
    requires Legal(c, a + b)
    ensures Legal(c, a)
  {
    if b == [] {
      assert a + b == a;
    } else {
      assert Front(a + b) == a + Front(b);
      LegalPrefix(c, a, Front(b));
    }
  }

  // ---------------------------------------------------------------- the shared queue

  /** Distinct vertices without the root, then free slots; a slot that is written but not
      counted is a new vertex too. */
  ghost predicate Shaped(c: Config, s: State) {
    var filled := s.q.length + One(s.main.Bump?);
    && |s.q.slots| == c.V
    && s.q.counter <= s.q.length <= filled <= c.V - 1
    && Distinct(s.q.slots[..filled])
    && (forall k :: 0 <= k < filled ==> Vertex(c, s.q.slots[k]) && s.q.slots[k] != c.root)
    && (forall k :: filled <= k < c.V ==> s.q.slots[k] == EMPTY)
  }

  lemma InvShape(c: Config, s: State)
    requires Typed(c, s) && QueueInv(c, s) && MainInv(c, s)
    ensures Shaped(c, s)
  {
    if s.main.Bump? {
      assert s.q.slots[..s.q.length + 1] == s.q.slots[..s.q.length] + [s.main.i];
    }
  }

  /** However the threads interleave and whatever is marked from outside, no array or stack
      is overrun and the queue keeps its shape. */
  lemma QueueShape(c: Config, steps: seq<Step>)
    requires ValidConfig(c) && Legal(c, steps)
    ensures !After(c, steps).fault && Shaped(c, After(c, steps))
  {
    InvHolds(c, steps);
    InvShape(c, After(c, steps));
  }

  // --------------------------------------------------------------- exactly-once hand-out

  /** A step hands out the slot under the counter and moves the counter on, or it hands out
      nothing and leaves the counter alone. */
  lemma StepHandsOut(c: Config, s: State, step: Step)
    requires Inv(c, s) && Enabled(c, s, step)
    ensures var s' := Apply(c, s, step);
            var h := HandOutOf(s, step, s');
            || (h == [] && s'.q.counter == s.q.counter)
            || (s'.q.counter == s.q.counter + 1 && s.q.counter < s.q.length && |h| == 1
                && h[0].slot == s.q.counter && h[0].value == s.q.slots[s.q.counter])
  {
    match step
    case MainRun =>
      if InProcess(s.main) { ProcessTakesNothing(c, s); }
    case WorkerRun(w) =>
      assert WorkerInv(c, s, s.workers[w]);
      if InDfs(s.workers[w]) {
        DfsTakesNothing(c, s, w);
      } else if InPark(s.workers[w]) {
        ParkTakesNothing(c, s, w);
      } else {
        FetchTakesNext(c, s, w);
      }
    case _ =>
  }

  lemma FetchTakesNext(c: Config, s: State, w: nat)
    requires Typed(c, s) && QueueInv(c, s) && w < c.N && InGet(s.workers[w])
    ensures var s' := GetStep(c, s, w);
            var h := HandOutOf(s, WorkerRun(w), s');
            || (h == [] && s'.q.counter == s.q.counter)
            || (s'.q.counter == s.q.counter + 1 && s.q.counter < s.q.length && |h| == 1
                && h[0].slot == s.q.counter && h[0].value == s.q.slots[s.q.counter])
  {
  }

  lemma ProcessTakesNothing(c: Config, s: State)
    requires InProcess(s.main)
    ensures ProcessStep(c, s).q.counter == s.q.counter
  {
  }

  lemma DfsTakesNothing(c: Config, s: State, w: nat)
    requires w < |s.workers| && InDfs(s.workers[w])
    ensures DfsStep(c, s, w).q == s.q
  {
  }

  lemma ParkTakesNothing(c: Config, s: State, w: nat)
    requires w < |s.workers| && InPark(s.workers[w])
    ensures ParkStep(c, s, w).q == s.q
  {
  }

  /** The k-th hand-out is slot k, with the vertex that slot holds. */
  ghost predicate Tally(s: State, h: seq<HandOut>) {
    && |h| == s.q.counter <= s.q.length <= |s.q.slots|
    && (forall k :: 0 <= k < |h| ==> h[k].slot == k && h[k].value == s.q.slots[k] && h[k].value != EMPTY)
  }

  lemma TallyStep(c: Config, s: State, step: Step, h: seq<HandOut>)
    requires Inv(c, s) && Enabled(c, s, step) && Tally(s, h)
    ensures Tally(Apply(c, s, step), h + HandOutOf(s, step, Apply(c, s, step)))
  {
    StepHandsOut(c, s, step);
    StepKeepsData(c, s, step);
  }

  /** Along every schedule no slot goes to two callers, none is skipped, a caller that got
      -1 consumed nothing, and the counter is the number of hand-outs. */
  lemma {:induction false} ExactlyOnce(c: Config, steps: seq<Step>)
    requires ValidConfig(c) && Legal(c, steps)
    ensures Tally(After(c, steps), HandOuts(c, steps))
  {
    if steps != [] {
      ExactlyOnce(c, Front(steps));
      InvHolds(c, Front(steps));
      TallyStep(c, After(c, Front(steps)), Last(steps), HandOuts(c, Front(steps)));
    }
  }

  /** Nothing was handed out or added to the queue since state `s` with history `h`. */
  ghost predicate Finished(s: State, h: seq<HandOut>, s': State, h': seq<HandOut>) {
    s'.mainFlag && s'.q == s.q && s.q.counter == s.q.length && h' == h
  }

  /** Once the BFS thread has set its flag, every slot has been handed out, and whatever
      runs afterwards adds no slot and hands out nothing. */
  lemma {:induction false} MainFlagIsFinal(c: Config, a: seq<Step>, b: seq<Step>)
    requires ValidConfig(c) && Legal(c, a + b)
    requires Legal(c, a) && After(c, a).mainFlag
    ensures Finished(After(c, a), HandOuts(c, a), After(c, a + b), HandOuts(c, a + b))
  {
    InvHolds(c, a);
    if b == [] {
      assert a + b == a;
    } else {
      var e := a + Front(b);
      assert Front(a + b) == e && Last(a + b) == Last(b);
      LegalPrefix(c, e, [Last(b)]);
      MainFlagIsFinal(c, a, Front(b));
      InvHolds(c, e);
      FinalStep(c, After(c, e), Last(b));
    }
  }

  lemma FinalStep(c: Config, s: State, step: Step)
    requires Inv(c, s) && Enabled(c, s, step) && s.mainFlag
    ensures Apply(c, s, step).mainFlag && Apply(c, s, step).q == s.q
    ensures HandOutOf(s, step, Apply(c, s, step)) == []
  {
    StepHandsOut(c, s, step);
    StepKeepsData(c, s, step);
    if step.WorkerRun? {
      assert WorkerInv(c, s, s.workers[step.w]);
      WorkerKeepsOwn(c, s, step.w);
    }
  }

  // ------------------------------------------------------------- termination detection

  lemma {:induction false} CountOutCard(ps: seq<WorkerPc>)
    ensures CountOut(ps) == |set w | 0 <= w < |ps| && Out(ps[w])|
  {
    var here := set w | 0 <= w < |ps| && Out(ps[w]);
    if ps == [] {
      assert here == {};
    } else {
      CountOutCard(Front(ps));
      var n := |ps| - 1;
      var before := set w | 0 <= w < |Front(ps)| && Out(Front(ps)[w]);
      assert forall w :: 0 <= w < n ==> Front(ps)[w] == ps[w];
      assert here == if Out(ps[n]) then before + {n} else before;
    }
  }

  /** With `mtx` free, the thread counter is the number of workers that are not parked, and
      `subThread` is set exactly when everybody is parked. */
  lemma DetectorCounts(c: Config, steps: seq<Step>)
    requires ValidConfig(c) && Legal(c, steps) && After(c, steps).park.mtx == FREE
    ensures var s := After(c, steps);
            && s.park.threads == c.N - |set w | 0 <= w < |s.workers| && Parked(s.workers[w])|
            && (s.park.subFlag <==> s.park.threads == 0)
            && (s.park.subFlag <==> forall w :: 0 <= w < c.N ==> w < |s.workers| && Parked(s.workers[w]))
  {
    InvHolds(c, steps);
    var s := After(c, steps);
    assert forall w :: 0 <= w < c.N ==> !Holds(s.workers[w]);
    assert forall w :: 0 <= w < c.N ==> Out(s.workers[w]) == Parked(s.workers[w]);
    CountOutCard(s.workers);
    assert (set w | 0 <= w < |s.workers| && Out(s.workers[w]))
        == (set w | 0 <= w < |s.workers| && Parked(s.workers[w]));
    CountAll(s.workers);
  }

  /** A worker that has just taken a vertex but not yet withdrawn `subThread`. */
  ghost predicate AboutToClear(s: State) {
    exists w :: 0 <= w < |s.workers| && s.workers[w].Clear?
  }

  /** With both flags set, the only worker that can still hold work is one about to
      withdraw its flag. */
  lemma FlagsMeanIdle(c: Config, s: State)
    requires Inv(c, s) && s.mainFlag && s.park.subFlag
    ensures Busy(s) <==> AboutToClear(s)
  {
    CountAll(s.workers);
    assert !Unsettled(s);
    forall w | 0 <= w < c.N && HasWork(s.workers[w]) ensures s.workers[w].Clear? {
      assert Out(s.workers[w]);
      assert Holds(s.workers[w]);
    }
  }

  ghost predicate Quiet(c: Config, s: State) {
    Inv(c, s) && s.mainFlag && s.park.subFlag && !Busy(s)
  }

  lemma QuietStep(c: Config, s: State, step: Step)
    requires Quiet(c, s) && Enabled(c, s, step)
    ensures Quiet(c, Apply(c, s, step))
  {
    var s' := Apply(c, s, step);
    StepKeepsInv(c, s, step);
    FinalStep(c, s, step);
    FlagStays(c, s, step);
    match step
    case WorkerRun(w) =>
      WorkerGives(c, s, w);
      OthersStay(c, s, w);
      FetchFails(c, s, w);
    case MainRun => MainFrameSync(c, s);
    case _ =>
  }

  lemma FlagStays(c: Config, s: State, step: Step)
    requires Quiet(c, s) && Enabled(c, s, step)
    ensures Apply(c, s, step).park.subFlag
  {
    match step
    case MainRun => MainFrameSync(c, s);
    case WorkerRun(w) =>
      assert !HasWork(s.workers[w]);
    case _ =>
  }

  lemma FetchFails(c: Config, s: State, w: nat)
    requires Inv(c, s) && s.mainFlag && w < c.N && !InDfs(s.workers[w])
    ensures WorkerStep(c, s, w).hist.given == s.hist.given
  {
    if InPark(s.workers[w]) { ParkGives(c, s, w); }
  }

  lemma {:induction false} QuietForever(c: Config, a: seq<Step>, b: seq<Step>)
    requires ValidConfig(c) && Legal(c, a + b) && Legal(c, a) && Quiet(c, After(c, a))
    ensures Quiet(c, After(c, a + b))
  {
    if b == [] {
      assert a + b == a;
    } else {
      assert Front(a + b) == a + Front(b);
      LegalPrefix(c, a + Front(b), [Last(b)]);
      QuietForever(c, a, Front(b));
      QuietStep(c, After(c, a + Front(b)), Last(b));
    }
  }

  ghost predicate BothFlags(s: State) {
    s.mainFlag && s.park.subFlag
  }

  /** The detector is right as long as it is read with `mtx` free: from then on both flags
      stay set, no worker holds or receives work, and nothing is handed out, whatever
      wakeups come. */
  lemma DetectorIsFinal(c: Config, a: seq<Step>, b: seq<Step>)
    requires ValidConfig(c) && Legal(c, a + b) && Legal(c, a)
    requires BothFlags(After(c, a)) && After(c, a).park.mtx == FREE
    ensures BothFlags(After(c, a + b)) && !Busy(After(c, a + b))
    ensures Finished(After(c, a), HandOuts(c, a), After(c, a + b), HandOuts(c, a + b))
  {
    InvHolds(c, a);
    FlagsMeanIdle(c, After(c, a));
    QuietForever(c, a, b);
    MainFlagIsFinal(c, a, b);
  }

  /** Read without `mtx`, the two flags are final if and only if no worker is between
      taking a vertex and withdrawing `subThread`. */
  lemma FlagsFinalIff(c: Config, a: seq<Step>)
    requires ValidConfig(c) && Legal(c, a) && BothFlags(After(c, a))
    ensures (forall b :: Legal(c, a + b) ==> BothFlags(After(c, a + b))) <==> !AboutToClear(After(c, a))
  {
    var s := After(c, a);
    InvHolds(c, a);
    FlagsMeanIdle(c, s);
    if AboutToClear(s) {
      var w :| 0 <= w < |s.workers| && s.workers[w].Clear?;
      var b := [WorkerRun(w)];
      assert Front(a + b) == a && Last(a + b) == WorkerRun(w);
      assert Legal(c, a + b) && !After(c, a + b).park.subFlag;
    } else {
      forall b | Legal(c, a + b) ensures BothFlags(After(c, a + b)) {
        QuietForever(c, a, b);
      }
    }
  }

  // ------------------------------------------------------------------------- coverage

  /** A path of edges between vertices, starting at the root. */
  ghost predicate Path(c: Config, p: seq<int>) {
    && p != [] && p[0] == c.root
    && (forall i :: 0 <= i < |p| ==> Vertex(c, p[i]))
    && (forall i :: 0 < i < |p| ==> (p[i - 1], p[i]) in c.adj)
  }

  /** When the BFS thread did all the work, it has visited everything a path reaches. */
  lemma {:induction false} SoloVisits(c: Config, s: State, p: seq<int>)
    requires Inv(c, s) && !c.env && s.hist.given == 0 && s.mainFlag && Path(c, p)
    ensures s.visited[Last(p)]
  {
    if |p| > 1 {
      SoloVisits(c, s, Front(p));
      var u, x := Last(Front(p)), Last(p);
      assert u == p[|p| - 2] && (u, x) in c.adj;
      assert Covered(s, x);
      if x in s.q.slots {
        var k :| 0 <= k < |s.q.slots| && s.q.slots[k] == x;
        assert s.visited[s.q.slots[k]];
      }
    }
  }

  ghost predicate HandedOut(h: seq<HandOut>, x: int) {
    exists k :: 0 <= k < |h| && h[k].value == x
  }

  ghost predicate Accounted(s: State, h: seq<HandOut>, x: int) {
    (0 <= x < |s.visited| && s.visited[x]) || HandedOut(h, x)
  }

  lemma QuietAccounts(c: Config, s: State, h: seq<HandOut>, p: seq<int>)
    requires Quiet(c, s) && Tally(s, h) && !c.env && Path(c, p)
    ensures Accounted(s, h, Last(p))
  {
    var x := Last(p);
    if s.hist.given == 0 {
      SoloVisits(c, s, p);
    } else {
      assert Vertex(c, x) && Covered(s, x);
      if x in s.q.slots {
        var k :| 0 <= k < |s.q.slots| && s.q.slots[k] == x;
        assert k < s.q.counter && h[k].value == x;
      }
    }
  }

  /** No vertex is lost: without marks from outside, when both flags are set and final,
      every vertex with a path from the root is visited or was handed out from the queue. */
  lemma NothingIsLost(c: Config, steps: seq<Step>, p: seq<int>)
    requires ValidConfig(c) && Legal(c, steps) && !c.env
    requires BothFlags(After(c, steps)) && !AboutToClear(After(c, steps))
    requires Path(c, p)
    ensures Accounted(After(c, steps), HandOuts(c, steps), Last(p))
  {
    InvHolds(c, steps);
    ExactlyOnce(c, steps);
    FlagsMeanIdle(c, After(c, steps));
    QuietAccounts(c, After(c, steps), HandOuts(c, steps), p);
  }

  // ------------------------------------------------------------- the depth-first search

  predicate HasDfs(p: WorkerPc) {
    InDfs(p) && !p.Start?
  }

  /** Whatever the other threads do, a my_DFS call pushes each vertex at most once and its
      stack fits; when it is about to return, every vertex is visited or in the queue. */
  lemma DfsIsBounded(c: Config, steps: seq<Step>, w: nat)
    requires ValidConfig(c) && Legal(c, steps) && w < c.N
    ensures var s := After(c, steps);
            && w < |s.workers|
            && (HasDfs(s.workers[w]) ==>
                  var d := s.workers[w].d;
                  && Distinct(d.pushed) && |d.stack| <= |d.pushed| <= c.V
                  && (s.workers[w].Push? ==> |d.stack| < c.V && s.workers[w].i !in d.pushed)
                  && (s.workers[w].Pop? ==> forall x :: Vertex(c, x) ==> Covered(s, x)))
  {
    InvHolds(c, steps);
    var s := After(c, steps);
    assert WorkerInv(c, s, s.workers[w]);
    if HasDfs(s.workers[w]) {
      DistinctBelow(s.workers[w].d.pushed, c.V, {});
      if s.workers[w].Push? {
        PushKeepsDfs(c, s, s.workers[w].d, s.workers[w].i);
      }
    }
  }

  /** Steps for the vertices from `i` on: each is tested, looked up in the queue, marked
      and pushed. */
  function SweepSteps(V: nat, i: int): nat
    decreases V - i
  {
    if i >= V then 0 else V + 4 + SweepSteps(V, i + 1)
  }

  lemma {:induction false} SweepMono(V: nat, i: int)
    requires 0 <= i
    ensures SweepSteps(V, i) <= SweepSteps(V, 0)
  {
    if i > 0 { SweepMono(V, i - 1); }
  }

  lemma {:induction false} SweepClosedForm(V: nat, i: nat)
    requires i <= V
    ensures SweepSteps(V, i) == (V - i) * (V + 4)
    decreases V - i
  {
    if i < V {
      SweepClosedForm(V, i + 1);
      assert (V - i) * (V + 4) == (V - (i + 1)) * (V + 4) + (V + 4);
    }
  }

  /** Steps left in one pass over the vertices. */
  function Inner(V: nat, p: WorkerPc): int {
    match p
    case Test(_, i) => SweepSteps(V, i) + 1
    case InLine(_, i, k) => SweepSteps(V, i) - k
    case Visit(_, i) => SweepSteps(V, i) - (V + 1)
    case Push(_, i) => SweepSteps(V, i) - (V + 2)
    case _ => 0
  }

  /** Pushes and pops left. */
  function Outer(V: nat, p: WorkerPc): int {
    if HasDfs(p) then 2 * (V - |p.d.pushed|) + |p.d.stack| else 2 * V
  }

  function PassSteps(V: nat): nat {
    SweepSteps(V, 0) + 2
  }

  /** An upper bound on the steps left until my_DFS returns. */
  function Rank(V: nat, p: WorkerPc): int {
    Outer(V, p) * PassSteps(V) + Inner(V, p)
  }

  lemma InnerBound(c: Config, s: State, p: WorkerPc)
    requires Typed(c, s) && InDfs(p) && WorkerInv(c, s, p)
    ensures 0 <= Inner(c.V, p) < PassSteps(c.V)
    ensures 0 <= Outer(c.V, p) <= 2 * c.V
  {
    if HasDfs(p) { DistinctBelow(p.d.pushed, c.V, {}); }
    if p.Test? || p.InLine? || p.Visit? || p.Push? { SweepMono(c.V, p.i); }
  }

  lemma MixedRadixBound(o: int, i: int, n: nat, m: nat)
    requires 0 <= o <= n && 0 <= i < m
    ensures 0 <= o * m + i <= (n + 1) * m
  {
    assert (n + 1) * m == o * m + (n + 1 - o) * m;
    assert (n + 1 - o) * m == m + (n - o) * m;
  }

  lemma Lexicographic(o: int, i: int, o': int, i': int, m: nat)
    requires o' < o && 0 <= i && i' < m
    ensures o' * m + i' < o * m + i
  {
    assert (o - o' - 1) * m >= 0;
    assert o * m == o' * m + m + (o - o' - 1) * m;
  }

  /** A push uses up a vertex, a pop shortens the stack. */
  lemma OuterFalls(c: Config, s: State, w: nat)
    requires w < |s.workers| && (s.workers[w].Start? || s.workers[w].Push? || s.workers[w].Pop?)
    ensures var s' := DfsStep(c, s, w);
            && w < |s'.workers|
            && (s'.fault || s'.workers[w].Idle? || Outer(c.V, s'.workers[w]) < Outer(c.V, s.workers[w]))
  {
  }

  /** Any other step moves the pass over the vertices on. */
  lemma InnerFalls(c: Config, s: State, w: nat)
    requires w < |s.workers| && (s.workers[w].Test? || s.workers[w].InLine? || s.workers[w].Visit?)
    requires Typed(c, s) && QueueInv(c, s) && WorkerInv(c, s, s.workers[w])
    ensures var s' := DfsStep(c, s, w);
            && w < |s'.workers|
            && Outer(c.V, s'.workers[w]) == Outer(c.V, s.workers[w])
            && Inner(c.V, s'.workers[w]) < Inner(c.V, s.workers[w])
  {
  }

  /** Each step of the worker brings the return nearer. */
  lemma RankFalls(c: Config, s: State, w: nat)
    requires DataInv(c, s) && w < c.N && InDfs(s.workers[w])
    ensures var s' := DfsStep(c, s, w);
            && w < |s'.workers|
            && (InDfs(s'.workers[w]) ==> Rank(c.V, s'.workers[w]) < Rank(c.V, s.workers[w]))
  {
    var s' := DfsStep(c, s, w);
    var p, p' := s.workers[w], s'.workers[w];
    assert WorkerInv(c, s, p);
    WorkerKeepsOwn(c, s, w);
    if InDfs(p') {
      if p.Start? || p.Push? || p.Pop? {
        OuterFalls(c, s, w);
        InnerBound(c, s, p);
        InnerBound(c, s', p');
        Lexicographic(Outer(c.V, p), Inner(c.V, p), Outer(c.V, p'), Inner(c.V, p'), PassSteps(c.V));
      } else {
        InnerFalls(c, s, w);
      }
    }
  }

  function Runs(w: nat, steps: seq<Step>): nat {
    if steps == [] then 0 else Runs(w, Front(steps)) + One(Last(steps) == WorkerRun(w))
  }

  /** Steps of others do not move a worker that is inside my_DFS. */
  lemma DfsUndisturbed(c: Config, s: State, step: Step, w: nat)
    requires Typed(c, s) && Enabled(c, s, step) && w < c.N && InDfs(s.workers[w]) && step != WorkerRun(w)
    ensures w < |Apply(c, s, step).workers| && Apply(c, s, step).workers[w] == s.workers[w]
  {
    match step
    case MainRun => MainFrameSync(c, s);
    case WorkerRun(u) => OthersStay(c, s, u);
    case _ =>
  }

  /** Worker `w` is inside my_DFS from the end of `a` to the end of `a + b`. */
  ghost predicate StaysInDfs(c: Config, a: seq<Step>, b: seq<Step>, w: nat) {
    forall n :: 0 <= n <= |b| ==> DfsAfter(c, a + b[..n], w)
  }

  ghost predicate DfsAfter(c: Config, steps: seq<Step>, w: nat) {
    Legal(c, steps) && w < |After(c, steps).workers| && InDfs(After(c, steps).workers[w])
  }

  lemma StaysPrefix(c: Config, a: seq<Step>, b: seq<Step>, w: nat)
    requires StaysInDfs(c, a, b, w)
    ensures DfsAfter(c, a, w) && DfsAfter(c, a + b, w)
    ensures b != [] ==> StaysInDfs(c, a, Front(b), w) && Front(a + b) == a + Front(b)
  {
    assert a + b[..0] == a && a + b[..|b|] == a + b;
    if b != [] {
      forall n | 0 <= n <= |Front(b)| ensures DfsAfter(c, a + Front(b)[..n], w) {
        assert Front(b)[..n] == b[..n];
      }
    }
  }

  /** my_DFS terminates: along any schedule, with any interference, a call takes at most
      (2V + 1)(V(V + 4) + 2) steps of its own. */
  lemma DfsTerminates(c: Config, a: seq<Step>, b: seq<Step>, w: nat)
    requires ValidConfig(c) && w < c.N && StaysInDfs(c, a, b, w)
    ensures Runs(w, b) <= (2 * c.V + 1) * (c.V * (c.V + 4) + 2)
  {
    StaysPrefix(c, a, b, w);
    RankBudget(c, a, b, w);
    InvHolds(c, a);
    InvHolds(c, a + b);
    RankBound(c, After(c, a), w);
    RankBound(c, After(c, a + b), w);
  }

  lemma RankBound(c: Config, s: State, w: nat)
    requires DataInv(c, s) && w < c.N && InDfs(s.workers[w])
    ensures 0 <= Rank(c.V, s.workers[w]) <= (2 * c.V + 1) * (c.V * (c.V + 4) + 2)
  {
    var p := s.workers[w];
    assert WorkerInv(c, s, p);
    InnerBound(c, s, p);
    SweepClosedForm(c.V, 0);
    MixedRadixBound(Outer(c.V, p), Inner(c.V, p), 2 * c.V, PassSteps(c.V));
  }

  lemma {:induction false} RankBudget(c: Config, a: seq<Step>, b: seq<Step>, w: nat)
    requires ValidConfig(c) && w < c.N && StaysInDfs(c, a, b, w)
    requires DfsAfter(c, a, w) && DfsAfter(c, a + b, w)
    ensures Runs(w, b) + Rank(c.V, After(c, a + b).workers[w]) <= Rank(c.V, After(c, a).workers[w])
  {
    if b == [] {
      assert a + b == a;
    } else {
      var e := a + Front(b);
      StaysPrefix(c, a, b, w);
      StaysPrefix(c, a, Front(b), w);
      RankBudget(c, a, Front(b), w);
      InvHolds(c, e);
      assert Front(a + b) == e && Last(a + b) == Last(b);
      RankStep(c, After(c, e), Last(b), w);
    }
  }

  lemma RankStep(c: Config, s: State, step: Step, w: nat)
    requires Inv(c, s) && Enabled(c, s, step) && w < c.N && InDfs(s.workers[w])
    requires w < |Apply(c, s, step).workers| && InDfs(Apply(c, s, step).workers[w])
    ensures One(step == WorkerRun(w)) + Rank(c.V, Apply(c, s, step).workers[w]) <= Rank(c.V, s.workers[w])
  {
    if step == WorkerRun(w) {
      RankFalls(c, s, w);
    } else {
      DfsUndisturbed(c, s, step, w);
    }
  }
}
