/** Which vertices a finished search has met. The depth-first search tests no edge: once a
    worker got work, every vertex ends visited or handed out, reachable or not. */
module SearchCoverage {
  import opened SearchProtocol
  import opened SearchInvariant
  import opened SearchDetector
  import opened SearchTheorems
  import opened Sequences

  ghost predicate Reachable(c: Config, x: int) {
    exists p :: Path(c, p) && Last(p) == x
  }

  lemma EdgeReaches(c: Config, u: int, x: int)
    requires Reachable(c, u) && (u, x) in c.adj && Vertex(c, x)
    ensures Reachable(c, x)
  {
    var p :| Path(c, p) && Last(p) == u;
    var q := p + [x];
    forall i | 0 < i < |q| ensures (q[i - 1], q[i]) in c.adj {
      if i < |p| { assert q[i] == p[i]; } else { assert q[i] == x; }
    }
    assert Path(c, q) && Last(q) == x;
  }

  lemma RootReached(c: Config)
    requires ValidConfig(c)
    ensures Reachable(c, c.root)
  {
    assert Path(c, [c.root]) && Last([c.root]) == c.root;
  }

  // ------------------------------------------------- the BFS thread on its own is exact

  ghost predicate MarksSound(c: Config, s: State) {
    forall x :: 0 <= x < |s.visited| && s.visited[x] ==> Reachable(c, x)
  }

  ghost predicate QueueSound(c: Config, s: State) {
    forall k :: 0 <= k < |s.q.slots| && s.q.slots[k] != EMPTY ==> Reachable(c, s.q.slots[k])
  }

  /** The vertex in the BFS thread's hand, and the neighbour it is looking at. */
  ghost predicate MainSound(c: Config, m: MainPc) {
    && (m.Enter? || m.Mark? || Scanning(m) ==> Reachable(c, m.id))
    && (m.Line? || m.Write? || m.Bump? ==> Reachable(c, m.i))
    && (Handing(m) ==> Reachable(c, m.v))
  }

  ghost predicate Sound(c: Config, s: State) {
    MarksSound(c, s) && QueueSound(c, s) && MainSound(c, s.main)
  }

  lemma ProcessSound(c: Config, s: State)
    requires DataInv(c, s) && Sound(c, s) && InProcess(s.main)
    ensures Sound(c, ProcessStep(c, s))
  {
    if s.main.Scan? && s.main.i < c.V && (s.main.id, s.main.i) in c.adj {
      EdgeReaches(c, s.main.id, s.main.i);
    }
  }

  lemma TurnSound(c: Config, s: State)
    requires DataInv(c, s) && Sound(c, s) && !InProcess(s.main)
    ensures Sound(c, TurnStep(c, s))
  {
  }

  /** While no worker has taken work and nothing is marked from outside, every vertex marked
      or queued is reachable. */
  lemma StepKeepsSound(c: Config, s: State, step: Step)
    requires Inv(c, s) && Enabled(c, s, step) && !c.env && Apply(c, s, step).hist.given == 0 && Sound(c, s)
    ensures Sound(c, Apply(c, s, step))
  {
    match step
    case MainRun => if InProcess(s.main) { ProcessSound(c, s); } else { TurnSound(c, s); }
    case WorkerRun(w) =>
      WorkerGives(c, s, w);
      assert !HasWork(s.workers[w]);
      ParkingMarksNothing(c, s, w);
    case _ =>
  }

  lemma GivenGrows(c: Config, s: State, step: Step)
    requires Inv(c, s) && Enabled(c, s, step)
    ensures s.hist.given <= Apply(c, s, step).hist.given
  {
    match step
    case MainRun => MainFrameSync(c, s);
    case WorkerRun(w) => WorkerGives(c, s, w);
    case _ =>
  }

  lemma {:induction false} SoundHolds(c: Config, steps: seq<Step>)
    requires ValidConfig(c) && Legal(c, steps) && !c.env && After(c, steps).hist.given == 0
    ensures Sound(c, After(c, steps))
  {
    if steps == [] {
      RootReached(c);
    } else {
      InvHolds(c, Front(steps));
      GivenGrows(c, After(c, Front(steps)), Last(steps));
      SoundHolds(c, Front(steps));
      StepKeepsSound(c, After(c, Front(steps)), Last(steps));
    }
  }

  // ----------------------------------------------------------------- who got work

  ghost predicate WorkerGot(h: seq<HandOut>) {
    exists k :: 0 <= k < |h| && h[k].caller.WorkerCaller?
  }

  lemma StepGives(c: Config, s: State, step: Step)
    requires Inv(c, s) && Enabled(c, s, step)
    ensures var s' := Apply(c, s, step);
            s'.hist.given == s.hist.given + One(WorkerGot(HandOutOf(s, step, s')))
  {
    var s' := Apply(c, s, step);
    match step
    case MainRun => MainFrameSync(c, s);
    case WorkerRun(w) => WorkerHandsOut(c, s, w);
    case _ =>
  }

  lemma WorkerHandsOut(c: Config, s: State, w: nat)
    requires DataInv(c, s) && w < c.N
    ensures var s' := WorkerStep(c, s, w);
            s'.hist.given == s.hist.given + One(WorkerGot(HandOutOf(s, WorkerRun(w), s')))
  {
    var s' := WorkerStep(c, s, w);
    var h := HandOutOf(s, WorkerRun(w), s');
    assert WorkerInv(c, s, s.workers[w]);
    if InGet(s.workers[w]) {
      GetGives(c, s, w);
      if h != [] { assert h[0].caller.WorkerCaller?; }
    } else if InPark(s.workers[w]) {
      ParkGives(c, s, w);
    } else {
      DfsGives(c, s, w);
    }
  }

  lemma {:induction false} GivenIff(c: Config, steps: seq<Step>)
    requires ValidConfig(c) && Legal(c, steps)
    ensures After(c, steps).hist.given > 0 <==> WorkerGot(HandOuts(c, steps))
  {
    if steps != [] {
      GivenIff(c, Front(steps));
      InvHolds(c, Front(steps));
      StepGives(c, After(c, Front(steps)), Last(steps));
      GotAppend(HandOuts(c, Front(steps)), HandOutOf(After(c, Front(steps)), Last(steps), After(c, steps)));
    }
  }

  lemma GotAppend(a: seq<HandOut>, b: seq<HandOut>)
    ensures WorkerGot(a + b) <==> WorkerGot(a) || WorkerGot(b)
  {
    if WorkerGot(a) {
      var k :| 0 <= k < |a| && a[k].caller.WorkerCaller?;
      assert (a + b)[k].caller.WorkerCaller?;
    }
    if WorkerGot(b) {
      var k :| 0 <= k < |b| && b[k].caller.WorkerCaller?;
      assert (a + b)[|a| + k].caller.WorkerCaller?;
    }
  }

  // ------------------------------------------------------------------- what is met

  /** The search is over and its verdict is final. */
  ghost predicate Over(s: State) {
    BothFlags(s) && !AboutToClear(s)
  }

  lemma QuietMeetsAll(c: Config, s: State, h: seq<HandOut>, x: int)
    requires Quiet(c, s) && Tally(s, h) && s.hist.given > 0 && Vertex(c, x)
    ensures Accounted(s, h, x)
  {
    assert Covered(s, x);
    if x in s.q.slots {
      var k :| 0 <= k < |s.q.slots| && s.q.slots[k] == x;
      assert k < s.q.counter && h[k].value == x;
    }
  }

  /** Once a worker got work, a finished search has met every vertex, also those that no path
      reaches. */
  lemma WorkersMeetEverything(c: Config, steps: seq<Step>, x: int)
    requires ValidConfig(c) && Legal(c, steps) && Over(After(c, steps))
    requires WorkerGot(HandOuts(c, steps)) && Vertex(c, x)
    ensures Accounted(After(c, steps), HandOuts(c, steps), x)
  {
    InvHolds(c, steps);
    ExactlyOnce(c, steps);
    GivenIff(c, steps);
    FlagsMeanIdle(c, After(c, steps));
    QuietMeetsAll(c, After(c, steps), HandOuts(c, steps), x);
  }

  /** Without workers a finished search has met reachable vertices only. */
  lemma SoloMeetsReachable(c: Config, steps: seq<Step>, x: int)
    requires ValidConfig(c) && Legal(c, steps) && !c.env && !WorkerGot(HandOuts(c, steps))
    requires Accounted(After(c, steps), HandOuts(c, steps), x)
    ensures Reachable(c, x)
  {
    GivenIff(c, steps);
    SoundHolds(c, steps);
    ExactlyOnce(c, steps);
  }

  /** A finished search without outside marks has met exactly the reachable vertices if and
      only if no worker got work or every vertex is reachable. */
  lemma ExactIff(c: Config, steps: seq<Step>)
    requires ValidConfig(c) && Legal(c, steps) && !c.env && Over(After(c, steps))
    ensures (forall x :: Vertex(c, x) ==>
               (Accounted(After(c, steps), HandOuts(c, steps), x) <==> Reachable(c, x)))
            <==> !WorkerGot(HandOuts(c, steps)) || forall x :: Vertex(c, x) ==> Reachable(c, x)
  {
    var s, h := After(c, steps), HandOuts(c, steps);
    forall x | Vertex(c, x) && Reachable(c, x) ensures Accounted(s, h, x) {
      var p :| Path(c, p) && Last(p) == x;
      NothingIsLost(c, steps, p);
    }
    if WorkerGot(h) {
      forall x | Vertex(c, x) ensures Accounted(s, h, x) { WorkersMeetEverything(c, steps, x); }
    } else {
      forall x | Vertex(c, x) && Accounted(s, h, x) ensures Reachable(c, x) { SoloMeetsReachable(c, steps, x); }
    }
  }
}
