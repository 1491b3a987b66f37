/** The flags are read without `mtx` by the driver and by the receiving thread. Here is a
    run of the program's three workers, without spurious wakeups and without marks from
    outside, in which both flags are set while a worker holds a vertex it has not yet
    searched from. At the end of that run a vertex that no path reaches has been met. */
module SearchHazard {
  import opened SearchProtocol
  import opened SearchInvariant
  import opened SearchDetector
  import opened SearchCoverage
  import opened SearchLiveness
  import opened SearchTheorems
  import opened Sequences

  /** Reachable without any spurious wakeup. */
  ghost predicate Reach(c: Config, s: State) {
    exists steps :: Legal(c, steps) && After(c, steps) == s && NoSpurious(steps)
  }

  ghost predicate NoSpurious(steps: seq<Step>) {
    forall k :: 0 <= k < |steps| ==> !steps[k].Spurious?
  }

  /** A set of states closed under every step but spurious wakeups. */
  ghost predicate Closed(c: Config, R: iset<State>) {
    forall s, step :: s in R && Enabled(c, s, step) && !step.Spurious? ==> Apply(c, s, step) in R
  }

  lemma ReachIsClosed(c: Config)
    ensures Closed(c, iset s | Reach(c, s))
  {
    forall s, step | Reach(c, s) && Enabled(c, s, step) && !step.Spurious? ensures Reach(c, Apply(c, s, step)) {
      var steps :| Legal(c, steps) && After(c, steps) == s && NoSpurious(steps);
      var longer := steps + [step];
      assert Front(longer) == steps && Last(longer) == step;
      assert Legal(c, longer) && NoSpurious(longer);
    }
  }

  lemma RunMain(c: Config, R: iset<State>, s: State) returns (s': State)
    requires Closed(c, R) && s in R && !s.main.Done?
    ensures s' == MainStep(c, s) && s' in R
  {
    s' := Apply(c, s, MainRun);
  }

  lemma RunGet(c: Config, R: iset<State>, s: State, w: nat) returns (s': State)
    requires Closed(c, R) && s in R && w < |s.workers| && InGet(s.workers[w])
    ensures s' == GetStep(c, s, w) && s' in R
  {
    s' := Apply(c, s, WorkerRun(w));
  }

  lemma RunPark(c: Config, R: iset<State>, s: State, w: nat) returns (s': State)
    requires Closed(c, R) && s in R && w < |s.workers| && InPark(s.workers[w]) && !s.workers[w].Waiting?
    requires s.workers[w].Idle? || s.workers[w].Woken? ==> s.park.mtx == FREE
    ensures s' == ParkStep(c, s, w) && s' in R
  {
    s' := Apply(c, s, WorkerRun(w));
  }

  // ------------------------------------------------------------ pieces of a run

  /** A worker that finds too little work parks. */
  lemma ParkIdle(c: Config, R: iset<State>, s: State, w: nat) returns (s': State)
    requires Closed(c, R) && s in R && w < |s.workers| && s.workers[w].Idle? && s.park.mtx == FREE
    requires s.q.length - s.q.counter <= 2
    ensures s' in R
    ensures s' == s.(workers := s.workers[w := Waiting],
                     park := Parking(s.park.subFlag || s.park.threads == 1, s.park.threads - 1, FREE))
  {
    s' := RunPark(c, R, s, w);
    s' := RunGet(c, R, s', w);
    s' := RunGet(c, R, s', w);
    s' := RunPark(c, R, s', w);
    s' := RunPark(c, R, s', w);
    s' := RunPark(c, R, s', w);
    assert s'.workers == s.workers[w := Waiting];
  }

  /** The scan for `i` runs past the filled slots. */
  lemma {:induction false} LineToEnd(c: Config, R: iset<State>, s: State) returns (s': State)
    requires Closed(c, R) && s in R && s.main.Line? && |s.q.slots| == c.V && 0 <= s.main.k <= s.q.length < c.V
    requires forall k :: 0 <= k < s.q.length ==> s.q.slots[k] != EMPTY && s.q.slots[k] != s.main.i
    requires s.q.slots[s.q.length] == EMPTY
    ensures s' in R && s' == s.(main := Write(s.main.id, s.main.i))
    decreases c.V - s.main.k
  {
    s' := RunMain(c, R, s);
    if s.main.k < s.q.length { s' := LineToEnd(c, R, s'); }
  }

  /** A new neighbour is appended to the queue. */
  lemma Enqueue(c: Config, R: iset<State>, s: State) returns (s': State)
    requires Closed(c, R) && s in R && s.main.Scan? && 0 <= s.main.i < c.V
    requires |s.q.slots| == |s.visited| == c.V && s.q.length < c.V
    requires (s.main.id, s.main.i) in c.adj && !s.visited[s.main.i]
    requires forall k :: 0 <= k < s.q.length ==> s.q.slots[k] != EMPTY && s.q.slots[k] != s.main.i
    requires s.q.slots[s.q.length] == EMPTY
    ensures s' in R
    ensures s' == s.(q := Queue(s.q.slots[s.q.length := s.main.i], s.q.length + 1, s.q.counter),
                     main := Scan(s.main.id, s.main.i + 1))
  {
    s' := RunMain(c, R, s);
    s' := LineToEnd(c, R, s');
    s' := RunMain(c, R, s');
    s' := RunMain(c, R, s');
  }

  /** A scan that meets no new neighbour ends. */
  lemma {:induction false} ScanToEnd(c: Config, R: iset<State>, s: State) returns (s': State)
    requires Closed(c, R) && s in R && s.main.Scan? && 0 <= s.main.i <= c.V && |s.visited| == c.V
    requires forall x :: s.main.i <= x < c.V && (s.main.id, x) in c.adj ==> s.visited[x]
    ensures s' in R && s' == s.(main := Head)
    decreases c.V - s.main.i
  {
    s' := RunMain(c, R, s);
    if s.main.i < c.V { s' := ScanToEnd(c, R, s'); }
  }

  /** The BFS thread takes the next vertex, waking the parked workers if much is left. */
  lemma TakeNext(c: Config, R: iset<State>, s: State) returns (s': State)
    requires Closed(c, R) && s in R && s.main.Head? && s.q.counter < s.q.length < c.V && |s.q.slots| == c.V
    requires s.q.slots[s.q.counter] != EMPTY && s.park.threads != c.N
    ensures s' in R
    ensures s' == s.(q := s.q.(counter := s.q.counter + 1), main := Enter(s.q.slots[s.q.counter]),
                     workers := if s.q.length - (s.q.counter + 1) >= 5 then WakeAll(s.workers) else s.workers)
  {
    s' := LookAndTake(c, R, s);
    s' := RunMain(c, R, s');
    s' := RunMain(c, R, s');
    if s'.main.NotifyIf? {
      s' := RunMain(c, R, s');
      s' := RunMain(c, R, s');
    }
  }

  lemma LookAndTake(c: Config, R: iset<State>, s: State) returns (s': State)
    requires Closed(c, R) && s in R && s.main.Head? && s.q.counter < s.q.length < c.V && |s.q.slots| == c.V
    requires s.q.slots[s.q.counter] != EMPTY
    ensures s' in R
    ensures s' == s.(q := s.q.(counter := s.q.counter + 1), main := Notify(s.q.slots[s.q.counter]))
  {
    s' := RunMain(c, R, s);
    s' := RunMain(c, R, s');
    s' := RunMain(c, R, s');
    s' := RunMain(c, R, s');
    s' := RunMain(c, R, s');
    s' := RunMain(c, R, s');
    s' := RunMain(c, R, s');
  }

  /** The BFS thread processes a vertex that has no new neighbour. */
  lemma ProcessLeaf(c: Config, R: iset<State>, s: State) returns (s': State)
    requires Closed(c, R) && s in R && s.main.Enter? && |s.visited| == c.V
    requires 0 <= s.main.id < c.V && !s.visited[s.main.id]
    requires forall x :: 0 <= x < c.V && (s.main.id, x) in c.adj ==> s.visited[x]
    ensures s' in R && s' == s.(visited := s.visited[s.main.id := true], main := Head)
  {
    s' := RunMain(c, R, s);
    s' := RunMain(c, R, s');
    s' := ScanToEnd(c, R, s');
  }

  /** A woken worker takes the next vertex and is about to withdraw `subThread`. */
  lemma WakeAndTake(c: Config, R: iset<State>, s: State, w: nat) returns (s': State)
    requires Closed(c, R) && s in R && w < |s.workers| && s.workers[w].Woken? && s.park.mtx == FREE
    requires s.q.length - s.q.counter > 2 && s.q.length < c.V && |s.q.slots| == c.V
    requires s.q.slots[s.q.counter] != EMPTY
    ensures s' in R
    ensures s' == s.(q := s.q.(counter := s.q.counter + 1), park := s.park.(mtx := w),
                     hist := s.hist.(given := s.hist.given + 1),
                     workers := s.workers[w := Clear(s.q.counter, s.q.slots[s.q.counter])])
  {
    s' := RunPark(c, R, s, w);
    s' := RunGet(c, R, s', w);
    s' := RunGet(c, R, s', w);
    s' := RunGet(c, R, s', w);
    s' := RunGet(c, R, s', w);
    s' := RunGet(c, R, s', w);
    s' := RunGet(c, R, s', w);
  }

  // ------------------------------------------------------------------- the run

  /** A star with centre 0 and six leaves, a vertex without edges, and the program's three
      workers. */
  function Star(): Config {
    Config(8, 3, 0,
           {(0, 1), (0, 2), (0, 3), (0, 4), (0, 5), (0, 6), (1, 0), (2, 0), (3, 0), (4, 0), (5, 0), (6, 0)},
           false)
  }

  /** The queue holds all leaves while all workers are parked. */
  function Filled(): State {
    State(Queue([1, 2, 3, 4, 5, 6, EMPTY, EMPTY], 6, 0), [true, false, false, false, false, false, false, false],
          Parking(true, 0, FREE), false, Head, [Waiting, Waiting, Waiting], History(0, false), false)
  }

  lemma FillStar(R: iset<State>)
    requires Closed(Star(), R) && Init(Star()) in R
    ensures Filled() in R
  {
    var c, s := Star(), Init(Star());
    s := HalfStar(R);
    s := Enqueue(c, R, s);
    s := Enqueue(c, R, s);
    s := Enqueue(c, R, s);
    s := ScanToEnd(c, R, s);
    assert s == Filled();
  }

  lemma HalfStar(R: iset<State>) returns (s: State)
    requires Closed(Star(), R) && Init(Star()) in R
    ensures s in R
    ensures s == State(Queue([1, 2, 3, EMPTY, EMPTY, EMPTY, EMPTY, EMPTY], 3, 0),
                       [true, false, false, false, false, false, false, false],
                       Parking(true, 0, FREE), false, Scan(0, 4), [Waiting, Waiting, Waiting], History(0, false), false)
  {
    var c := Star();
    s := ParkStar(R);
    s := RunMain(c, R, s);
    s := RunMain(c, R, s);
    s := RunMain(c, R, s);
    s := Enqueue(c, R, s);
    s := Enqueue(c, R, s);
    s := Enqueue(c, R, s);
  }

  lemma ParkStar(R: iset<State>) returns (s: State)
    requires Closed(Star(), R) && Init(Star()) in R
    ensures s in R
    ensures s == State(Queue([EMPTY, EMPTY, EMPTY, EMPTY, EMPTY, EMPTY, EMPTY, EMPTY], 0, 0),
                       [false, false, false, false, false, false, false, false],
                       Parking(true, 0, FREE), false, Enter(0), [Waiting, Waiting, Waiting], History(0, false), false)
  {
    var c := Star();
    s := Init(c);
    s := ParkIdle(c, R, s, 0);
    s := ParkIdle(c, R, s, 1);
    s := ParkIdle(c, R, s, 2);
  }

  /** Both flags set, yet worker 0 holds vertex 2. */
  lemma FlagsWithWorkInHand(R: iset<State>) returns (s: State)
    requires Closed(Star(), R) && Init(Star()) in R
    ensures s in R && BothFlags(s) && s.workers == [Clear(1, 2), Woken, Woken]
  {
    var c := Star();
    FillStar(R);
    s := TakeNext(c, R, Filled());
    s := WakeAndTake(c, R, s, 0);
    s := ProcessLeaf(c, R, s);
    s := TakeRest(c, R, s);
    s := RunMain(c, R, s);
    s := RunMain(c, R, s);
    s := RunMain(c, R, s);
  }

  lemma TakeRest(c: Config, R: iset<State>, s: State) returns (s': State)
    requires c == Star() && Closed(c, R) && s in R && s.main.Head?
    requires s.q == Queue([1, 2, 3, 4, 5, 6, EMPTY, EMPTY], 6, 2) && s.park.threads != c.N
    requires s.visited == [true, true, false, false, false, false, false, false]
    ensures s' in R
    ensures s' == s.(q := s.q.(counter := 6), visited := [true, true, false, true, true, true, true, false])
  {
    s' := TakeNext(c, R, s);
    s' := ProcessLeaf(c, R, s');
    s' := TakeNext(c, R, s');
    s' := ProcessLeaf(c, R, s');
    s' := TakeNext(c, R, s');
    s' := ProcessLeaf(c, R, s');
    s' := TakeNext(c, R, s');
    s' := ProcessLeaf(c, R, s');
  }

  lemma HazardIsReachable() returns (steps: seq<Step>)
    ensures Legal(Star(), steps) && NoSpurious(steps)
    ensures BothFlags(After(Star(), steps)) && After(Star(), steps).workers == [Clear(1, 2), Woken, Woken]
  {
    var c := Star();
    var R := iset s | Reach(c, s);
    var none: seq<Step> := [];
    assert Legal(c, none) && After(c, none) == Init(c) && NoSpurious(none);
    ReachIsClosed(c);
    var s := FlagsWithWorkInHand(R);
    steps :| Legal(c, steps) && After(c, steps) == s && NoSpurious(steps);
  }

  /** Both flags are set although a worker holds work, and one of them is cleared later. */
  ghost predicate WrongVerdict(c: Config, steps: seq<Step>) {
    && Legal(c, steps) && BothFlags(After(c, steps)) && Busy(After(c, steps))
    && exists b :: Legal(c, steps + b) && !BothFlags(After(c, steps + b))
  }

  /** Read without `mtx` the detector can be wrong, with the program's own three workers,
      without spurious wakeups and without marks from outside. */
  lemma UnlockedReadIsUnsafe()
    ensures Star().N == 3 && !Star().env
    ensures exists steps :: NoSpurious(steps) && WrongVerdict(Star(), steps)
  {
    var steps := HazardIsReachable();
    HazardIsWrong(steps);
  }

  lemma HazardIsWrong(steps: seq<Step>)
    requires Legal(Star(), steps) && BothFlags(After(Star(), steps))
    requires After(Star(), steps).workers == [Clear(1, 2), Woken, Woken]
    ensures WrongVerdict(Star(), steps)
  {
    assert After(Star(), steps).workers[0].Clear?;
    FlagsFinalIff(Star(), steps);
  }

  // ---------------------------------------------------------- a vertex without edges

  lemma StarIsApart()
    ensures Vertex(Star(), 7) && !Reachable(Star(), 7)
  {
    forall p | Path(Star(), p) ensures Last(p) != 7 {
      if |p| > 1 { assert (p[|p| - 2], p[|p| - 1]) in Star().adj; }
    }
  }

  lemma {:induction false} GivenStays(c: Config, a: seq<Step>, b: seq<Step>)
    requires ValidConfig(c) && Legal(c, a + b) && Legal(c, a)
    ensures After(c, a).hist.given <= After(c, a + b).hist.given
  {
    if b == [] {
      assert a + b == a;
    } else {
      assert Front(a + b) == a + Front(b) && Last(a + b) == Last(b);
      GivenStays(c, a, Front(b));
      InvHolds(c, a + Front(b));
      GivenGrows(c, After(c, a + Front(b)), Last(b));
    }
  }

  lemma HolderWasGiven(c: Config, steps: seq<Step>, w: nat)
    requires ValidConfig(c) && Legal(c, steps)
    requires w < |After(c, steps).workers| && After(c, steps).workers[w].Clear?
    ensures After(c, steps).hist.given > 0
  {
    InvHolds(c, steps);
    assert HasWork(After(c, steps).workers[w]);
  }

  /** A finished search that has met a vertex no path reaches. */
  lemma UnreachableIsMet() returns (steps: seq<Step>)
    ensures Legal(Star(), steps) && Over(After(Star(), steps)) && NoSpurious(steps)
    ensures !Reachable(Star(), 7) && Accounted(After(Star(), steps), HandOuts(Star(), steps), 7)
  {
    var c := Star();
    var begin := HazardIsReachable();
    var more := EveryRunCanEnd(c, begin);
    steps := begin + more;
    NoDeadlock(c, steps);
    HolderWasGiven(c, begin, 0);
    GivenStays(c, begin, more);
    GivenIff(c, steps);
    StarIsApart();
    WorkersMeetEverything(c, steps, 7);
  }
}
