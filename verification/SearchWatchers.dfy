/** The two threads that watch the flags of the search without the lock: the driver, which
    reads `subThread` and then `mainThread`, and the receiving thread, which reads them the
    other way round and marks vertices in between. Each read is a move of its own. */
module SearchWatchers {
  import opened SearchProtocol
  import opened SearchInvariant
  import opened SearchDetector
  import opened SearchTheorems
  import opened SearchHazard
  import opened Sequences

  /** About to read the first flag or the second one, in the body of the loop, or past it. */
  datatype Loop = First | Second | Body | Left

  datatype Watched = Watched(search: State, driver: Loop, receiver: Loop)

  /** A step of the search, a read by the driver or the receiver, and what the receiver
      gets: a vertex or nothing. */
  datatype Move = Thread(step: Step) | Driver | Receiver | Message(v: nat) | Nothing

  predicate CanMove(c: Config, w: Watched, m: Move) {
    match m
    case Thread(step) => Enabled(c, w.search, step) && !step.Report?
    case Driver => !w.driver.Left?
    case Receiver => w.receiver.First? || w.receiver.Second?
    case Message(v) => w.receiver.Body? && Enabled(c, w.search, Report(v))
    case Nothing => w.receiver.Body?
  }

  /** Line 516: back to the start unless both reads succeed. */
  function DriverRead(w: Watched): Loop {
    if w.driver.Second? then (if w.search.mainFlag then Left else First)
    else if w.search.park.subFlag then Second else First
  }

  /** Line 355: into the body unless both reads succeed. */
  function ReceiverRead(w: Watched): Loop {
    if w.receiver.Second? then (if w.search.park.subFlag then Left else Body)
    else if w.search.mainFlag then Second else Body
  }

  function Moved(c: Config, w: Watched, m: Move): Watched
    requires CanMove(c, w, m)
  {
    match m
    case Thread(step) => w.(search := Apply(c, w.search, step))
    case Driver => w.(driver := DriverRead(w))
    case Receiver => w.(receiver := ReceiverRead(w))
    case Message(v) => w.(search := Apply(c, w.search, Report(v)), receiver := First)
    case Nothing => w.(receiver := First)
  }

  predicate Allowed(c: Config, ms: seq<Move>)
    decreases |ms|, 0
  {
    ms == [] || (Allowed(c, Front(ms)) && CanMove(c, Seen(c, Front(ms)), Last(ms)))
  }

  function Seen(c: Config, ms: seq<Move>): Watched
    requires Allowed(c, ms)
    decreases |ms|, 1
  {
    if ms == [] then Watched(Init(c), First, First) else Moved(c, Seen(c, Front(ms)), Last(ms))
  }

  // -------------------------------------------------------- the search underneath

  function StepsOf(m: Move): seq<Step> {
    match m
    case Thread(step) => [step]
    case Message(v) => [Report(v)]
    case _ => []
  }

  function Steps(ms: seq<Move>): seq<Step> {
    if ms == [] then [] else Steps(Front(ms)) + StepsOf(Last(ms))
  }

  /** Watching changes nothing: the search underneath is one of its own schedules. */
  lemma {:induction false} WatchedRuns(c: Config, ms: seq<Move>)
    requires Allowed(c, ms)
    ensures Legal(c, Steps(ms)) && After(c, Steps(ms)) == Seen(c, ms).search
  {
    if ms != [] {
      WatchedRuns(c, Front(ms));
      var m := Last(ms);
      if m.Thread? {
        NextStep(c, Steps(Front(ms)), m.step);
      } else if m.Message? {
        NextStep(c, Steps(Front(ms)), Report(m.v));
      } else {
        assert Steps(ms) == Steps(Front(ms));
      }
    }
  }

  lemma {:induction false} StepsAppend(a: seq<Move>, b: seq<Move>)
    ensures Steps(a + b) == Steps(a) + Steps(b)
  {
    if b == [] {
      assert a + b == a;
    } else {
      assert Front(a + b) == a + Front(b) && Last(a + b) == Last(b);
      StepsAppend(a, Front(b));
      Regroup(Steps(a), Steps(Front(b)), StepsOf(Last(b)));
    }
  }

  lemma Regroup(a: seq<Step>, b: seq<Step>, c: seq<Step>)
    ensures a + b + c == a + (b + c)
  {
  }

  lemma NextMove(c: Config, ms: seq<Move>, m: Move)
    requires Allowed(c, ms) && CanMove(c, Seen(c, ms), m)
    ensures Allowed(c, ms + [m]) && Seen(c, ms + [m]) == Moved(c, Seen(c, ms), m)
  {
    assert Front(ms + [m]) == ms && Last(ms + [m]) == m;
  }

  // ------------------------------------------------------------------ the verdicts

  /** The search is over: both flags are set and no worker holds work. */
  ghost predicate Settled(s: State) {
    BothFlags(s) && !Busy(s)
  }

  /** Whatever happens from now on, the search is over. */
  ghost predicate Final(c: Config, ms: seq<Move>) {
    forall more :: Allowed(c, ms + more) ==> Settled(Seen(c, ms + more).search)
  }

  lemma SettledStays(c: Config, ms: seq<Move>, more: seq<Move>)
    requires ValidConfig(c) && Allowed(c, ms) && Allowed(c, ms + more) && Settled(Seen(c, ms).search)
    ensures Settled(Seen(c, ms + more).search)
  {
    WatchedRuns(c, ms);
    WatchedRuns(c, ms + more);
    StepsAppend(ms, more);
    InvHolds(c, Steps(ms));
    QuietForever(c, Steps(ms), Steps(more));
  }

  lemma FinalIff(c: Config, ms: seq<Move>)
    requires ValidConfig(c) && Allowed(c, ms)
    ensures Final(c, ms) <==> BothFlags(Seen(c, ms).search) && !AboutToClear(Seen(c, ms).search)
  {
    var s := Seen(c, ms).search;
    WatchedRuns(c, ms);
    InvHolds(c, Steps(ms));
    if BothFlags(s) { FlagsMeanIdle(c, s); }
    if Settled(s) {
      forall more | Allowed(c, ms + more) ensures Settled(Seen(c, ms + more).search) {
        SettledStays(c, ms, more);
      }
    } else {
      assert ms + [] == ms;
    }
  }

  /** When the driver leaves its loop, its verdict is right for good if and only if at that
      moment `subThread` is still set and no worker is about to clear it. */
  lemma DriverVerdictIff(c: Config, ms: seq<Move>)
    requires ValidConfig(c) && Allowed(c, ms) && ms != [] && Last(ms) == Driver && Seen(c, ms).driver.Left?
    ensures var s := Seen(c, ms).search;
            Final(c, ms) <==> s.park.subFlag && !AboutToClear(s)
  {
    FinalIff(c, ms);
  }

  /** The receiver goes on to its second read only while `mainThread` is set. */
  lemma {:induction false} MainFlagSeen(c: Config, ms: seq<Move>)
    requires ValidConfig(c) && Allowed(c, ms)
    ensures Seen(c, ms).receiver.Second? || Seen(c, ms).receiver.Left? ==> Seen(c, ms).search.mainFlag
  {
    if ms != [] {
      MainFlagSeen(c, Front(ms));
      WatchedRuns(c, Front(ms));
      InvHolds(c, Steps(Front(ms)));
      var s, m := Seen(c, Front(ms)).search, Last(ms);
      if s.mainFlag && m.Thread? { FinalStep(c, s, m.step); }
      if s.mainFlag && m.Message? { FinalStep(c, s, Report(m.v)); }
    }
  }

  /** The receiver reads the flags in the other order and `mainThread` never falls: when it
      leaves its loop both flags are set, and they stay so if and only if no worker is about
      to clear `subThread`. */
  lemma ReceiverVerdictIff(c: Config, ms: seq<Move>)
    requires ValidConfig(c) && Allowed(c, ms) && ms != [] && Last(ms) == Receiver && Seen(c, ms).receiver.Left?
    ensures var s := Seen(c, ms).search;
            BothFlags(s) && (Final(c, ms) <==> !AboutToClear(s))
  {
    MainFlagSeen(c, ms);
    FinalIff(c, ms);
  }

  // ------------------------------------------------------------ the driver is fooled

  ghost predicate Undisturbed(ms: seq<Move>) {
    forall k :: 0 <= k < |ms| ==> ms[k].Thread? && !ms[k].step.Spurious?
  }

  /** States reached by steps of the search alone, after the moves `a`. */
  ghost predicate Behind(c: Config, a: seq<Move>, d: Loop, s: State) {
    exists b :: Undisturbed(b) && Allowed(c, a + b) && Seen(c, a + b) == Watched(s, d, First)
  }

  lemma BehindIsClosed(c: Config, a: seq<Move>, d: Loop)
    requires !c.env
    ensures Closed(c, iset s | Behind(c, a, d, s))
  {
    forall s, step | Behind(c, a, d, s) && Enabled(c, s, step) && !step.Spurious?
      ensures Behind(c, a, d, Apply(c, s, step))
    {
      var b :| Undisturbed(b) && Allowed(c, a + b) && Seen(c, a + b) == Watched(s, d, First);
      NextMove(c, a + b, Thread(step));
      assert a + b + [Thread(step)] == a + (b + [Thread(step)]) && Undisturbed(b + [Thread(step)]);
    }
  }

  /** From the filled queue on: worker 0 takes a vertex and clears the flag, and the BFS
      thread empties the queue. */
  lemma RunBetweenReads(R: iset<State>) returns (s': State)
    requires Closed(Star(), R) && Filled() in R
    ensures s' in R && s'.mainFlag && !s'.park.subFlag && s'.workers == [Start(1, 2), Woken, Woken]
  {
    var c := Star();
    s' := TakeNext(c, R, Filled());
    s' := WakeAndTake(c, R, s', 0);
    s' := RunPark(c, R, s', 0);
    s' := RunPark(c, R, s', 0);
    s' := RunPark(c, R, s', 0);
    s' := ProcessLeaf(c, R, s');
    s' := TakeRest(c, R, s');
    s' := RunMain(c, R, s');
    s' := RunMain(c, R, s');
    s' := RunMain(c, R, s');
  }

  /** The driver reads `subThread` after `a` and `mainThread` after `b`, and leaves its loop
      although worker 0 is entering my_DFS; nobody was about to clear a flag at either read. */
  ghost predicate Fooled(c: Config, a: seq<Move>, b: seq<Move>) {
    var all := a + [Driver] + b;
    && Undisturbed(a) && Undisturbed(b) && Allowed(c, a) && Allowed(c, all) && Allowed(c, all + [Driver])
    && !AboutToClear(Seen(c, a).search) && !AboutToClear(Seen(c, all).search)
    && Seen(c, all + [Driver]).driver.Left?
    && !Seen(c, all + [Driver]).search.park.subFlag
    && Seen(c, all + [Driver]).search.workers == [Start(1, 2), Woken, Woken]
  }

  lemma FirstRead() returns (a: seq<Move>)
    ensures Undisturbed(a) && Allowed(Star(), a) && Seen(Star(), a) == Watched(Filled(), First, First)
  {
    var c, none := Star(), [];
    assert Undisturbed(none) && Allowed(c, none + none) && Seen(c, none + none) == Watched(Init(c), First, First);
    BehindIsClosed(c, none, First);
    FillStar(iset x | Behind(c, none, First, x));
    var b :| Undisturbed(b) && Allowed(c, none + b) && Seen(c, none + b) == Watched(Filled(), First, First);
    a := b;
    assert none + b == b;
  }

  lemma SecondRead(a: seq<Move>) returns (b: seq<Move>)
    requires Undisturbed(a) && Allowed(Star(), a) && Seen(Star(), a) == Watched(Filled(), First, First)
    ensures Fooled(Star(), a, b)
  {
    var c, e, none := Star(), a + [Driver], [];
    NextMove(c, a, Driver);
    assert e + none == e && Undisturbed(none);
    BehindIsClosed(c, e, Second);
    var s' := RunBetweenReads(iset x | Behind(c, e, Second, x));
    b :| Undisturbed(b) && Allowed(c, e + b) && Seen(c, e + b) == Watched(s', Second, First);
    DriverLeaves(c, a, b, Filled(), s');
  }

  lemma DriverLeaves(c: Config, a: seq<Move>, b: seq<Move>, s: State, s': State)
    requires Undisturbed(a) && Allowed(c, a) && Seen(c, a).search == s && s.workers == [Waiting, Waiting, Waiting]
    requires Undisturbed(b) && Allowed(c, a + [Driver] + b) && Seen(c, a + [Driver] + b) == Watched(s', Second, First)
    requires s'.mainFlag && !s'.park.subFlag && s'.workers == [Start(1, 2), Woken, Woken]
    ensures Fooled(c, a, b)
  {
    NextMove(c, a + [Driver] + b, Driver);
  }

  /** Reading the flags at two moments can fool the driver, with the program's own three
      workers, without spurious wakeups and without marks from outside. */
  lemma SplitReadIsUnsafe()
    ensures Star().N == 3 && !Star().env
    ensures exists a, b :: Fooled(Star(), a, b)
  {
    var a := FirstRead();
    var b := SecondRead(a);
    assert Fooled(Star(), a, b);
  }

  // ------------------------------------------------------------------ received vertices

  /** A mark is never taken back. */
  lemma {:induction false} MarkStays(c: Config, a: seq<Step>, b: seq<Step>, v: nat)
    requires ValidConfig(c) && Legal(c, a) && Legal(c, a + b) && v < |After(c, a).visited| && After(c, a).visited[v]
    ensures v < |After(c, a + b).visited| && After(c, a + b).visited[v]
  {
    if b == [] {
      assert a + b == a;
    } else {
      assert Front(a + b) == a + Front(b) && Last(a + b) == Last(b);
      MarkStays(c, a, Front(b), v);
      InvHolds(c, a + Front(b));
      StepKeepsData(c, After(c, a + Front(b)), Last(b));
    }
  }

  lemma MessageMarks(c: Config, ms: seq<Move>, v: nat)
    requires Allowed(c, ms) && ms != [] && Last(ms) == Message(v)
    ensures v < |Seen(c, ms).search.visited| && Seen(c, ms).search.visited[v]
  {
  }

  /** A vertex the receiving thread was told of is marked from then on. */
  lemma ReceivedIsMarked(c: Config, ms: seq<Move>, v: nat, more: seq<Move>)
    requires ValidConfig(c) && Allowed(c, ms) && ms != [] && Last(ms) == Message(v) && Allowed(c, ms + more)
    ensures var s := Seen(c, ms + more).search; v < |s.visited| && s.visited[v]
  {
    MessageMarks(c, ms, v);
    WatchedRuns(c, ms);
    WatchedRuns(c, ms + more);
    StepsAppend(ms, more);
    MarkStays(c, Steps(ms), Steps(more), v);
  }
}
