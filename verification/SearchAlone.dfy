/** What a thread of the search does when the others pause: the steps of the BFS thread are the
    breadth-first search of the imperative model, and those of a worker are unsafeGetData and
    my_DFS. */
module SearchAlone {
  import opened SearchProtocol
  import B = BreadthFirst

  /** The state after `n` steps of the BFS thread. */
  function MainAlone(c: Config, s: State, n: nat): State {
    if n == 0 then s else MainStep(c, MainAlone(c, s, n - 1))
  }

  ghost predicate MainReaches(c: Config, s: State, s': State) {
    exists n: nat :: MainAlone(c, s, n) == s'
  }

  ghost predicate MainClosed(c: Config, R: iset<State>) {
    forall s :: s in R ==> MainStep(c, s) in R
  }

  lemma MainRun1(c: Config, R: iset<State>, s: State) returns (s': State)
    requires MainClosed(c, R) && s in R
    ensures s' == MainStep(c, s) && s' in R
  {
    s' := MainStep(c, s);
  }

  lemma ReachedIsClosed(c: Config, s: State)
    ensures MainClosed(c, (iset x | MainReaches(c, s, x))) && MainReaches(c, s, s)
  {
    assert MainAlone(c, s, 0) == s;
    forall x | MainReaches(c, s, x) ensures MainReaches(c, s, MainStep(c, x)) {
      var n: nat :| MainAlone(c, s, n) == x;
      assert MainAlone(c, s, n + 1) == MainStep(c, x);
    }
  }

  // ------------------------------------------------------------------ processCurrentNode

  /** The edges of the matrix are those of the machine. */
  ghost predicate SameEdges(c: Config, m: seq<int>) {
    forall u, v :: 0 <= u < c.V && 0 <= v < c.V ==> (B.Edge(c.V, m, u, v) <==> (u, v) in c.adj)
  }

  ghost predicate Shaped(c: Config, s: State) {
    c.V >= 1 && 0 <= c.root < c.V && |s.visited| == c.V && B.Shape(c.V, c.root, s.q.slots, s.q.length)
  }

  /** The scan of the queue ends at a hit or at the first free slot. */
  lemma {:induction false} LineAlone(c: Config, R: iset<State>, s: State) returns (s': State)
    requires MainClosed(c, R) && s in R && Shaped(c, s) && s.main.Line? && s.main.i != EMPTY
    requires 0 <= s.main.k <= s.q.length && s.main.i !in s.q.slots[..s.main.k]
    ensures s' in R
    ensures s' == s.(main := if s.main.i in s.q.slots[..s.q.length] then Scan(s.main.id, s.main.i + 1)
                             else Write(s.main.id, s.main.i))
    decreases s.q.length - s.main.k
  {
    var k, q, n := s.main.k, s.q.slots, s.q.length;
    s' := MainRun1(c, R, s);
    if k < n {
      assert q[k] in q[..n] && q[..k + 1] == q[..k] + [q[k]];
      if q[k] != s.main.i { s' := LineAlone(c, R, s'); }
    }
  }

  /** One candidate: a neighbour that is neither visited nor queued is appended. */
  lemma CandidateAlone(c: Config, R: iset<State>, s: State) returns (s': State)
    requires MainClosed(c, R) && s in R && Shaped(c, s) && s.main.Scan? && 0 <= s.main.i < c.V
    ensures s' in R
    ensures var id, i := s.main.id, s.main.i;
            s' == if (id, i) in c.adj && !s.visited[i] && i !in s.q.slots[..s.q.length]
                  then s.(q := s.q.(slots := s.q.slots[s.q.length := i], length := s.q.length + 1),
                          main := Scan(id, i + 1))
                  else s.(main := Scan(id, i + 1))
  {
    var id, i := s.main.id, s.main.i;
    s' := MainRun1(c, R, s);
    if (id, i) in c.adj && !s.visited[i] {
      s' := LineAlone(c, R, s');
      if i !in s.q.slots[..s.q.length] {
        s' := MainRun1(c, R, s');
        s' := MainRun1(c, R, s');
      }
    }
  }

  lemma ScanAlone(c: Config, R: iset<State>, s: State, m: seq<int>, q0: seq<int>, n0: nat) returns (s': State)
    requires MainClosed(c, R) && s in R && Shaped(c, s) && SameEdges(c, m) && s.main.Scan?
    requires 0 <= s.main.id < c.V && 0 <= s.main.i < c.V && s.visited[c.root]
    requires B.Grown(c.V, m, c.root, s.main.id, s.visited, q0, n0, s.q.slots, s.q.length, s.main.i)
    ensures s' in R && Shaped(c, s')
    ensures s' == s.(q := s.q.(slots := s'.q.slots, length := s'.q.length), main := Scan(s.main.id, s.main.i + 1))
    ensures B.Grown(c.V, m, c.root, s.main.id, s.visited, q0, n0, s'.q.slots, s'.q.length, s.main.i + 1)
  {
    var id, i, q, n := s.main.id, s.main.i, s.q.slots, s.q.length;
    s' := CandidateAlone(c, R, s);
    if (id, i) in c.adj && !s.visited[i] && i !in q[..n] {
      B.GrownAppend(c.V, m, c.root, id, s.visited, q0, n0, q, n, i);
    } else {
      B.GrownSkip(c.V, m, c.root, id, s.visited, q0, n0, q, n, i);
    }
  }

  lemma {:induction false} ScansAlone(c: Config, R: iset<State>, s: State, m: seq<int>, q0: seq<int>, n0: nat)
    returns (s': State)
    requires MainClosed(c, R) && s in R && Shaped(c, s) && SameEdges(c, m) && s.main.Scan?
    requires 0 <= s.main.id < c.V && 0 <= s.main.i <= c.V && s.visited[c.root]
    requires B.Grown(c.V, m, c.root, s.main.id, s.visited, q0, n0, s.q.slots, s.q.length, s.main.i)
    ensures s' in R && Shaped(c, s')
    ensures s' == s.(q := s.q.(slots := s'.q.slots, length := s'.q.length), main := Head)
    ensures B.Grown(c.V, m, c.root, s.main.id, s.visited, q0, n0, s'.q.slots, s'.q.length, c.V)
    decreases c.V - s.main.i
  {
    if s.main.i == c.V {
      s' := MainRun1(c, R, s);
    } else {
      s' := ScanAlone(c, R, s, m, q0, n0);
      s' := ScansAlone(c, R, s', m, q0, n0);
    }
  }

  /** What processCurrentNode promises: nothing for a visited vertex; otherwise the vertex is
      marked and exactly its neighbours that are neither visited nor queued are appended. */
  ghost predicate Processed(c: Config, m: seq<int>, s: State, id: int, s': State)
    requires 0 <= id < c.V && |s.visited| == c.V
  {
    && s' == s.(q := s.q.(slots := s'.q.slots, length := s'.q.length), visited := s.visited[id := true], main := Head)
    && (if s.visited[id] then s'.q == s.q
        else B.Grown(c.V, m, c.root, id, s'.visited, s.q.slots, s.q.length, s'.q.slots, s'.q.length, c.V))
  }

  lemma ProcessAlone(c: Config, R: iset<State>, s: State, m: seq<int>) returns (s': State)
    requires MainClosed(c, R) && s in R && Shaped(c, s) && SameEdges(c, m) && s.main.Enter?
    requires 0 <= s.main.id < c.V && (s.visited[c.root] || s.main.id == c.root)
    ensures s' in R && Shaped(c, s') && Processed(c, m, s, s.main.id, s')
  {
    var id := s.main.id;
    s' := MainRun1(c, R, s);
    if s.visited[id] {
      assert s.visited[id := true] == s.visited;
    } else {
      s' := MainRun1(c, R, s');
      s' := ScansAlone(c, R, s', m, s.q.slots, s.q.length);
    }
  }

  // ------------------------------------------------------------------------ the main loop

  /** The test of the outer loop. */
  lemma HeadAlone(c: Config, R: iset<State>, s: State) returns (s': State)
    requires MainClosed(c, R) && s in R && Shaped(c, s) && s.main.Head? && s.q.counter <= s.q.length
    ensures s' in R && s' == s.(main := if s.q.counter == s.q.length then SetFlag else Peek)
  {
    s' := MainRun1(c, R, s);
    s' := MainRun1(c, R, s');
    if s.q.counter < s.q.length { s' := MainRun1(c, R, s'); }
  }

  lemma PeekAlone(c: Config, R: iset<State>, s: State) returns (s': State)
    requires MainClosed(c, R) && s in R && Shaped(c, s) && s.main.Peek? && s.q.counter < s.q.length
    ensures s' in R && s' == s.(main := Take)
  {
    s' := MainRun1(c, R, s);
    s' := MainRun1(c, R, s');
    s' := MainRun1(c, R, s');
  }

  /** unsafeGetData(true) with a slot left. */
  lemma TakeAlone(c: Config, R: iset<State>, s: State) returns (s': State)
    requires MainClosed(c, R) && s in R && Shaped(c, s) && s.main.Peek? && s.q.counter < s.q.length
    ensures s' in R
    ensures s' == s.(q := s.q.(counter := s.q.counter + 1), main := Notify(s.q.slots[s.q.counter]))
  {
    s' := PeekAlone(c, R, s);
    s' := MainRun1(c, R, s');
  }

  /** The parked workers are woken when at least five slots are left and some worker is not
      active. */
  ghost predicate Wakes(c: Config, s: State) {
    s.q.length - s.q.counter >= 5 && s.park.threads != c.N
  }

  lemma NotifyAlone(c: Config, R: iset<State>, s: State) returns (s': State)
    requires MainClosed(c, R) && s in R && s.main.Notify?
    ensures s' in R
    ensures s' == s.(workers := if Wakes(c, s) then WakeAll(s.workers) else s.workers,
                     main := if s.main.v == EMPTY then SetFlag else Enter(s.main.v))
  {
    s' := MainRun1(c, R, s);
    s' := MainRun1(c, R, s');
    if s.q.length - s.q.counter >= 5 {
      s' := MainRun1(c, R, s');
      if s.park.threads != c.N { s' := MainRun1(c, R, s'); }
    }
  }

  /** What the head of the loop and unsafeGetData(true) promise: the next slot is taken and its
      vertex processed next, or the loop ends exactly when every slot has been handed out. */
  ghost predicate Turned(c: Config, s: State, s': State)
    requires Shaped(c, s) && s.q.counter <= s.q.length
  {
    if s.q.counter == s.q.length then s' == s.(mainFlag := true, main := Spin)
    else
      var took := s.(q := s.q.(counter := s.q.counter + 1));
      s' == took.(workers := if Wakes(c, took) then WakeAll(s.workers) else s.workers,
                  main := Enter(s.q.slots[s.q.counter]))
  }

  lemma TurnAlone(c: Config, R: iset<State>, s: State) returns (s': State)
    requires MainClosed(c, R) && s in R && Shaped(c, s) && s.main.Head? && s.q.counter <= s.q.length
    ensures s' in R && Turned(c, s, s')
  {
    s' := HeadAlone(c, R, s);
    if s.q.counter == s.q.length {
      s' := MainRun1(c, R, s');
    } else {
      s' := TakeAlone(c, R, s');
      s' := NotifyAlone(c, R, s');
    }
  }

  /** The BFS thread stands at the head of its loop; everything met but not yet handed out is
      still to be processed. */
  ghost predicate AtHead(c: Config, m: seq<int>, s: State, level: seq<nat>) {
    && Shaped(c, s) && s.main.Head? && !s.mainFlag && s.q.counter <= s.q.length
    && B.Progress(c.V, m, c.root, s.visited, s.q.slots, s.q.length, level, s.q.counter + 1)
  }

  lemma {:induction false} LoopAlone(c: Config, R: iset<State>, s: State, m: seq<int>, level: seq<nat>)
    returns (s': State, level': seq<nat>)
    requires MainClosed(c, R) && s in R && SameEdges(c, m) && AtHead(c, m, s, level)
    ensures s' in R && s'.mainFlag && Shaped(c, s') && s'.q.counter == s'.q.length
    ensures B.Progress(c.V, m, c.root, s'.visited, s'.q.slots, s'.q.length, level', s'.q.length + 1)
    decreases c.V - s.q.counter
  {
    s' := TurnAlone(c, R, s);
    level' := level;
    if s.q.counter < s.q.length {
      s', level' := RoundAlone(c, R, s, s', m, level);
      s', level' := LoopAlone(c, R, s', m, level');
    }
  }

  lemma RoundAlone(c: Config, R: iset<State>, s: State, t: State, m: seq<int>, level: seq<nat>)
    returns (s': State, level': seq<nat>)
    requires MainClosed(c, R) && t in R && SameEdges(c, m) && AtHead(c, m, s, level)
    requires Turned(c, s, t) && s.q.counter < s.q.length
    ensures s' in R && AtHead(c, m, s', level') && s'.q.counter == s.q.counter + 1
  {
    var q, n, p := s.q.slots, s.q.length, s.q.counter + 1;
    var id := B.Order(c.root, q, n)[p];
    assert id == q[s.q.counter];
    B.NextIsNew(c.V, m, c.root, s.visited, q, n, level, p);
    s' := ProcessAlone(c, R, t, m);
    B.ProgressStep(c.V, m, c.root, s.visited, q, n, s'.q.slots, s'.q.length, level, p, id);
    level' := B.Extend(level, p, s'.q.length);
  }

  lemma FirstAlone(c: Config, R: iset<State>, m: seq<int>) returns (s: State, level: seq<nat>)
    requires ValidConfig(c) && MainClosed(c, R) && SameEdges(c, m) && Init(c) in R
    ensures s in R && AtHead(c, m, s, level)
  {
    var start := Init(c);
    B.ProgressStart(c.V, m, c.root, start.visited, start.q.slots);
    assert B.Order(c.root, start.q.slots, 0)[0] == c.root;
    s := ProcessAlone(c, R, start, m);
    B.ProgressStep(c.V, m, c.root, start.visited, start.q.slots, 0, s.q.slots, s.q.length, [0], 0, c.root);
    level := B.Extend([0], 0, s.q.length);
  }

  /** The BFS thread on its own ends its loop having visited exactly the reachable vertices, and
      the vertices left the queue in nondecreasing distance from the root: what the imperative
      search promises. */
  lemma SearchesAlone(c: Config, m: seq<int>) returns (s: State, level: seq<nat>)
    requires ValidConfig(c) && SameEdges(c, m)
    ensures MainReaches(c, Init(c), s) && s.mainFlag && s.q.counter == s.q.length <= |s.q.slots| == c.V
    ensures |s.visited| == c.V && forall x :: 0 <= x < c.V ==> (s.visited[x] <==> B.Reachable(c.V, m, c.root, x))
    ensures |level| == s.q.length
    ensures forall k :: 0 <= k < s.q.length ==> B.Distance(c.V, m, c.root, s.q.slots[k], level[k])
    ensures forall i, j :: 0 <= i < j < s.q.length ==> level[i] <= level[j]
  {
    var R := iset x | MainReaches(c, Init(c), x);
    ReachedIsClosed(c, Init(c));
    var levels;
    s, levels := FirstAlone(c, R, m);
    s, levels := LoopAlone(c, R, s, m, levels);
    B.ProgressFinished(c.V, m, c.root, s.visited, s.q.slots, s.q.length, levels);
    level := levels[1..];
  }

  /** From any state the BFS thread can be in, processing a vertex does what processCurrentNode
      promises, whatever was marked in the meantime. */
  lemma ProcessesAlone(c: Config, s: State, m: seq<int>) returns (s': State)
    requires Shaped(c, s) && SameEdges(c, m) && s.main.Enter?
    requires 0 <= s.main.id < c.V && (s.visited[c.root] || s.main.id == c.root)
    ensures MainReaches(c, s, s') && Processed(c, m, s, s.main.id, s')
  {
    ReachedIsClosed(c, s);
    s' := ProcessAlone(c, (iset x | MainReaches(c, s, x)), s, m);
  }

  // --------------------------------------------------------------------------- a worker

  function WorkerNext(c: Config, s: State, w: nat): State {
    if w < |s.workers| then WorkerStep(c, s, w) else s
  }

  /** The state after `n` steps of worker `w`. */
  function WorkerAlone(c: Config, s: State, w: nat, n: nat): State {
    if n == 0 then s else WorkerNext(c, WorkerAlone(c, s, w, n - 1), w)
  }

  ghost predicate WorkerReaches(c: Config, s: State, w: nat, s': State) {
    exists n: nat :: WorkerAlone(c, s, w, n) == s'
  }

  ghost predicate WorkerClosed(c: Config, R: iset<State>, w: nat) {
    forall s :: s in R && w < |s.workers| ==> WorkerStep(c, s, w) in R
  }

  lemma WorkerIsClosed(c: Config, s: State, w: nat)
    ensures WorkerClosed(c, (iset x | WorkerReaches(c, s, w, x)), w) && WorkerReaches(c, s, w, s)
  {
    assert WorkerAlone(c, s, w, 0) == s;
    forall x | WorkerReaches(c, s, w, x) && w < |x.workers| ensures WorkerReaches(c, s, w, WorkerStep(c, x, w)) {
      var n: nat :| WorkerAlone(c, s, w, n) == x;
      assert WorkerAlone(c, s, w, n + 1) == WorkerNext(c, x, w);
    }
  }

  lemma GetRun1(c: Config, R: iset<State>, s: State, w: nat) returns (s': State)
    requires WorkerClosed(c, R, w) && s in R && w < |s.workers| && InGet(s.workers[w])
    ensures s' == GetStep(c, s, w) && s' in R
  {
    s' := WorkerStep(c, s, w);
  }

  /** What unsafeGetData(false) promises: nothing when at most two slots are left, otherwise the
      next slot. */
  ghost predicate Gotten(s: State, w: nat, r: bool, s': State)
    requires w < |s.workers| && s.q.counter <= s.q.length <= |s.q.slots|
  {
    if s.q.length - s.q.counter <= 2 then s' == Go(s, w, if r then Sleep else Down)
    else
      var slot := s.q.counter;
      var took := s.(q := s.q.(counter := slot + 1), hist := s.hist.(given := s.hist.given + 1));
      s' == Go(took, w, if r then Clear(slot, s.q.slots[slot]) else Unlock(slot, s.q.slots[slot]))
  }

  lemma GapAlone(c: Config, R: iset<State>, s: State, w: nat, r: bool)
    requires WorkerClosed(c, R, w) && w < |s.workers| && Go(s, w, Gap(r)) in R
    ensures Go(s, w, if s.q.length - s.q.counter > 2 then Load(r) else if r then Sleep else Down) in R
  {
    var s' := GetRun1(c, R, Go(s, w, Gap(r)), w);
    GoTwice(s, w, Gap(r), GapAt(r, s.q.length));
    s' := GetRun1(c, R, s', w);
    GoTwice(s, w, GapAt(r, s.q.length), s'.workers[w]);
  }

  /** The state after the next slot was given away. */
  function Given(s: State): State {
    s.(q := s.q.(counter := s.q.counter + 1), hist := s.hist.(given := s.hist.given + 1))
  }

  lemma LoadAlone(c: Config, R: iset<State>, s: State, w: nat, r: bool)
    requires WorkerClosed(c, R, w) && w < |s.workers| && Shaped(c, s) && s.q.counter < s.q.length
    requires Go(s, w, Load(r)) in R
    ensures Go(s, w, Full(r)) in R
  {
    var t := s.q.counter;
    var s' := GetRun1(c, R, Go(s, w, Load(r)), w);
    GoTwice(s, w, Load(r), PeekSlot(r, t));
    s' := GetRun1(c, R, s', w);
    GoTwice(s, w, PeekSlot(r, t), Full(r));
  }

  lemma FetchStep(c: Config, s: State, w: nat, r: bool)
    requires w < |s.workers| && Shaped(c, s) && s.q.counter < s.q.length
    ensures var t := s.q.counter;
            GetStep(c, Go(s, w, Fetch(r)), w) ==
            Go(Given(s), w, if r then Clear(t, s.q.slots[t]) else Unlock(t, s.q.slots[t]))
  {
    var t := s.q.counter;
    assert s.q.slots[t] != EMPTY;
    GoTwice(Given(s), w, Fetch(r), if r then Clear(t, s.q.slots[t]) else Unlock(t, s.q.slots[t]));
  }

  lemma FullStep(c: Config, s: State, w: nat, r: bool)
    requires w < |s.workers| && Shaped(c, s) && s.q.counter < s.q.length
    ensures GetStep(c, Go(s, w, Full(r)), w) == Go(s, w, Fetch(r))
  {
    GoTwice(s, w, Full(r), Fetch(r));
  }

  lemma FetchAlone(c: Config, R: iset<State>, s: State, w: nat, r: bool)
    requires WorkerClosed(c, R, w) && w < |s.workers| && Shaped(c, s) && s.q.counter < s.q.length
    requires Go(s, w, Load(r)) in R
    ensures var t := s.q.counter;
            Go(Given(s), w, if r then Clear(t, s.q.slots[t]) else Unlock(t, s.q.slots[t])) in R
  {
    LoadAlone(c, R, s, w, r);
    FullStep(c, s, w, r);
    var s' := GetRun1(c, R, Go(s, w, Full(r)), w);
    FetchStep(c, s, w, r);
    s' := GetRun1(c, R, s', w);
  }

  lemma GoTwice(s: State, w: nat, p: WorkerPc, q: WorkerPc)
    requires w < |s.workers|
    ensures Go(Go(s, w, p), w, q) == Go(s, w, q)
  {
  }

  lemma GetsAlone(c: Config, s: State, w: nat) returns (s': State)
    requires Shaped(c, s) && s.q.counter <= s.q.length && w < |s.workers| && s.workers[w].Gap?
    ensures WorkerReaches(c, s, w, s') && Gotten(s, w, s.workers[w].r, s')
  {
    var R := iset x | WorkerReaches(c, s, w, x);
    WorkerIsClosed(c, s, w);
    var r, t := s.workers[w].r, s.q.counter;
    assert Go(s, w, Gap(r)) == s;
    GapAlone(c, R, s, w, r);
    if s.q.length - t > 2 {
      FetchAlone(c, R, s, w, r);
      s' := Go(Given(s), w, if r then Clear(t, s.q.slots[t]) else Unlock(t, s.q.slots[t]));
    } else {
      s' := Go(s, w, if r then Sleep else Down);
    }
  }

  // -------------------------------------------------------------------------- my_DFS

  lemma DfsRun1(c: Config, R: iset<State>, s: State, w: nat) returns (s': State)
    requires WorkerClosed(c, R, w) && s in R && w < |s.workers| && InDfs(s.workers[w])
    ensures s' == DfsStep(c, s, w) && s' in R
  {
    s' := WorkerStep(c, s, w);
  }

  predicate Queued(s: State, x: int)
    requires s.q.length <= |s.q.slots|
  {
    x in s.q.slots[..s.q.length]
  }

  /** One slot of the scan. */
  lemma SlotStep(c: Config, s: State, w: nat, d: Dfs, i: int, k: nat)
    requires Shaped(c, s) && w < |s.workers| && i != EMPTY && k <= s.q.length
    ensures DfsStep(c, Go(s, w, InLine(d, i, k)), w) ==
            Go(s, w, if k == s.q.length then Visit(d, i)
                     else if s.q.slots[k] == i then Test(d, i + 1) else InLine(d, i, k + 1))
  {
    GoTwice(s, w, InLine(d, i, k), DfsStep(c, Go(s, w, InLine(d, i, k)), w).workers[w]);
  }

  lemma SlotAlone(c: Config, R: iset<State>, s: State, w: nat, d: Dfs, i: int, k: nat)
    requires WorkerClosed(c, R, w) && Shaped(c, s) && w < |s.workers| && i != EMPTY && k <= s.q.length
    requires Go(s, w, InLine(d, i, k)) in R
    ensures Go(s, w, if k == s.q.length then Visit(d, i)
                     else if s.q.slots[k] == i then Test(d, i + 1) else InLine(d, i, k + 1)) in R
  {
    SlotStep(c, s, w, d, i, k);
    var s' := DfsRun1(c, R, Go(s, w, InLine(d, i, k)), w);
  }

  lemma {:induction false} InLineAlone(c: Config, R: iset<State>, s: State, w: nat, d: Dfs, i: int, k: nat)
    requires WorkerClosed(c, R, w) && Shaped(c, s) && w < |s.workers| && i != EMPTY && k <= s.q.length
    requires i !in s.q.slots[..k] && Go(s, w, InLine(d, i, k)) in R
    ensures Go(s, w, if Queued(s, i) then Test(d, i + 1) else Visit(d, i)) in R
    decreases s.q.length - k
  {
    var q, n := s.q.slots, s.q.length;
    SlotAlone(c, R, s, w, d, i, k);
    if k < n {
      assert q[k] in q[..n] && q[..k + 1] == q[..k] + [q[k]];
      if q[k] != i { InLineAlone(c, R, s, w, d, i, k + 1); }
    }
  }

  /** The stack after the vertices below `i`, each pushed if it was neither visited nor queued. */
  function Pushed(s: State, d: Dfs, i: nat): (r: Dfs)
    requires s.q.length <= |s.q.slots| && i <= |s.visited|
    ensures d.stack <= r.stack && r.slot == d.slot
  {
    if i == 0 then d
    else
      var before := Pushed(s, d, i - 1);
      if s.visited[i - 1] || Queued(s, i - 1) then before
      else before.(stack := before.stack + [i - 1], pushed := before.pushed + [i - 1])
  }

  /** The marks after the vertices below `i`. */
  function MarksBelow(s: State, i: nat): (v: seq<bool>)
    requires s.q.length <= |s.q.slots| && i <= |s.visited|
    ensures |v| == |s.visited|
    ensures forall x :: 0 <= x < |v| ==> (v[x] <==> s.visited[x] || (x < i && !Queued(s, x)))
  {
    if i == 0 then s.visited
    else
      var before := MarksBelow(s, i - 1);
      if s.visited[i - 1] || Queued(s, i - 1) then before else before[i - 1 := true]
  }

  /** The search of worker `w` that started its pass in `s` has looked at the vertices below
      `i`. */
  function Swept(s: State, w: nat, d: Dfs, i: nat): State
    requires s.q.length <= |s.q.slots| && i <= |s.visited| && w < |s.workers|
  {
    Go(s.(visited := MarksBelow(s, i)), w, Test(Pushed(s, d, i), i))
  }

  ghost predicate Room(c: Config, s: State, d: Dfs)
    requires s.q.length <= |s.q.slots| && |s.visited| == c.V
  {
    forall i :: 0 <= i < c.V && !s.visited[i] && !Queued(s, i) ==> |Pushed(s, d, i).stack| < c.V
  }

  lemma TestStep(c: Config, s: State, w: nat, d: Dfs, i: nat)
    requires w < |s.workers| && |s.visited| == c.V && i <= c.V
    ensures DfsStep(c, Go(s, w, Test(d, i)), w) ==
            Go(s, w, if i == c.V then Pop(d) else if s.visited[i] then Test(d, i + 1) else InLine(d, i, 0))
  {
    GoTwice(s, w, Test(d, i), DfsStep(c, Go(s, w, Test(d, i)), w).workers[w]);
  }

  lemma SweptNext(s: State, w: nat, d: Dfs, i: nat)
    requires s.q.length <= |s.q.slots| && i < |s.visited| && w < |s.workers|
    ensures var t, e := s.(visited := MarksBelow(s, i)), Pushed(s, d, i);
            Swept(s, w, d, i + 1) ==
            if s.visited[i] || Queued(s, i) then Go(t, w, Test(e, i + 1))
            else Go(t.(visited := t.visited[i := true]), w,
                    Test(e.(stack := e.stack + [i], pushed := e.pushed + [i]), i + 1))
  {
  }

  lemma SweepOne(c: Config, R: iset<State>, s: State, w: nat, d: Dfs, i: nat)
    requires WorkerClosed(c, R, w) && Shaped(c, s) && w < |s.workers| && i < c.V && Room(c, s, d)
    requires Swept(s, w, d, i) in R
    ensures Swept(s, w, d, i + 1) in R
  {
    SweptNext(s, w, d, i);
    LookAtOne(c, R, s.(visited := MarksBelow(s, i)), w, Pushed(s, d, i), i);
  }

  /** One vertex of the pass. */
  lemma LookAtOne(c: Config, R: iset<State>, s: State, w: nat, d: Dfs, i: nat)
    requires WorkerClosed(c, R, w) && Shaped(c, s) && w < |s.workers| && i < c.V && Go(s, w, Test(d, i)) in R
    requires s.visited[i] || Queued(s, i) || |d.stack| < c.V
    ensures (if s.visited[i] || Queued(s, i) then Go(s, w, Test(d, i + 1))
             else Go(s.(visited := s.visited[i := true]), w,
                     Test(d.(stack := d.stack + [i], pushed := d.pushed + [i]), i + 1))) in R
  {
    TestStep(c, s, w, d, i);
    var s' := DfsRun1(c, R, Go(s, w, Test(d, i)), w);
    if !s.visited[i] {
      InLineAlone(c, R, s, w, d, i, 0);
      if !Queued(s, i) { VisitAlone(c, R, s, w, d, i); }
    }
  }

  lemma VisitStep(c: Config, s: State, w: nat, d: Dfs, i: nat)
    requires w < |s.workers| && i < |s.visited|
    ensures DfsStep(c, Go(s, w, Visit(d, i)), w) == Go(s.(visited := s.visited[i := true]), w, Push(d, i))
  {
    GoTwice(s.(visited := s.visited[i := true]), w, Visit(d, i), Push(d, i));
  }

  lemma PushStep(c: Config, s: State, w: nat, d: Dfs, i: nat)
    requires w < |s.workers| && |d.stack| < c.V
    ensures DfsStep(c, Go(s, w, Push(d, i)), w) ==
            Go(s, w, Test(d.(stack := d.stack + [i], pushed := d.pushed + [i]), i + 1))
  {
    GoTwice(s, w, Push(d, i), Test(d.(stack := d.stack + [i], pushed := d.pushed + [i]), i + 1));
  }

  /** A vertex is marked and pushed. */
  lemma VisitAlone(c: Config, R: iset<State>, s: State, w: nat, d: Dfs, i: nat)
    requires WorkerClosed(c, R, w) && w < |s.workers| && i < |s.visited| && |d.stack| < c.V
    requires Go(s, w, Visit(d, i)) in R
    ensures Go(s.(visited := s.visited[i := true]), w,
               Test(d.(stack := d.stack + [i], pushed := d.pushed + [i]), i + 1)) in R
  {
    VisitStep(c, s, w, d, i);
    var s' := DfsRun1(c, R, Go(s, w, Visit(d, i)), w);
    PushStep(c, s.(visited := s.visited[i := true]), w, d, i);
    s' := DfsRun1(c, R, s', w);
  }

  lemma {:induction false} Climb(reached: iset<nat>, n: nat)
    requires 0 in reached && forall i: nat :: i < n && i in reached ==> i + 1 in reached
    ensures n in reached
    decreases n
  {
    if n > 0 {
      Climb(reached, n - 1);
      assert n - 1 in reached;
    }
  }

  lemma SweepAll(c: Config, R: iset<State>, s: State, w: nat, d: Dfs)
    requires WorkerClosed(c, R, w) && Shaped(c, s) && w < |s.workers| && Room(c, s, d)
    requires Go(s, w, Test(d, 0)) in R
    ensures Go(s.(visited := MarksBelow(s, c.V)), w, Pop(Pushed(s, d, c.V))) in R
  {
    SweepTo(c, R, s, w, d);
    TestStep(c, s.(visited := MarksBelow(s, c.V)), w, Pushed(s, d, c.V), c.V);
    var s' := DfsRun1(c, R, Swept(s, w, d, c.V), w);
  }

  lemma SweepTo(c: Config, R: iset<State>, s: State, w: nat, d: Dfs)
    requires WorkerClosed(c, R, w) && Shaped(c, s) && w < |s.workers| && Room(c, s, d)
    requires Go(s, w, Test(d, 0)) in R
    ensures Swept(s, w, d, c.V) in R
  {
    var reached := iset i: nat | i <= c.V && Swept(s, w, d, i) in R;
    forall i: nat | i < c.V && i in reached ensures i + 1 in reached { SweepOne(c, R, s, w, d, i); }
    Climb(reached, c.V);
  }

  /** Every vertex is visited or queued. */
  ghost predicate AllMet(c: Config, s: State)
    requires s.q.length <= |s.q.slots| && |s.visited| == c.V
  {
    forall x :: 0 <= x < c.V ==> s.visited[x] || Queued(s, x)
  }

  lemma {:induction false} NothingPushed(c: Config, s: State, d: Dfs, i: nat)
    requires s.q.length <= |s.q.slots| && |s.visited| == c.V && AllMet(c, s) && i <= c.V
    ensures Pushed(s, d, i) == d && MarksBelow(s, i) == s.visited
  {
    if i > 0 { NothingPushed(c, s, d, i - 1); }
  }

  /** When every vertex is met a search only empties its stack. */
  lemma {:induction false} PopsAlone(c: Config, R: iset<State>, s: State, w: nat, d: Dfs)
    requires WorkerClosed(c, R, w) && Shaped(c, s) && w < |s.workers| && AllMet(c, s)
    requires Go(s, w, Pop(d)) in R
    ensures Go(s.(hist := s.hist.(searched := true)), w, Idle) in R
    decreases |d.stack|
  {
    var s' := DfsRun1(c, R, Go(s, w, Pop(d)), w);
    if d.stack == [] {
      GoTwice(s.(hist := s.hist.(searched := true)), w, Pop(d), Idle);
    } else {
      var rest := d.(stack := d.stack[..|d.stack| - 1]);
      GoTwice(s, w, Pop(d), Test(rest, 0));
      PassAlone(c, R, s, w, rest);
      PopsAlone(c, R, s, w, rest);
    }
  }

  lemma PassAlone(c: Config, R: iset<State>, s: State, w: nat, d: Dfs)
    requires WorkerClosed(c, R, w) && Shaped(c, s) && w < |s.workers| && AllMet(c, s)
    requires Go(s, w, Test(d, 0)) in R
    ensures Go(s, w, Pop(d)) in R
  {
    NothingPushed(c, s, d, c.V);
    SweepAll(c, R, s, w, d);
  }

  /** The vertex the search was started on is queued, so the stack has room for all others. */
  lemma {:induction false} StackFits(s: State, d: Dfs, v: int, i: nat)
    requires s.q.length <= |s.q.slots| && i <= |s.visited| && d.stack == [v] && 0 <= v && Queued(s, v)
    ensures |Pushed(s, d, i).stack| <= 1 + i - if v < i then 1 else 0
  {
    if i > 0 { StackFits(s, d, v, i - 1); }
  }

  /** What my_DFS does when nobody interferes: it marks every vertex that is not queued, touches
      nothing else, and its worker asks for work again. */
  lemma SearchesDepthAlone(c: Config, s: State, w: nat) returns (s': State)
    requires Shaped(c, s) && w < |s.workers| && s.workers[w].Start? && 0 <= s.workers[w].v < c.V
    requires Queued(s, s.workers[w].v)
    ensures WorkerReaches(c, s, w, s')
    ensures s' == Go(s.(visited := s'.visited, hist := s.hist.(searched := true)), w, Idle)
    ensures |s'.visited| == c.V && forall x :: 0 <= x < c.V ==> (s'.visited[x] <==> s.visited[x] || !Queued(s, x))
  {
    var R := iset x | WorkerReaches(c, s, w, x);
    WorkerIsClosed(c, s, w);
    var t := DfsRun1(c, R, s, w);
    var d := Dfs(s.workers[w].slot, [s.workers[w].v], [s.workers[w].v]);
    DepthFrom(c, R, s, w, d, s.workers[w].v);
    s' := Go(s.(visited := MarksBelow(s, c.V), hist := s.hist.(searched := true)), w, Idle);
  }

  lemma DepthFrom(c: Config, R: iset<State>, s: State, w: nat, d: Dfs, v: int)
    requires WorkerClosed(c, R, w) && Shaped(c, s) && w < |s.workers|
    requires d.stack == [v] && 0 <= v < c.V && Queued(s, v) && Go(s, w, Test(d, 0)) in R
    ensures Go(s.(visited := MarksBelow(s, c.V), hist := s.hist.(searched := true)), w, Idle) in R
  {
    RoomForAll(c, s, d, v);
    SweepAll(c, R, s, w, d);
    var t := s.(visited := MarksBelow(s, c.V));
    SweptMeetsAll(c, s, t);
    PopsAlone(c, R, t, w, Pushed(s, d, c.V));
  }

  lemma RoomForAll(c: Config, s: State, d: Dfs, v: int)
    requires Shaped(c, s) && d.stack == [v] && 0 <= v < c.V && Queued(s, v)
    ensures Room(c, s, d)
  {
    forall i | 0 <= i < c.V && !s.visited[i] && !Queued(s, i) ensures |Pushed(s, d, i).stack| < c.V {
      StackFits(s, d, v, i);
    }
  }

  lemma SweptMeetsAll(c: Config, s: State, t: State)
    requires Shaped(c, s) && t == s.(visited := MarksBelow(s, c.V))
    ensures Shaped(c, t) && AllMet(c, t)
  {
  }
}
