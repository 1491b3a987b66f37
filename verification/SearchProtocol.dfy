/** The concurrent graph search of benchmark/treeSearching/test01.cpp as a machine of
    atomic steps: one breadth-first thread, any number of depth-first workers, spurious
    wakeups of the condition variable, and an environment that marks vertices visited.

    Every unlocked read or write of a shared variable is a step of its own, also inside one
    condition; the `data_mtx` section of the dequeue is one step; sections under `mtx` are
    split at every shared access and at the condition wait. Memory is sequentially
    consistent. The scan of the queue reads a slot once where the program reads it twice, for
    -1 and for the vertex: a slot that is not -1 never changes again, so the second read
    cannot differ. */
module SearchProtocol {
  import opened Sequences

  /** `V` vertices, `N` workers, the breadth-first root and the edges. `env` says whether
      the receiving thread may mark vertices on behalf of other chiplets. */
  datatype Config = Config(V: nat, N: nat, root: int, adj: set<(int, int)>, env: bool)

  ghost predicate ValidConfig(c: Config) {
    c.V >= 1 && c.N >= 1 && 0 <= c.root < c.V
  }

  const EMPTY := -1
  const FREE := -1

  /** Where the breadth-first thread is. */
  datatype MainPc =
    | Enter(id: int)                  // test visited[id] on entry of processCurrentNode
    | Mark(id: int)                   // visited[id] = true
    | Scan(id: int, i: int)           // loop head: edge to i, and i not visited?
    | Line(id: int, i: int, k: int)   // whertherInLine(i), about to read slot k
    | Write(id: int, i: int)          // about to write i into the first free slot
    | Bump(id: int, i: int)           // slot written, length not yet increased
    | Head                            // outer loop test, about to load the counter
    | HeadAt(t: int)                  // outer loop test, about to read slot t
    | HeadFull                        // outer loop test, about to read the counter again
    | Peek                            // unsafeGetData(true), about to load the counter
    | PeekAt(t: int)                  // unsafeGetData(true), about to read slot t
    | PeekFull                        // unsafeGetData(true), about to read the counter again
    | Take                            // the data_mtx section
    | Notify(v: int)                  // v taken, about to load the length
    | NotifyAt(v: int, n: int)        // length n loaded, about to compare it with the counter
    | NotifyIf(v: int)                // about to compare the thread counter
    | Cast(v: int)                    // about to broadcast
    | SetFlag                         // mainThread = true
    | Spin                            // busy waiting for subThread
    | Done

  /** One call of my_DFS. `slot` and `pushed` are history: the queue slot the call was
      started on, and every value it has pushed so far. */
  datatype Dfs = Dfs(slot: nat, stack: seq<int>, pushed: seq<int>)

  /** Where a worker is. `r` tells the retry inside the wait loop from the first attempt;
      `slot` is the slot just taken and `v` the vertex in it. */
  datatype WorkerPc =
    | Idle                                    // about to lock mtx
    | Gap(r: bool)                            // about to load the length
    | GapAt(r: bool, n: int)                  // length n loaded, n - counter <= 2 ?
    | Load(r: bool)                           // about to load the counter
    | PeekSlot(r: bool, t: int)               // about to read slot t
    | Full(r: bool)                           // about to read the counter again
    | Fetch(r: bool)                          // the data_mtx section
    | Down                                    // thread_counter -= 1
    | Judge                                   // set subThread if the counter is 0
    | Sleep                                   // about to wait on the condition
    | Waiting                                 // waiting, mtx released
    | Woken                                   // woken, mtx not yet reacquired
    | Clear(slot: nat, v: int)                // subThread = false
    | Up(slot: nat, v: int)                   // thread_counter += 1
    | Unlock(slot: nat, v: int)               // release mtx
    | Start(slot: nat, v: int)                // enter my_DFS, push v
    | Test(d: Dfs, i: int)                    // loop head: visited[i] ?
    | InLine(d: Dfs, i: int, k: int)          // whertherInLine(i), about to read slot k
    | Visit(d: Dfs, i: int)                   // visited[i] = true
    | Push(d: Dfs, i: int)                    // push i
    | Pop(d: Dfs)                             // return on an empty stack, else pop

  /** The shared queue: slots, the number of slots filled and the number handed out. */
  datatype Queue = Queue(slots: seq<int>, length: nat, counter: nat)

  /** The flag `subThread`, the thread counter and the holder of `mtx`. */
  datatype Parking = Parking(subFlag: bool, threads: int, mtx: int)

  /** Slots handed to workers so far, and whether some my_DFS has returned. */
  datatype History = History(given: nat, searched: bool)

  /** The shared variables and all program counters. `fault` records an access outside an
      array or a stack. */
  datatype State = State(
    q: Queue, visited: seq<bool>, park: Parking, mainFlag: bool,
    main: MainPc, workers: seq<WorkerPc>, hist: History, fault: bool)

  function Init(c: Config): State {
    State(Queue(seq(c.V, _ => EMPTY), 0, 0), seq(c.V, _ => false),
          Parking(false, c.N, FREE), false,
          Enter(c.root), seq(c.N, _ => Idle), History(0, false), false)
  }

  function Fault(s: State): State {
    s.(fault := true)
  }

  // ------------------------------------------------------------------ the BFS thread

  function WakeOne(p: WorkerPc): WorkerPc {
    if p.Waiting? then Woken else p
  }

  function WakeAll(ps: seq<WorkerPc>): seq<WorkerPc> {
    seq(|ps|, w requires 0 <= w < |ps| => WakeOne(ps[w]))
  }

  predicate InProcess(m: MainPc) {
    m.Enter? || m.Mark? || m.Scan? || m.Line? || m.Write? || m.Bump?
  }

  /** The steps inside processCurrentNode. */
  function ProcessStep(c: Config, s: State): State
    requires InProcess(s.main)
  {
    match s.main
    case Enter(id) =>
      if !(0 <= id < |s.visited|) then Fault(s)
      else s.(main := if s.visited[id] then Head else Mark(id))
    case Mark(id) =>
      if !(0 <= id < |s.visited|) then Fault(s)
      else s.(visited := s.visited[id := true], main := Scan(id, 0))
    case Scan(id, i) =>
      if i == c.V then s.(main := Head)
      else if (id, i) !in c.adj then s.(main := Scan(id, i + 1))
      else if !(0 <= i < |s.visited|) then Fault(s)
      else s.(main := if s.visited[i] then Scan(id, i + 1) else Line(id, i, 0))
    case Line(id, i, k) =>
      if k == c.V then s.(main := Write(id, i))
      else if !(0 <= k < |s.q.slots|) then Fault(s)
      else if s.q.slots[k] == EMPTY then s.(main := Write(id, i))
      else if s.q.slots[k] == i then s.(main := Scan(id, i + 1))
      else s.(main := Line(id, i, k + 1))
    case Write(id, i) =>
      if s.q.length >= |s.q.slots| then Fault(s)
      else s.(q := s.q.(slots := s.q.slots[s.q.length := i]), main := Bump(id, i))
    case Bump(id, i) =>
      s.(q := s.q.(length := s.q.length + 1), main := Scan(id, i + 1))
  }

  /** Where the BFS thread goes with what unsafeGetData(true) returned. */
  function Taken(v: int): MainPc {
    if v == EMPTY then SetFlag else Enter(v)
  }

  /** The steps of the outer loop and of unsafeGetData(true). */
  function TurnStep(c: Config, s: State): State
    requires !InProcess(s.main)
  {
    match s.main
    case Head =>
      s.(main := HeadAt(s.q.counter))
    case HeadAt(t) =>
      if !(0 <= t < |s.q.slots|) then Fault(s)
      else s.(main := if s.q.slots[t] == EMPTY then SetFlag else HeadFull)
    case HeadFull =>
      s.(main := if s.q.counter == c.V then SetFlag else Peek)
    case Peek =>
      s.(main := PeekAt(s.q.counter))
    case PeekAt(t) =>
      if !(0 <= t < |s.q.slots|) then Fault(s)
      else s.(main := if s.q.slots[t] == EMPTY then SetFlag else PeekFull)
    case PeekFull =>
      s.(main := if s.q.counter == c.V then SetFlag else Take)
    case Take =>
      if s.q.counter == s.q.length then s.(main := SetFlag)
      else if s.q.counter >= |s.q.slots| then Fault(s)
      else s.(q := s.q.(counter := s.q.counter + 1), main := Notify(s.q.slots[s.q.counter]))
    case Notify(v) =>
      s.(main := NotifyAt(v, s.q.length))
    case NotifyAt(v, n) =>
      s.(main := if n - s.q.counter >= 5 then NotifyIf(v) else Taken(v))
    case NotifyIf(v) =>
      s.(main := if s.park.threads != c.N then Cast(v) else Taken(v))
    case Cast(v) =>
      s.(workers := WakeAll(s.workers), main := Taken(v))
    case SetFlag =>
      s.(mainFlag := true, main := Spin)
    case Spin =>
      s.(main := if s.park.subFlag then Done else Spin)
    case Done =>
      s
  }

  function MainStep(c: Config, s: State): State {
    if InProcess(s.main) then ProcessStep(c, s) else TurnStep(c, s)
  }

  // -------------------------------------------------------------------- the workers

  /** Where a worker goes when unsafeGetData(false) answers -1. */
  function Miss(r: bool): WorkerPc {
    if r then Sleep else Down
  }

  function Go(s: State, w: nat, p: WorkerPc): State
    requires w < |s.workers|
  {
    s.(workers := s.workers[w := p])
  }

  /** Where a worker goes with the vertex `v` of `slot`. */
  function Got(r: bool, slot: nat, v: int): WorkerPc {
    if v == EMPTY then Miss(r) else if r then Clear(slot, v) else Unlock(slot, v)
  }

  predicate InGet(p: WorkerPc) {
    p.Gap? || p.GapAt? || p.Load? || p.PeekSlot? || p.Full? || p.Fetch?
  }

  /** The steps inside unsafeGetData(false). */
  function GetStep(c: Config, s: State, w: nat): State
    requires w < |s.workers| && InGet(s.workers[w])
  {
    match s.workers[w]
    case Gap(r) => Go(s, w, GapAt(r, s.q.length))
    case GapAt(r, n) => Go(s, w, if n - s.q.counter <= 2 then Miss(r) else Load(r))
    case Load(r) => Go(s, w, PeekSlot(r, s.q.counter))
    case PeekSlot(r, t) =>
      if !(0 <= t < |s.q.slots|) then Fault(s)
      else Go(s, w, if s.q.slots[t] == EMPTY then Miss(r) else Full(r))
    case Full(r) => Go(s, w, if s.q.counter == c.V then Miss(r) else Fetch(r))
    case Fetch(r) =>
      if s.q.counter == s.q.length then Go(s, w, Miss(r))
      else if s.q.counter >= |s.q.slots| then Fault(s)
      else
        var taken := s.(q := s.q.(counter := s.q.counter + 1), hist := s.hist.(given := s.hist.given + 1));
        Go(taken, w, Got(r, s.q.counter, s.q.slots[s.q.counter]))
  }

  predicate InPark(p: WorkerPc) {
    p.Idle? || p.Down? || p.Judge? || p.Sleep? || p.Waiting? || p.Woken? || p.Clear? || p.Up? || p.Unlock?
  }

  /** The other steps inside Idon_tKnowHow2Quit. */
  function ParkStep(c: Config, s: State, w: nat): State
    requires w < |s.workers| && InPark(s.workers[w])
  {
    match s.workers[w]
    case Idle => Go(s.(park := s.park.(mtx := w)), w, Gap(false))
    case Down => Go(s.(park := s.park.(threads := s.park.threads - 1)), w, Judge)
    case Judge => Go(s.(park := s.park.(subFlag := s.park.subFlag || s.park.threads == 0)), w, Sleep)
    case Sleep => Go(s.(park := s.park.(mtx := FREE)), w, Waiting)
    case Waiting => s
    case Woken => Go(s.(park := s.park.(mtx := w)), w, Gap(true))
    case Clear(slot, v) => Go(s.(park := s.park.(subFlag := false)), w, Up(slot, v))
    case Up(slot, v) => Go(s.(park := s.park.(threads := s.park.threads + 1)), w, Unlock(slot, v))
    case Unlock(slot, v) => Go(s.(park := s.park.(mtx := FREE)), w, Start(slot, v))
  }

  predicate InDfs(p: WorkerPc) {
    p.Start? || p.Test? || p.InLine? || p.Visit? || p.Push? || p.Pop?
  }

  /** The steps inside my_DFS. */
  function DfsStep(c: Config, s: State, w: nat): State
    requires w < |s.workers| && InDfs(s.workers[w])
  {
    match s.workers[w]
    case Start(slot, v) =>
      if c.V < 1 then Fault(s) else Go(s, w, Test(Dfs(slot, [v], [v]), 0))
    case Test(d, i) =>
      if i == c.V then Go(s, w, Pop(d))
      else if !(0 <= i < |s.visited|) then Fault(s)
      else Go(s, w, if s.visited[i] then Test(d, i + 1) else InLine(d, i, 0))
    case InLine(d, i, k) =>
      if k == c.V then Go(s, w, Visit(d, i))
      else if !(0 <= k < |s.q.slots|) then Fault(s)
      else if s.q.slots[k] == EMPTY then Go(s, w, Visit(d, i))
      else if s.q.slots[k] == i then Go(s, w, Test(d, i + 1))
      else Go(s, w, InLine(d, i, k + 1))
    case Visit(d, i) =>
      if !(0 <= i < |s.visited|) then Fault(s)
      else Go(s.(visited := s.visited[i := true]), w, Push(d, i))
    case Push(d, i) =>
      if |d.stack| >= c.V then Fault(s)
      else Go(s, w, Test(d.(stack := d.stack + [i], pushed := d.pushed + [i]), i + 1))
    case Pop(d) =>
      if d.stack == [] then Go(s.(hist := s.hist.(searched := true)), w, Idle)
      else Go(s, w, Test(d.(stack := d.stack[..|d.stack| - 1]), 0))
  }

  function WorkerStep(c: Config, s: State, w: nat): State
    requires w < |s.workers|
  {
    if InDfs(s.workers[w]) then DfsStep(c, s, w)
    else if InGet(s.workers[w]) then GetStep(c, s, w)
    else ParkStep(c, s, w)
  }

  // --------------------------------------------------------------------- schedules

  /** What the scheduler can choose: a thread to run, a waiter to wake without a signal,
      or a vertex the environment reports as visited. */
  datatype Step = MainRun | WorkerRun(w: nat) | Spurious(w: nat) | Report(v: nat)

  predicate Enabled(c: Config, s: State, step: Step) {
    match step
    case MainRun => !s.main.Done?
    case WorkerRun(w) =>
      && w < |s.workers|
      && !s.workers[w].Waiting?
      && (s.workers[w].Idle? || s.workers[w].Woken? ==> s.park.mtx == FREE)
    case Spurious(w) => w < |s.workers| && s.workers[w].Waiting?
    case Report(v) => c.env && v < c.V && v < |s.visited|
  }

  function Apply(c: Config, s: State, step: Step): State
    requires Enabled(c, s, step)
  {
    match step
    case MainRun => MainStep(c, s)
    case WorkerRun(w) => WorkerStep(c, s, w)
    case Spurious(w) => Go(s, w, Woken)
    case Report(v) => s.(visited := s.visited[v := true])
  }

  /** A schedule is legal when every step is enabled in the state the earlier steps reach. */
  predicate Legal(c: Config, steps: seq<Step>)
    decreases |steps|, 0
  {
    steps == [] ||
    (Legal(c, Front(steps)) && Enabled(c, After(c, Front(steps)), Last(steps)))
  }

  function After(c: Config, steps: seq<Step>): State
    requires Legal(c, steps)
    decreases |steps|, 1
  {
    if steps == [] then Init(c) else Apply(c, After(c, Front(steps)), Last(steps))
  }

  // ---------------------------------------------------------------------- hand-outs

  datatype Caller = MainCaller | WorkerCaller(w: nat)

  datatype HandOut = HandOut(slot: nat, value: int, caller: Caller)

  /** The item a step returns to its caller, if any: at most one, recognised by what the
      caller holds afterwards and did not hold before. */
  function HandOutOf(s: State, step: Step, s': State): seq<HandOut> {
    match step
    case MainRun =>
      if s.main.Take? && s'.main.Notify? then [HandOut(s.q.counter, s'.main.v, MainCaller)] else []
    case WorkerRun(w) =>
      if w < |s.workers| && w < |s'.workers| && s.workers[w].Fetch? then
        match s'.workers[w]
        case Clear(slot, v) => [HandOut(slot, v, WorkerCaller(w))]
        case Unlock(slot, v) => [HandOut(slot, v, WorkerCaller(w))]
        case _ => []
      else []
    case _ => []
  }

  /** Everything handed out along a schedule, in order. */
  function HandOuts(c: Config, steps: seq<Step>): seq<HandOut>
    requires Legal(c, steps)
  {
    if steps == [] then []
    else HandOuts(c, Front(steps))
         + HandOutOf(After(c, Front(steps)), Last(steps), After(c, steps))
  }
}
