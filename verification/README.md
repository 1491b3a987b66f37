# Verified models of the chiplet benchmarks and checkpoint and trace tools

This project models the parts of the repository that carry real algorithms and state, and
proves what they guarantee. The parts are the two multi-threaded benchmarks and the gem5
scripts that reorder, bind, migrate, merge and encode data.

| files | what they model |
|---|---|
| SearchProtocol, SearchInvariant, SearchDetector, SearchTheorems, SearchCoverage, SearchLiveness, SearchHazard, SearchWatchers, SearchAlone, SearchRefines | the concurrent graph search: one breadth-first thread, any number of depth-first workers, a shared append-only queue, a parking protocol, a flag-based termination detector and the two threads that watch its flags, as a machine of atomic steps |
| BreadthFirst | the same search with the breadth-first thread alone, as the imperative code it is; SearchAlone and SearchRefines tie it to the machine |
| ParallelProduct, BarrierWakeups, ProductTheorems, ProductLiveness | the matrix benchmark: a reusable counter barrier, floor-division slices and an in-place product |
| WindowSort, Timeline, TimelineRows | the pipeline viewer: the bounded reordering window and the layout of a timeline |
| PortBinding, PortOrder, PortBindingTheorems | the one-pass port binder of the configuration reader |
| Migration, MigrationDepth, MigrationOrders, MigrationLoading, LegacyOrder | the checkpoint migration scheduler, the orders it can choose, and the loading of its scripts |
| CheckpointMerge, CheckpointContents, Decimal | the checkpoint aggregator |
| TraceText, Framing, Text, IntText | the textual and the binary form of the instruction trace |
| YearRanges, YearSpacing | the printer and reader of copyright years |
| Counting, NameOrder, Sequences, Wrappers | counting and division facts, the order of names, and small shared definitions |

Concurrent code is a deterministic step function for each thread and a schedule that picks the
next step. A theorem about runs quantifies over every legal schedule. An access outside an array
or a stack sets a `fault`, and no schedule reaches one. Memory is sequentially consistent. Every
unlocked read or write of a shared variable is a step of its own, so one condition can see two
different moments. Where a condition subtracts two shared variables the left one is read first.
One pair of reads is merged: the scan of the queue (benchmark/treeSearching/test01.cpp:207-210)
reads a slot once, because a slot that is not -1 never changes again (`StepKeepsData`). Whenever a thread goes on alone, it does what the function it is in promises
(SearchRefines).

## What turned out not to hold

Each of these is kept as the code has it, with an input that shows the failure and the condition
under which the promised behaviour does hold.

- The driver reads `subThread` and then `mainThread` without the lock. Its verdict is right for
  good exactly when, at the second read, `subThread` is still set and no worker is about to clear
  it (`DriverVerdictIff`). `SplitReadIsUnsafe` gives a run in which a worker enters its search
  between the two reads. The receiving thread reads the flags the other way round; when it leaves
  its loop both are set, and they stay so exactly when no worker is about to clear `subThread`
  (`ReceiverVerdictIff`). `UnlockedReadIsUnsafe` gives a run for both flags seen at one moment.
- The depth-first search tests no edge. Once a worker got work, every vertex ends visited or
  handed out, reachable or not, so the search is exact only if no worker got work or every vertex
  is reachable (`ExactIff`). `UnreachableIsMet` gives a finished run that has met a vertex
  without edges.
- The comment at gem5/configs/example/read_config.py:321-323 says that sorting makes exactly one
  of each pair bindable. `SortingIsNotEnough` gives a sorted list that a one-pass order could
  bind and the code rejects. The code accepts exactly the lists whose sorted order contains a
  complete one-pass selection (`GreedyIsOptimal`). With self-connections the final count can
  pass while a connection is missing (`SelfConnectionIff`, `SelfConnectionSlipsThrough`).
- The header comment at gem5/util/cpt_upgrader.py:57-61 says that a dependency on a tag with a
  downgrader asks for the tag to be gone. The code asks for it to be present (lines 140-142), and
  the model follows the code: such a script runs exactly when the tag is present
  (`RunsIffPresent`), and `CommentIsWrong` gives a script that never runs.
- With downgraders the rounds can abort although an order exists (`DowngraderCanBlock`) and
  succeed although none does (`UnsolvableCanSucceed`). They succeed exactly when every depth
  exists and no script is deeper than the removal of a tag it needs (`MigratesIff`); an order
  exists exactly when the scripts can be placed one after the other (`SolvableIff`).
- Legacy scripts run in ascending version order exactly when no version that is present lies
  between two that are missing (`AscendsIff`). `FiveBeforeThree` gives a run with versions 2 and 4
  present.
- The barrier of the matrix benchmark waits without a re-check loop. One return without a
  broadcast can break it exactly when some thread has not entered and is not just about to be
  counted (`SpuriousReturnIff`); `SpuriousReturnBreaks` gives the run of two threads.
- The slices of the matrix benchmark cover the result exactly when 4 divides N (`CoverageIff`);
  otherwise the last cell stays zero (`LastCellStaysZero`).
- A read from a merged checkpoint survives, whatever the stores contain, exactly when every
  earlier store is as long as its page count says (`ReadsSurviveIff`); `ShortStoreMisreads` gives
  a store that is not.
- A message of zero bytes reads as the end of the file, and a length of 2^32 or more does not
  survive, unless it is that of a last message of at least 2^63 bytes (`FramingRoundTrip`,
  `MessagesAreLost`).
- A trace record is read back exactly when it has all memory fields or none, as its type asks
  (`TraceRoundTrip`); a computation with an address gets the address as its delay
  (`AddressBecomesDelay`).
- Two consecutive years that are not both from 1000 to 9999 are printed as a range that the
  reader drops or misreads (`YearRanges.RoundTrip`); `RangesAreLost` shows 999 to 1000 and 9999 to
  10000.

## Model

| member | source | states |
|---|---|---|
| SearchInvariant.StepKeepsData | benchmark/treeSearching/test01.cpp:95-348 | every step of every thread keeps the queue, the breadth-first thread and each worker consistent, and shared data only grows |
| SearchInvariant.RoomForOneMore | benchmark/treeSearching/test01.cpp:230-237 | a vertex that is neither the root nor queued always finds a free slot, with one to spare |
| SearchInvariant.LineKeepsMain | benchmark/treeSearching/test01.cpp:193-233 | a scan that reaches a free slot has proved the vertex new, although the queue may be read by others meanwhile |
| SearchInvariant.OwnVertexFound | benchmark/treeSearching/test01.cpp:193-215 | the scan of a depth-first search finds the vertex the search was started on before it meets a free slot |
| SearchInvariant.PushKeepsDfs | benchmark/treeSearching/test01.cpp:292-337 | a push is always inside the stack and keeps the pushed vertices distinct |
| SearchDetector.StepKeepsSync | benchmark/treeSearching/test01.cpp:374-422 | every step keeps who holds the lock, what the thread counter counts and when `subThread` is set |
| SearchDetector.StepKeepsWork | benchmark/treeSearching/test01.cpp:374-454 | a vertex given to a worker stays in a worker's hands until some search has covered every vertex |
| SearchDetector.StepKeepsSolo | benchmark/treeSearching/test01.cpp:217-272 | while no worker has taken work, neighbours of visited vertices are visited or queued |
| SearchDetector.InvHolds | benchmark/treeSearching/test01.cpp:95-454 | the whole invariant holds after every legal schedule |
| SearchTheorems.QueueShape | benchmark/treeSearching/test01.cpp:193-272 | in every schedule, whatever is marked from outside, no access is out of bounds and the queue is distinct vertices without the root, then -1, with at most one slot written but not counted |
| SearchTheorems.StepHandsOut | benchmark/treeSearching/test01.cpp:95-131 | a step returns the slot under the counter and advances it, or returns nothing and consumes nothing |
| SearchTheorems.ExactlyOnce | benchmark/treeSearching/test01.cpp:95-131 | along every schedule the k-th hand-out is slot k with the vertex it holds: none twice, none skipped |
| SearchTheorems.MainFlagIsFinal | benchmark/treeSearching/test01.cpp:260-273 | once `mainThread` is set every slot has been handed out, and no later step adds or hands out one |
| SearchTheorems.DetectorCounts | benchmark/treeSearching/test01.cpp:374-406 | with the lock free the thread counter is the number of workers not parked, and `subThread` holds exactly when all are parked |
| SearchTheorems.FlagsMeanIdle | benchmark/treeSearching/test01.cpp:394-406 | with both flags set, a worker holds work exactly when one is about to clear `subThread` |
| SearchTheorems.DetectorIsFinal | benchmark/treeSearching/test01.cpp:264-278 | both flags seen with the lock free stay set for ever, nobody holds or receives work, whatever wakeups come |
| SearchTheorems.FlagsFinalIff | benchmark/treeSearching/test01.cpp:396-402 | both flags set at one moment without the lock are final if and only if no worker is between taking a vertex and clearing `subThread` |
| SearchTheorems.SoloVisits | benchmark/treeSearching/test01.cpp:217-273 | when the breadth-first thread did all the work it has visited everything a path reaches |
| SearchTheorems.NothingIsLost | benchmark/treeSearching/test01.cpp:246-348 | without outside marks, when the flags are final every vertex with a path from the root is visited or was handed out |
| SearchCoverage.StepKeepsSound | benchmark/treeSearching/test01.cpp:217-272 | while no worker has taken work, every vertex marked or queued is reachable |
| SearchCoverage.GivenIff | benchmark/treeSearching/test01.cpp:374-406 | the count of slots given to workers is positive exactly when some hand-out went to a worker |
| SearchCoverage.WorkersMeetEverything | benchmark/treeSearching/test01.cpp:316-337 | once a worker got work, a finished search has visited or handed out every vertex, reachable or not |
| SearchCoverage.SoloMeetsReachable | benchmark/treeSearching/test01.cpp:217-273 | if no worker got work, only reachable vertices were visited or handed out |
| SearchCoverage.ExactIff | benchmark/treeSearching/test01.cpp:246-348 | a finished search has met exactly the reachable vertices if and only if no worker got work or every vertex is reachable |
| SearchTheorems.DfsIsBounded | benchmark/treeSearching/test01.cpp:292-348 | under any interference a search pushes each vertex at most once, its stack fits, and when it ends a pass every vertex is visited or queued |
| SearchTheorems.RankFalls | benchmark/treeSearching/test01.cpp:316-347 | each step inside a search brings its return nearer, whatever the shared data is |
| SearchTheorems.DfsTerminates | benchmark/treeSearching/test01.cpp:300-348 | a search returns within (2V+1)(V(V+4)+2) steps of its own in every schedule |
| SearchLiveness.MainRankFalls | benchmark/treeSearching/test01.cpp:260-273 | each step of the breadth-first thread brings the end of its loop nearer, whatever the workers do |
| SearchLiveness.StepPays | benchmark/treeSearching/test01.cpp:95-454 | every step of any thread, the busy waiting apart, uses up part of a common budget; a spurious wakeup adds ten steps to it |
| SearchLiveness.SearchIsBounded | benchmark/treeSearching/test01.cpp:246-454 | in every schedule, with any outside marks, the threads together make at most a number of steps fixed by the vertices and workers, and ten for each spurious wakeup |
| SearchLiveness.NoDeadlock | benchmark/treeSearching/test01.cpp:260-278 | in every reachable state some thread can move, or both flags are set with every worker parked and the lock free |
| SearchLiveness.EveryRunCanEnd | benchmark/treeSearching/test01.cpp:246-454 | from every reachable state the threads alone, without spurious wakeups or outside marks, can bring the run to its end |
| SearchLiveness.EndIsComplete | benchmark/treeSearching/test01.cpp:246-422 | when a run without outside marks cannot go on, no vertex with a path from the root was missed and nothing is handed out later |
| SearchLiveness.ReturnedAfterFlags | benchmark/treeSearching/test01.cpp:273-278 | in every schedule, normalBFS returns only by reading `subThread` as set while `mainThread` is set |
| SearchHazard.HazardIsReachable | benchmark/treeSearching/test01.cpp:396-402 | the program's three workers can reach both flags set with a vertex in hand, without spurious wakeups |
| SearchHazard.UnlockedReadIsUnsafe | benchmark/treeSearching/test01.cpp:396-402 | both flags can be set at one moment with work in hand, and one is withdrawn later |
| SearchHazard.UnreachableIsMet | benchmark/treeSearching/test01.cpp:316-337 | a finished run of three workers, without spurious wakeups, in which a vertex without edges was visited or handed out |
| SearchWatchers.WatchedRuns | benchmark/treeSearching/test01.cpp:351-371 | with the driver and the receiving thread added, the search underneath is one of its own schedules |
| SearchWatchers.DriverVerdictIff | benchmark/treeSearching/test01.cpp:516-518 | when the driver leaves its loop after its two reads, the search is over for good if and only if `subThread` is set at the second read and no worker is about to clear it |
| SearchWatchers.MainFlagSeen | benchmark/treeSearching/test01.cpp:354-356 | once the receiving thread has read `mainThread` as set, it is still set at the second read and afterwards |
| SearchWatchers.ReceiverVerdictIff | benchmark/treeSearching/test01.cpp:354-366 | when the receiving thread leaves its loop both flags are set, and the search is over for good if and only if no worker is about to clear `subThread` |
| SearchWatchers.SplitReadIsUnsafe | benchmark/treeSearching/test01.cpp:516-518 | with three workers the driver can leave its loop while a worker enters its search, although nobody was about to clear a flag at either read |
| SearchWatchers.ReceivedIsMarked | benchmark/treeSearching/test01.cpp:351-366 | a vertex the receiving thread was told of is marked from then on, in every run |
| SearchAlone.SearchesAlone | benchmark/treeSearching/test01.cpp:246-273 | the breadth-first thread of the machine, running alone, ends with exactly the reachable vertices visited, and they left the queue in nondecreasing graph distance |
| SearchRefines.ProcessesAsPromised | benchmark/treeSearching/test01.cpp:217-241 | in every schedule, from the entry of processCurrentNode on, the thread's own steps do nothing for a vertex already marked, and otherwise mark it and append exactly its unmarked, unqueued neighbours |
| SearchRefines.GetsAsPromised | benchmark/treeSearching/test01.cpp:95-131 | in every schedule a worker that asks for work gets the next slot, or nothing when at most two are left |
| SearchAlone.TurnAlone | benchmark/treeSearching/test01.cpp:95-131 | one turn of the main loop takes the next slot or ends the loop, exactly when every slot was handed out, and wakes the workers exactly when five slots are left and one of them is not active |
| SearchRefines.SearchesAsPromised | benchmark/treeSearching/test01.cpp:300-348 | in every schedule a worker that enters my_DFS and is not disturbed marks exactly the vertices that are not queued, and asks for work again |
| BreadthFirst.ConnectNode | benchmark/treeSearching/test01.cpp:51-62 | adds exactly the edge in both directions and keeps every other entry |
| BreadthFirst.InitGraph | benchmark/treeSearching/test01.cpp:74-93 | the matrix holds exactly the listed edges and their reverses |
| BreadthFirst.WaveStep | benchmark/treeSearching/test01.cpp:217-241 | processing one vertex keeps the queue a breadth-first wave: levels in order and each found from the level before |
| BreadthFirst.WaveComplete | benchmark/treeSearching/test01.cpp:246-272 | a finished wave contains the end of every walk, at a level no larger than its length |
| BreadthFirst.WaveFinished | benchmark/treeSearching/test01.cpp:246-272 | a finished wave is exactly the reachable vertices, each level is the graph distance, and levels never fall |
| BreadthFirst.Search.constructor | benchmark/treeSearching/test01.cpp:148-149 | an empty queue and no vertex visited |
| BreadthFirst.Search.WhertherInLine | benchmark/treeSearching/test01.cpp:193-215 | true exactly when the value occurs before the first free slot |
| BreadthFirst.Search.ProcessCurrentNode | benchmark/treeSearching/test01.cpp:217-244 | marks the vertex and appends exactly its neighbours that are neither visited nor queued; nothing for a visited vertex |
| BreadthFirst.Search.UnsafeGetData | benchmark/treeSearching/test01.cpp:95-131 | -1 changes nothing and comes exactly when the queue is empty, or has at most two left for a worker; otherwise the next slot is consumed |
| BreadthFirst.Search.MainLoop | benchmark/treeSearching/test01.cpp:260-272 | terminates with every queued vertex processed |
| BreadthFirst.Search.NormalBfs | benchmark/treeSearching/test01.cpp:246-273 | visited is exactly the set of vertices reachable from the root, and vertices leave the queue in nondecreasing graph distance |
| ParallelProduct.StepKeepsBarrier | benchmark/matrix/test01.cpp:66-106 | every step keeps the counter equal to the threads still to arrive and the generations apart |
| ParallelProduct.BarrierHolds | benchmark/matrix/test01.cpp:66-106 | the barrier invariant holds along every schedule without spurious returns |
| ParallelProduct.BarrierIsSafe | benchmark/matrix/test01.cpp:66-106 | no thread leaves its k-th crossing before all have entered their k-th, also when fast threads re-enter |
| BarrierWakeups.EarlyStep | benchmark/matrix/test01.cpp:94-105 | when all have arrived, every step after an early return either restores the barrier invariant or leaves the state as it would be without the return, but for the returned thread |
| BarrierWakeups.SpuriousReturnIff | benchmark/matrix/test01.cpp:99-105 | one return without a broadcast can break the barrier if and only if some thread has not entered and is not holding the lock about to be counted |
| BarrierWakeups.SpuriousReturnBreaks | benchmark/matrix/test01.cpp:99-105 | a run of two threads in which the first computes before the second has reached the barrier |
| ProductTheorems.AddCell | benchmark/matrix/test01.cpp:114-117 | one cell grows by its sum of products, reading the operands in bounds only |
| ProductTheorems.Caculate | benchmark/matrix/test01.cpp:110-124 | the cells of the slice grow by their sums of products and no other cell changes |
| ProductTheorems.WorkHolds | benchmark/matrix/test01.cpp:110-190 | along every schedule each cell of a slice holds exactly the partial sum its thread has reached |
| ProductTheorems.SecondCrossingMeansDone | benchmark/matrix/test01.cpp:181-190 | when any thread has crossed the second barrier every cell of every slice is final |
| ProductTheorems.SumIsTransposedProduct | benchmark/matrix/test01.cpp:114-117 | the sum stored at (x, y) is row y of the first operand times column x of the second |
| ProductTheorems.SlicesAreDisjoint | benchmark/matrix/test01.cpp:226-230 | for every N the eight slices of both ids are in bounds and pairwise disjoint |
| ProductTheorems.ChipletSlicesOk | benchmark/matrix/test01.cpp:226-230 | one id's four slices meet what the run theorems require |
| ProductTheorems.CoverageIff | benchmark/matrix/test01.cpp:226-230 | the slices cover all N*N cells if and only if 4 divides N |
| ProductTheorems.HalfOf | benchmark/matrix/test01.cpp:226-230 | the slices of id 0 lie in the first half of the matrix and those of id 1 in the second |
| ProductTheorems.ProductIsComplete | benchmark/matrix/test01.cpp:181-240 | when 4 divides N, any interleaving leaves the transposed product in exactly the process's own half of its result, and zeros in the other |
| ProductTheorems.LastCellStaysZero | benchmark/matrix/test01.cpp:226-230 | when 4 does not divide N no schedule writes the last cell |
| ProductLiveness.StepFalls | benchmark/matrix/test01.cpp:66-190 | every step of every thread, a spurious return included, brings the end of the run nearer |
| ProductLiveness.RunIsBounded | benchmark/matrix/test01.cpp:66-190 | every run has at most 7 steps for each crossing and 2N+2 for each cell, and 3 more for each thread |
| ProductLiveness.NoDeadlock | benchmark/matrix/test01.cpp:66-106 | without spurious returns some thread can run until all have left their last crossing |
| ProductLiveness.EndIsComplete | benchmark/matrix/test01.cpp:181-190 | when a run cannot go on every slice is final |
| WindowSort.SortFacts | gem5/util/o3-pipeview.py:151-167 | the sort is a sorted permutation |
| WindowSort.OutputIsPermutation | gem5/util/o3-pipeview.py:157-186 | the partial flushes and the final one pop every queued record exactly once |
| WindowSort.FlushTimes | gem5/util/o3-pipeview.py:157-162 | the queue is flushed by arrival max+1 and then by every (max-min+1)-th one |
| WindowSort.SortedIff | gem5/util/o3-pipeview.py:157-186 | for distinct sequence numbers the output is sorted if and only if at every flush each record still to come ranks behind those popped |
| WindowSort.DisplacementSuffices | gem5/util/o3-pipeview.py:45-66 | if no record arrives more than min places after its rank, the output is the sorted stream, for all thresholds min <= max |
| WindowSort.DisplacementIff | gem5/util/o3-pipeview.py:157-186 | with equal thresholds the displacement bound is also necessary |
| WindowSort.PrintedTrace | gem5/util/o3-pipeview.py:169-186 | every record is printed or filtered exactly once, the printed ones are the wanted ones, and they are in order under the bound |
| WindowSort.RegionIff | gem5/util/o3-pipeview.py:175-186 | what is printed are the records with sequence number and fetch tick inside the inclusive bounds, and a retire tick if asked for |
| WindowSort.NoRegion | gem5/util/o3-pipeview.py:45-66 | with every bound off nothing is dropped |
| WindowSort.Viewer.constructor | gem5/util/o3-pipeview.py:157-160 | an empty window |
| WindowSort.Viewer.QueueInst | gem5/util/o3-pipeview.py:157-162 | appends the record and flushes down to min when the window exceeds max |
| WindowSort.Viewer.PrintInsts | gem5/util/o3-pipeview.py:165-186 | sorts the window and pops its smallest records down to the threshold |
| WindowSort.Viewer.PrintItem | gem5/util/o3-pipeview.py:175-186 | prints the record exactly when it passes the range and commit filters |
| WindowSort.Viewer.ProcessTrace | gem5/util/o3-pipeview.py:126-148 | the whole trace is popped as the window specification says, and printed after filtering |
| Timeline.RowIsUnique | gem5/util/o3-pipeview.py:225-260 | a stage is in exactly one row if its tick is nonzero and not before the first row, and in none otherwise |
| Timeline.OffsetInRow | gem5/util/o3-pipeview.py:249-260 | in a wrapped timeline the offset is the time since the row's start |
| Timeline.OffsetInCompact | gem5/util/o3-pipeview.py:235-260 | in the compact form a stage past the right edge continues at the left one |
| Timeline.ColumnFacts | gem5/util/o3-pipeview.py:258-279 | the column is inside the row and stands for the cycle that holds the offset |
| Timeline.SortOrdered | gem5/util/o3-pipeview.py:261 | the events of a row are ordered by offset and then by stage name |
| Timeline.EventsAreRow | gem5/util/o3-pipeview.py:253-261 | the events of a row are exactly the stages that fall in it |
| Timeline.AddMark | gem5/util/o3-pipeview.py:266-279 | one more letter at or right of the cursor extends the drawn columns correctly |
| Timeline.CollectEvents | gem5/util/o3-pipeview.py:253-261 | collects and sorts the events of one row |
| Timeline.DrawRow | gem5/util/o3-pipeview.py:262-281 | the text is the columns side by side: each column's letters in order, or a dot |
| Timeline.PrintInst | gem5/util/o3-pipeview.py:225-281 | one row exactly when every stage lies less than width times cycle time after fetch, otherwise the rows from that of fetch to that of the last event; fails exactly when a compact timeline has no event |
| Timeline.FailsIff | gem5/util/o3-pipeview.py:235-265 | that happens exactly when no stage has a nonzero tick in the compact row, so never with a nonzero fetch |
| Timeline.CellLetters | gem5/util/o3-pipeview.py:266-272 | a column holds a letter exactly when a drawn event has that letter and that column |
| Timeline.RowLength | gem5/util/o3-pipeview.py:262-281 | a row is as long as the width plus the events drawn minus the columns they use |
| TimelineRows.KeyIff | gem5/util/o3-pipeview.py:258-261 | events of a row are ordered by offset and then alphabetically by stage |
| TimelineRows.ColumnIsCycle | gem5/util/o3-pipeview.py:258-279 | the column is the cycle of the tick modulo the width |
| TimelineRows.StageIsDrawn | gem5/util/o3-pipeview.py:247-272 | a stage that happened is drawn with its letter in the row of its time and the column of its cycle, unless it is a dispatch in the tick of the issue |
| TimelineRows.PastTheEdge | gem5/util/o3-pipeview.py:235-260 | in the compact form a stage past the right edge is in the same row, not to the right of fetch |
| TimelineRows.WrapsInOneRow | gem5/util/o3-pipeview.py:235-281 | a timeline in full: stages past the edge are drawn left of fetch |
| TimelineRows.AbandonedRow | gem5/util/o3-pipeview.py:243-281 | a timeline in full: an instruction that never retired, with its dispatch hidden |
| PortBinding.SortPermutes | gem5/configs/example/read_config.py:332 | sorting keeps the connections |
| NameOrder.CompareIff | gem5/configs/example/read_config.py:158-160 | names are compared at the first place where they differ, a prefix first |
| PortOrder.LessEqIff | gem5/configs/example/read_config.py:158-160 | connections are totally ordered by object, port and index of the near end and then of the far end |
| PortOrder.SortIsSorted | gem5/configs/example/read_config.py:332 | the pass sees the connections in that order |
| PortOrder.SortedIsUnique | gem5/configs/example/read_config.py:332 | there is one sorted list of the same connections only |
| PortOrder.OrderDoesNotMatter | gem5/configs/example/read_config.py:300-346 | bindings and both errors do not depend on the order in which connections were gathered |
| PortOrder.DocumentedIsBound | gem5/configs/example/read_config.py:321-330 | the three connections of the comment are all made, whatever the order they were gathered in |
| PortBinding.ZeroIndices | gem5/configs/example/read_config.py:308-311 | a zero counter for exactly the ports that start a connection |
| PortBinding.MakeConnections | gem5/configs/example/read_config.py:331-341 | the loop makes exactly the connections whose both ends are next in turn, and fails exactly when the near end of one is next and its far end has no counter |
| PortBinding.BindPorts | gem5/configs/example/read_config.py:300-346 | the bindings and both exceptions, each with its exact cause; a swap-closed list never misses a port |
| PortBinding.GatherPortConnections | gem5/configs/example/read_config.py:288-298 | gathers exactly one entry for each peer of each port, with the peer's place as the index |
| PortBinding.GatheredIff | gem5/configs/example/read_config.py:374-377 | the same for all objects |
| PortBinding.ObjectEndsUnique | gem5/configs/example/read_config.py:280-298 | the starting ends gathered for one object are unique and belong to it |
| PortBinding.GatheredEndsUnique | gem5/configs/example/read_config.py:374-377 | the starting ends gathered for all objects are unique |
| PortBindingTheorems.PickInTurn | gem5/configs/example/read_config.py:331-341 | each connection made finds both its ports at its index |
| PortBindingTheorems.EndsDistinct | gem5/configs/example/read_config.py:313-341 | no end is bound twice |
| PortBindingTheorems.EndsFull | gem5/configs/example/read_config.py:313-341 | each port is bound at indices 0 to k-1 without a gap |
| PortBindingTheorems.CountIsEnough | gem5/configs/example/read_config.py:343-346 | if half the list was made, every undirected connection was made exactly once in one orientation |
| PortBindingTheorems.BindPortsIsSound | gem5/configs/example/read_config.py:300-354 | the same for a call that does not raise, with every port's connections in index order and none missing |
| PortBindingTheorems.SelfConnectionIff | gem5/configs/example/read_config.py:343-346 | when the count passes, the binding is complete if and only if there is no self-connection |
| PortBindingTheorems.SelfConnectionSlipsThrough | gem5/configs/example/read_config.py:343-346 | two self-connections pass the count with one missing |
| PortBindingTheorems.GreedyKeepsUp | gem5/configs/example/read_config.py:331-341 | whatever a one-pass selection in turn binds, the greedy pass binds too |
| PortBindingTheorems.GreedyIsOptimal | gem5/configs/example/read_config.py:331-346 | the count passes if and only if some one-pass selection is complete |
| PortBindingTheorems.SortingIsNotEnough | gem5/configs/example/read_config.py:321-346 | a sorted, swap-closed list that can be bound in another order but raises |
| Migration.Update | gem5/util/cpt_upgrader.py:145-153 | an upgrade adds its tag, a downgrade removes it and fails when it is absent |
| Migration.RunReady | gem5/util/cpt_upgrader.py:247-249 | any iteration order over the ready scripts gives the same tags and never removes an absent one |
| Migration.Migrate | gem5/util/cpt_upgrader.py:239-251 | terminates with an outcome that does not depend on iteration order; the scripts run round by round, each at most once, all on success and, when no dependency is lost, only with its dependencies present |
| Migration.RoundsAreRight | gem5/util/cpt_upgrader.py:239-251 | success leaves all pending applied; an abort leaves some that are all not ready |
| Migration.MigrationIsExact | gem5/util/cpt_upgrader.py:239-257 | success gives exactly (initial tags union tag_set) minus untag_set |
| Migration.SecondRunIsNoOp | gem5/util/cpt_upgrader.py:239-255 | a second run has nothing pending and changes nothing |
| Migration.SolvableIsNotStuck | gem5/util/cpt_upgrader.py:240-245 | if some order works, every round has a ready script |
| Migration.AbortsOnlyWhenUnsolvable | gem5/util/cpt_upgrader.py:240-251 | when no pending script needs a tag about to be removed, and so with upgraders only, migration succeeds if and only if some order of the pending scripts satisfies their dependencies |
| Migration.UpgradersOnly | gem5/util/cpt_upgrader.py:239-251 | with upgraders only, no dependency is ever lost |
| Migration.DowngraderCanBlock | gem5/util/cpt_upgrader.py:139-143 | a downgrader whose tag another script needs can make a solvable migration abort |
| MigrationDepth.DepthIsAttained | gem5/util/cpt_upgrader.py:139-143 | a script that is not at the bottom has a missing dependency one level below it |
| MigrationDepth.MissingIsShallower | gem5/util/cpt_upgrader.py:139-143 | every missing dependency is less deep than the script |
| MigrationDepth.LostForever | gem5/util/cpt_upgrader.py:240-251 | a script that has not run when a tag it needs is removed never runs |
| MigrationDepth.RoundsEnd | gem5/util/cpt_upgrader.py:240-251 | after as many rounds as there are scripts all have run or the rest is stuck |
| MigrationDepth.MigratesIff | gem5/util/cpt_upgrader.py:239-251 | with upgraders and downgraders, migration succeeds if and only if every depth exists and no script is deeper than the removal of a tag it needs |
| MigrationOrders.BeforeIff | gem5/util/cpt_upgrader.py:240-251 | in a migration that succeeds, one script runs before another whatever the iteration order is, if and only if it is less deep |
| MigrationOrders.SolvableIff | gem5/util/cpt_upgrader.py:139-143 | an order that satisfies all dependencies exists if and only if the scripts can be placed one after the other |
| MigrationOrders.AbortIsRightIff | gem5/util/cpt_upgrader.py:240-245 | the code aborts exactly the migrations without an order if and only if the two conditions agree |
| MigrationOrders.UnsolvableCanSucceed | gem5/util/cpt_upgrader.py:241-249 | two downgraders that need each other's tag run in one round although no order satisfies both |
| MigrationOrders.RemovedTagAborts | gem5/util/cpt_upgrader.py:139-143 | a pending script that depends on the tag of a downgrader that is already gone is stuck and the migration aborts |
| MigrationOrders.RunsIffPresent | gem5/util/cpt_upgrader.py:56-61 | a script that depends only on the tag of a downgrader runs if and only if the tag is present |
| MigrationOrders.DependentRunsFirst | gem5/util/cpt_upgrader.py:56-61 | in a migration that succeeds, a script that needs the tag of a pending downgrader runs in no later round than the downgrader |
| MigrationOrders.CommentIsWrong | gem5/util/cpt_upgrader.py:56-61 | a script that is to run once a tag is gone never runs |
| MigrationLoading.Registry.constructor | gem5/util/cpt_upgrader.py:87-90 | no script is known |
| MigrationLoading.Registry.Register | gem5/util/cpt_upgrader.py:117-137 | files the script by tag, by kind and by legacy version, and keeps the files consistent if the tag is new |
| MigrationLoading.Registry.RegisterAll | gem5/util/cpt_upgrader.py:133-164 | every script is filed under its own tag and nothing else is; a legacy version is known exactly when a script declares it, and stands for the last one that does |
| MigrationLoading.Registry.LinkLegacy | gem5/util/cpt_upgrader.py:166-170 | chains the versions from 3 to the first gap, and fails exactly when 3 comes without 2 |
| MigrationLoading.Registry.AddForward | gem5/util/cpt_upgrader.py:174-179 | adds the script to the dependencies of each script it names, and fails exactly when one is unknown |
| MigrationLoading.Registry.ResolveForward | gem5/util/cpt_upgrader.py:172-184 | fails exactly when some direct or forward dependency names no script, whatever the iteration order, and otherwise adds exactly the forward ones |
| MigrationLoading.Registry.LoadAll | gem5/util/cpt_upgrader.py:160-184 | on success every dependency is known and each script depends on exactly what it declares, or the version before it for a chained one, and on the scripts that name it; the legacy versions are those the files declare; the failures are exactly the two above |
| MigrationLoading.Registry.LegacyTags | gem5/util/cpt_upgrader.py:215-217 | a legacy version stands for the tags of versions 2 up to it, and fails exactly when one is missing |
| MigrationLoading.ChainedFacts | gem5/util/cpt_upgrader.py:166-170 | chaining replaces the dependencies of the chained scripts and of no other |
| LegacyOrder.LegacyAscends | gem5/util/cpt_upgrader.py:166-170 | in every run that respects dependencies, every missing version runs before every later one, if no version that is present lies between two that are missing |
| LegacyOrder.AscendsIff | gem5/util/cpt_upgrader.py:166-170 | whatever other upgraders there are and whatever the iteration order is, the versions ascend if and only if no version that is present lies between two that are missing |
| LegacyOrder.LaterFirst | gem5/util/cpt_upgrader.py:166-170 | a missing version whose predecessor is present can run before an earlier missing one |
| LegacyOrder.FiveBeforeThree | gem5/util/cpt_upgrader.py:166-170 | with versions 2 and 4 present and 3 and 5 missing, 5 can run before 3 |
| LegacyOrder.MigrateLegacy | gem5/util/cpt_upgrader.py:159-257 | with upgraders only, the migration of a checkpoint of legacy version v runs the scripts whose files declare v+1, v+2, and so on in this order, all of them on success, and none up to v; it starts exactly when the scripts load and versions 2 to v exist |
| Decimal.ValStr | gem5/util/checkpoint_aggregator.py:66 | reading a printed number gives the number |
| Decimal.ZFillFacts | gem5/util/checkpoint_aggregator.py:66 | zero-filling keeps the value and gives the width |
| IntText.ReadNumeral | gem5/util/encode_inst_dep_trace.py:152-192 | int() and long() read plain digits as their value |
| IntText.ReadSpelled | gem5/util/encode_inst_dep_trace.py:152-192 | with a sign and with white space around and inside they read the same; one L is for long() only |
| CheckpointMerge.RenameInjective | gem5/util/checkpoint_aggregator.py:66 | with numbers of equal width, equal new names come from equal old names and equal numbers |
| CheckpointMerge.NamesNeverCollide | gem5/util/checkpoint_aggregator.py:56-66 | renamed cpu sections of different checkpoints or different sections never collide |
| CheckpointMerge.UnpaddedNamesCollide | gem5/util/checkpoint_aggregator.py:56-66 | without the fixed width they can |
| CheckpointMerge.MergeSections | gem5/util/checkpoint_aggregator.py:64-89 | one checkpoint contributes its cpu sections and the last one its other sections, as the rows of CheckpointContents spell out |
| CheckpointContents.RenameFirst | gem5/util/checkpoint_aggregator.py:66 | the number goes behind the first "cpu" of a name, and so on in the rest |
| CheckpointContents.FdMapIff | gem5/util/checkpoint_aggregator.py:76-77 | which sections are file-descriptor maps |
| CheckpointContents.SectionsStay | gem5/util/checkpoint_aggregator.py:64-89 | in the merged file every cpu section stands under its new name with all its options, addresses moved by the pages before and M5_pid set exactly in file-descriptor maps; every other section of the last checkpoint stands unchanged |
| CheckpointContents.AddressesFollow | gem5/util/checkpoint_aggregator.py:71-109 | every address in a cpu section leads, under the new name, to the same byte of the merged memory, if the stores before are full |
| CheckpointContents.NothingElse | gem5/util/checkpoint_aggregator.py:64-134 | nothing else is written but the totals and the section of the memory store |
| CheckpointContents.RangeIsTold | gem5/util/checkpoint_aggregator.py:115-131 | the memory store is told the fewest whole pages that hold everything and reach the requested size, which is the memory's size exactly when no store was short |
| CheckpointContents.TotalsAreRight | gem5/util/checkpoint_aggregator.py:80-134 | the totals are all pages, the number of checkpoints and the latest tick |
| CheckpointMerge.CopyPages | gem5/util/checkpoint_aggregator.py:102-109 | copies the image page by page, as far as it goes |
| CheckpointMerge.PadMemory | gem5/util/checkpoint_aggregator.py:118-126 | pads with zero characters to the first whole page at or above the size |
| CheckpointMerge.Aggregate | gem5/util/checkpoint_aggregator.py:41-136 | the merged image and all sections with the totals; fails exactly when the last checkpoint has no section for the memory store |
| CheckpointMerge.LayoutLength | gem5/util/checkpoint_aggregator.py:94-112 | the copied image has the counted length if and only if every image is as long as its page count says |
| CheckpointMerge.ReadsArePreserved | gem5/util/checkpoint_aggregator.py:71-109 | every byte a checkpoint has in its pages is read at its relocated address in the merged image, if the stores before it are full |
| CheckpointMerge.ReadsSurviveIff | gem5/util/checkpoint_aggregator.py:94-109 | for given page counts and store lengths, a read survives whatever the stores contain if and only if every earlier store is full |
| CheckpointMerge.ShortStoreMisreads | gem5/util/checkpoint_aggregator.py:94-109 | an empty store with one page announced makes the next checkpoint's first byte be read from the padding |
| CheckpointMerge.AddressesStayApart | gem5/util/checkpoint_aggregator.py:71-96 | relocated addresses of different checkpoints never meet |
| CheckpointMerge.RangeSizeIff | gem5/util/checkpoint_aggregator.py:118-131 | the range size equals the padded image length if and only if every image is full |
| CheckpointMerge.MergedNamesDistinct | gem5/util/checkpoint_aggregator.py:64-89 | all contributed section names are distinct, and each section comes from one of a checkpoint |
| CheckpointMerge.WrittenNamesDistinct | gem5/util/checkpoint_aggregator.py:64-134 | all section names that are written are distinct, those of the totals included |
| TraceText.WriteDeps | gem5/util/decode_inst_dep_trace.py:190-201 | writes each dependency with a comma in front |
| TraceText.WriteFields | gem5/util/decode_inst_dep_trace.py:157-188 | writes the present fields, with 0 and 1 for an absent pc and weight |
| TraceText.WriteRecord | gem5/util/decode_inst_dep_trace.py:157-203 | one turn of the loop writes the record's line |
| TraceText.PrintedLine | gem5/util/decode_inst_dep_trace.py:157-203 | the line in full: the fields with commas, absent ones left out or 0 and 1, then the order and the register dependencies behind colons |
| TraceText.ParseDeps | gem5/util/encode_inst_dep_trace.py:179-192 | reads the nonempty parts as numbers, or fails |
| TraceText.ParseLine | gem5/util/encode_inst_dep_trace.py:147-192 | one turn of the loop reads a line or fails as the line's parts say |
| TraceText.WrongColons | gem5/util/encode_inst_dep_trace.py:148 | a line without exactly two colons is rejected |
| TraceText.ExtraIgnored | gem5/util/encode_inst_dep_trace.py:167-177 | fields beyond the ones needed are ignored |
| TraceText.FieldsNeeded | gem5/util/encode_inst_dep_trace.py:154-177 | a line that is read has one of three types and at least eight fields, or five for a computation |
| TraceText.EmptySkipped | gem5/util/encode_inst_dep_trace.py:179-192 | empty places in a list of dependencies are skipped |
| TraceText.LineSplits | gem5/util/encode_inst_dep_trace.py:148 | a printed line splits into its three parts again |
| TraceText.DepsRoundTrip | gem5/util/encode_inst_dep_trace.py:179-192 | dependency lists of any length are read back |
| TraceText.TraceRoundTrip | gem5/util/encode_inst_dep_trace.py:147-192 | parsing a printed line gives the record back, with 0 and 1 for an absent pc and weight, if and only if it is a load or store with all memory fields or a computation with none, and has no field the format omits |
| TraceText.AddressBecomesDelay | gem5/util/encode_inst_dep_trace.py:169-177 | a computation with an address is read back without it and with the address as its delay |
| TraceText.FileRoundTrip | gem5/util/decode_inst_dep_trace.py:154-203 | a whole file is read back in order if and only if every record is of that kind |
| Framing.OutFile.EncodeVarint32 | gem5/util/protolib.py:143-155 | writes the base-128 digits, least significant first, with the continuation bit on all but the last |
| Framing.OutFile.EncodeMessage | gem5/util/protolib.py:157-163 | writes the length and the message |
| Framing.InFile.Read | gem5/util/protolib.py:111-137 | returns what is left for a negative size and never more than is left |
| Framing.InFile.DecodeVarint32 | gem5/util/protolib.py:98-126 | consumes and returns what the specification of the reader says, for every byte stream |
| Framing.InFile.DecodeMessage | gem5/util/protolib.py:128-141 | returns the next message, or none at the end, on a zero length and on a bad length |
| Framing.ReaderIsBounded | gem5/util/protolib.py:98-126 | at most ten bytes are consumed, the value is in [-2^32, 2^32-1] and congruent to the payload modulo 2^32, and each failure has its exact cause |
| Framing.ReadEncoded | gem5/util/protolib.py:98-155 | what the reader makes of every number the writer writes |
| Framing.EncodedBytes | gem5/util/protolib.py:143-155 | byte i is the i-th group of seven bits, with the top bit set on every byte but the last |
| Framing.CutShort | gem5/util/protolib.py:128-141 | a file that ends inside a message yields what there is of it |
| Framing.VarintRoundTrip | gem5/util/protolib.py:98-155 | a number is read back if and only if it is below 2^32 |
| Framing.FramingRoundTrip | gem5/util/protolib.py:128-163 | messages are read back in order and then the end is reported if and only if every length survives |
| Framing.EmptyMessageEnds | gem5/util/protolib.py:134-136 | messages below 2^32 bytes are read back up to the first empty one |
| Framing.MessagesAreLost | gem5/util/protolib.py:128-163 | a message behind an empty one is lost, and so is one of 2^32 bytes |
| YearRanges.Sort | gem5/util/find_copyrights.py:176-177 | the years in increasing order, each once |
| YearRanges.DateStr | gem5/util/find_copyrights.py:175-199 | prints sorted, maximal, non-adjacent runs whose expansion is exactly the set, and fails exactly on the empty set |
| YearRanges.RunsAreUnique | gem5/util/find_copyrights.py:175-199 | a set of years has only one such list of runs |
| YearRanges.ProcessDates | gem5/util/find_copyrights.py:99-116 | a year is read exactly when some part of the text is a range that holds it or a number that is it |
| YearRanges.RangeReads | gem5/util/find_copyrights.py:98-114 | a printed range is read back exactly if both ends have four digits, and otherwise loses an end |
| YearRanges.RunsReadBack | gem5/util/find_copyrights.py:98-116 | reading printed runs invents no year, and misses none exactly when every run is a single year or has four-digit ends |
| YearSpacing.SpacedListReads | gem5/util/find_copyrights.py:98-116 | a list of years and four-digit ranges, with white space around parts and dashes, is read as exactly the years it names |
| YearSpacing.SpacedTwo | gem5/util/find_copyrights.py:98-116 | so a year, a comma and a range with spaces around the dash are read as that year and that range |
| YearSpacing.PrintedTwo | gem5/util/find_copyrights.py:175-199 | the text printed for a year and a run of years |
| YearRanges.RangesAreLost | gem5/util/find_copyrights.py:98-116 | the printed ranges 999-1000 and 9999-10000 read as no year |
| YearRanges.RoundTrip | gem5/util/find_copyrights.py:98-199 | printing and reading gives the set back if and only if every two consecutive years of it are both from 1000 to 9999 |

## Left out

- ProductTheorems.ProductIsComplete: sums are mathematical integers, so 32-bit overflow of the products is not modelled.
- Framing.FramingRoundTrip: message contents are opaque bytes; the protobuf serialiser and its parse errors are not modelled.
- LegacyOrder.AscendsIff: is about all sets of upgraders with these legacy versions; for one given set other dependencies can force an order that the versions alone do not, and then `BeforeIff` decides.
- MigrationLoading.Registry.RegisterAll: takes scripts with different tags only, as gem5/util/cpt_upgrader.py:60-61 demands of their authors; a second script with a tag would replace the first under that tag but stay under its legacy version.
- MigrationLoading.Registry.LoadAll: the same, because it registers the scripts that way.
- LegacyOrder.MigrateLegacy: the same, because it loads the scripts that way.
- CheckpointMerge.Aggregate: takes at least one checkpoint; without any the script fails.
- m5_gadia_call and m5_gadia_receive in both benchmarks: sends do nothing, and what a search receives is any vertex at any time. The waiting loop on a receive inside the barrier is not modelled.
- Timing, CPU affinity, console output, thread creation and joining, and reading data.csv.
- Weak memory: both benchmarks are modelled with sequential consistency.
- The edges that the search records in resultNode, and the values that toWrite sends.
- Received vertex ids and roots out of range: the receiving thread and the driver do not check them.
- Parsing of the pipeline trace, the reuse of one dictionary for successive instructions, and the early stop at gem5/util/o3-pipeview.py:132, whose call has one argument fewer than the function takes.
- The text behind a timeline row (tick, pc, disassembly, sequence number) and terminal colours.
- Reading port names from text, and the attribute assignments that perform a binding.
- The bodies of upgraders and downgraders, reading and writing checkpoint files, the warning about unknown tags, and a directory's recursive processing.
- In the aggregator: compression, and files with a missing option or a non-numeric address.
- find_copyright_block and the regular expressions that find copyright lines and owners.
- The simulator configuration scripts, which wire up objects defined elsewhere.
