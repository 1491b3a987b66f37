/** Along every schedule: whenever a thread goes on alone, it does what the function it is in
    promises. */
module SearchRefines {
  import opened SearchProtocol
  import opened SearchInvariant
  import opened SearchDetector
  import opened SearchTheorems
  import opened Sequences
  import A = SearchAlone

  lemma ReachableIsShaped(c: Config, steps: seq<Step>)
    requires ValidConfig(c) && Legal(c, steps) && !After(c, steps).main.Bump?
    ensures A.Shaped(c, After(c, steps)) && After(c, steps).q.counter <= After(c, steps).q.length
  {
    InvHolds(c, steps);
  }

  lemma MainEnabled(c: Config, s: State)
    ensures if s.main.Done? then MainStep(c, s) == s
            else Enabled(c, s, MainRun) && Apply(c, s, MainRun) == MainStep(c, s)
  {
  }

  /** One more step of the BFS thread, unless it has ended. */
  lemma OneMoreStep(c: Config, steps: seq<Step>, s: State) returns (more: seq<Step>)
    requires Legal(c, steps) && After(c, steps) == s
    ensures Legal(c, steps + more) && After(c, steps + more) == MainStep(c, s)
    ensures more == [] || more == [MainRun]
  {
    MainEnabled(c, s);
    if s.main.Done? {
      more := [];
      assert steps + more == steps;
    } else {
      more := [MainRun];
      NextStep(c, steps, MainRun);
    }
  }

  /** `more` is a schedule of the BFS thread alone that ends in `s`. */
  ghost predicate LeadsTo(c: Config, steps: seq<Step>, more: seq<Step>, s: State) {
    Legal(c, steps + more) && After(c, steps + more) == s && forall k :: 0 <= k < |more| ==> more[k].MainRun?
  }

  lemma LeadsOn(c: Config, steps: seq<Step>, more: seq<Step>, s: State) returns (longer: seq<Step>)
    requires LeadsTo(c, steps, more, s)
    ensures LeadsTo(c, steps, longer, MainStep(c, s))
  {
    var last := OneMoreStep(c, steps + more, s);
    longer := more + last;
    assert steps + more + last == steps + longer;
  }

  /** The BFS thread going on alone is a schedule. */
  lemma {:induction false} AloneIsSchedule(c: Config, steps: seq<Step>, s: State, n: nat) returns (more: seq<Step>)
    requires LeadsTo(c, steps, [], s)
    ensures LeadsTo(c, steps, more, A.MainAlone(c, s, n))
  {
    if n == 0 {
      more := [];
    } else {
      more := AloneIsSchedule(c, steps, s, n - 1);
      more := LeadsOn(c, steps, more, A.MainAlone(c, s, n - 1));
    }
  }

  /** In every schedule, whatever workers and environment have marked so far: a vertex that is
      marked when the BFS thread comes to it adds nothing to the queue; otherwise it is marked
      and exactly its unmarked, unqueued neighbours are appended. */
  lemma ProcessesAsPromised(c: Config, steps: seq<Step>, m: seq<int>) returns (more: seq<Step>)
    requires ValidConfig(c) && Legal(c, steps) && A.SameEdges(c, m) && After(c, steps).main.Enter?
    ensures Legal(c, steps + more) && forall k :: 0 <= k < |more| ==> more[k].MainRun?
    ensures var s := After(c, steps);
            |s.visited| == c.V && Vertex(c, s.main.id) && A.Processed(c, m, s, s.main.id, After(c, steps + more))
  {
    var s := After(c, steps);
    ReachableIsShaped(c, steps);
    InvHolds(c, steps);
    var s' := A.ProcessesAlone(c, s, m);
    var n: nat :| A.MainAlone(c, s, n) == s';
    assert steps + [] == steps;
    more := AloneIsSchedule(c, steps, s, n);
  }

  /** A worker that asks for work gets the next slot, or nothing when at most two are left. */
  lemma GetsAsPromised(c: Config, steps: seq<Step>, w: nat) returns (s': State)
    requires ValidConfig(c) && Legal(c, steps) && !After(c, steps).main.Bump?
    requires w < |After(c, steps).workers| && After(c, steps).workers[w].Gap?
    ensures var s := After(c, steps);
            && A.WorkerReaches(c, s, w, s')
            && s.q.counter <= s.q.length <= |s.q.slots| && A.Gotten(s, w, s.workers[w].r, s')
  {
    ReachableIsShaped(c, steps);
    s' := A.GetsAlone(c, After(c, steps), w);
  }

  /** A worker that enters my_DFS marks every vertex that is not queued, and nothing else. */
  lemma SearchesAsPromised(c: Config, steps: seq<Step>, w: nat) returns (s': State)
    requires ValidConfig(c) && Legal(c, steps) && !After(c, steps).main.Bump?
    requires w < |After(c, steps).workers| && After(c, steps).workers[w].Start?
    ensures var s := After(c, steps);
            && A.WorkerReaches(c, s, w, s')
            && s' == Go(s.(visited := s'.visited, hist := s.hist.(searched := true)), w, Idle)
            && |s.visited| == |s'.visited| == c.V && s.q.length <= |s.q.slots|
            && forall x :: 0 <= x < c.V ==> (s'.visited[x] <==> s.visited[x] || x !in s.q.slots[..s.q.length])
  {
    var s := After(c, steps);
    ReachableIsShaped(c, steps);
    InvHolds(c, steps);
    assert WorkerInv(c, s, s.workers[w]);
    assert s.q.slots[..s.q.length][s.workers[w].slot] == s.workers[w].v;
    s' := A.SearchesDepthAlone(c, s, w);
  }
}
