/** The breadth-first thread of benchmark/treeSearching/test01.cpp running alone: graph
    construction, queue handling and the main loop, on the program's arrays. */
module BreadthFirst {
  import opened Counting

  const EMPTY := -1

  // ---------------------------------------------------------------- the adjacency matrix

  /** Cell (u, v) of a row-major matrix with V columns. */
  function Cell(V: nat, u: int, v: int): int {
    u * V + v
  }

  lemma CellInRange(V: nat, u: int, v: int)
    requires 0 <= u < V && 0 <= v < V
    ensures 0 <= Cell(V, u, v) < V * V
  {
    assert u * V <= (V - 1) * V;
  }

  lemma CellsDiffer(V: nat, u: int, v: int, x: int, y: int)
    requires 0 <= u < V && 0 <= v < V && 0 <= x < V && 0 <= y < V
    ensures Cell(V, u, v) == Cell(V, x, y) <==> u == x && v == y
  {
    if u < x {
      assert (u + 1) * V <= x * V;
    } else if x < u {
      assert (x + 1) * V <= u * V;
    }
  }

  ghost predicate Edge(V: nat, m: seq<int>, u: int, v: int) {
    0 <= u < V && 0 <= v < V && 0 <= Cell(V, u, v) < |m| && m[Cell(V, u, v)] == 1
  }

  /** Marks the undirected edge between two vertices and touches no other cell. */
  method ConnectNode(V: nat, number1: int, number2: int, num: array<int>)
    requires num.Length == V * V && 0 <= number1 < V && 0 <= number2 < V
    modifies num
    ensures forall u, v :: 0 <= u < V && 0 <= v < V ==>
              (Edge(V, num[..], u, v) <==>
               old(Edge(V, num[..], u, v)) || (u, v) == (number1, number2) || (u, v) == (number2, number1))
  {
    CellInRange(V, number1, number2);
    CellInRange(V, number2, number1);
    ghost var before := num[..];
    var position1 := number1 * V + number2;
    var position2 := number2 * V + number1;
    num[position2] := 1;
    num[position1] := 1;
    forall u, v | 0 <= u < V && 0 <= v < V
      ensures Edge(V, num[..], u, v) <==>
              Edge(V, before, u, v) || (u, v) == (number1, number2) || (u, v) == (number2, number1)
    {
      CellInRange(V, u, v);
      CellsDiffer(V, u, v, number1, number2);
      CellsDiffer(V, u, v, number2, number1);
    }
  }

  ghost predicate Listed(edges: seq<(int, int)>, n: nat, u: int, v: int)
    requires n <= |edges|
  {
    exists k :: 0 <= k < n && (edges[k] == (u, v) || edges[k] == (v, u))
  }

  /** The matrix of an edge list: an edge is marked exactly when the list has it in one of
      the two directions, so the graph is undirected. */
  method InitGraph(V: nat, edges: seq<(int, int)>) returns (num: array<int>)
    requires forall k :: 0 <= k < |edges| ==> 0 <= edges[k].0 < V && 0 <= edges[k].1 < V
    ensures fresh(num) && num.Length == V * V
    ensures forall u, v :: 0 <= u < V && 0 <= v < V ==>
              (Edge(V, num[..], u, v) <==> Listed(edges, |edges|, u, v))
  {
    num := new int[V * V](_ => 0);
    for i := 0 to |edges|
      invariant forall u, v :: 0 <= u < V && 0 <= v < V ==>
                  (Edge(V, num[..], u, v) <==> Listed(edges, i, u, v))
    {
      ghost var before := num[..];
      ConnectNode(V, edges[i].0, edges[i].1, num);
      forall u, v | 0 <= u < V && 0 <= v < V
        ensures Edge(V, num[..], u, v) <==> Listed(edges, i + 1, u, v)
      {
        ListedNext(edges, i, u, v);
        assert Edge(V, before, u, v) <==> Listed(edges, i, u, v);
      }
    }
  }

  lemma ListedNext(edges: seq<(int, int)>, i: nat, u: int, v: int)
    requires i < |edges|
    ensures Listed(edges, i + 1, u, v) <==>
            Listed(edges, i, u, v) || (u, v) == (edges[i].0, edges[i].1) || (u, v) == (edges[i].1, edges[i].0)
  {
    if (u, v) == edges[i] || (v, u) == edges[i] {
      assert edges[i] == (u, v) || edges[i] == (v, u);
    }
    if Listed(edges, i, u, v) {
      var k :| 0 <= k < i && (edges[k] == (u, v) || edges[k] == (v, u));
    }
  }

  // ------------------------------------------------------------------- walks and levels

  /** There is a walk of exactly `k` edges from the root to `v`. */
  ghost predicate Walk(V: nat, m: seq<int>, root: int, k: nat, v: int) {
    if k == 0 then v == root else exists u :: Edge(V, m, u, v) && Walk(V, m, root, k - 1, u)
  }

  ghost predicate Reachable(V: nat, m: seq<int>, root: int, v: int) {
    exists k :: Walk(V, m, root, k, v)
  }

  /** The graph distance: a walk of that length exists and no shorter one. */
  ghost predicate Distance(V: nat, m: seq<int>, root: int, v: int, d: nat) {
    Walk(V, m, root, d, v) && forall k :: 0 <= k < d ==> !Walk(V, m, root, k, v)
  }

  ghost predicate Found(order: seq<int>, level: seq<nat>, x: int, d: int) {
    exists j :: 0 <= j < |order| && j < |level| && order[j] == x && level[j] <= d
  }

  /** The search has met the vertices of `order`, the j-th at level[j], and has processed the
      first `p` of them. */
  ghost predicate Wave(V: nat, m: seq<int>, root: int, order: seq<int>, level: seq<nat>, p: nat) {
    && 0 < |order| == |level| && p <= |order|
    && order[0] == root && level[0] == 0
    && (forall j :: 0 <= j < |order| ==> Walk(V, m, root, level[j], order[j]))
    && (forall i, j :: 0 <= i < j < |order| ==> level[i] <= level[j])
    && (p < |order| ==> forall j :: 0 <= j < |order| ==> level[j] <= level[p] + 1)
    && (forall i, x :: 0 <= i < p && Edge(V, m, order[i], x) ==> Found(order, level, x, level[i] + 1))
  }

  ghost function Repeat(k: nat, d: nat): seq<nat> {
    seq(k, _ => d)
  }

  /** Processing the next vertex appends its new neighbours one level further out. */
  lemma WaveStep(V: nat, m: seq<int>, root: int, order: seq<int>, level: seq<nat>, p: nat, news: seq<int>)
    requires Wave(V, m, root, order, level, p) && p < |order|
    requires forall k :: 0 <= k < |news| ==> Edge(V, m, order[p], news[k])
    requires forall x :: Edge(V, m, order[p], x) ==> x in order + news
    ensures Wave(V, m, root, order + news, level + Repeat(|news|, level[p] + 1), p + 1)
  {
    var order', level' := order + news, level + Repeat(|news|, level[p] + 1);
    forall j | 0 <= j < |order'| ensures Walk(V, m, root, level'[j], order'[j]) {
      if j >= |order| {
        assert Edge(V, m, order[p], order'[j]) && Walk(V, m, root, level[p], order[p]);
      }
    }
    forall i, x | 0 <= i < p + 1 && Edge(V, m, order'[i], x) ensures Found(order', level', x, level'[i] + 1) {
      if i < p {
        FoundStays(order, level, order', level', x, level[i] + 1);
      } else {
        var j :| 0 <= j < |order'| && order'[j] == x;
        assert level'[j] <= level[p] + 1;
      }
    }
  }

  lemma FoundStays(order: seq<int>, level: seq<nat>, order': seq<int>, level': seq<nat>, x: int, d: int)
    requires Found(order, level, x, d) && order <= order' && level <= level'
    ensures Found(order', level', x, d)
  {
    var j :| 0 <= j < |order| && j < |level| && order[j] == x && level[j] <= d;
    assert order'[j] == x && level'[j] <= d;
  }

  /** When everything met has been processed, every walk ends at a vertex met at a level not
      beyond its length. */
  lemma {:induction false} WaveComplete(V: nat, m: seq<int>, root: int, order: seq<int>, level: seq<nat>,
                                        k: nat, v: int)
    requires Wave(V, m, root, order, level, |order|) && Walk(V, m, root, k, v)
    ensures Found(order, level, v, k)
  {
    if k > 0 {
      var u :| Edge(V, m, u, v) && Walk(V, m, root, k - 1, u);
      WaveComplete(V, m, root, order, level, k - 1, u);
      var i :| 0 <= i < |order| && i < |level| && order[i] == u && level[i] <= k - 1;
      assert Found(order, level, v, level[i] + 1);
    }
  }

  /** A finished search has met exactly the reachable vertices, each at its distance, in
      nondecreasing order of distance. */
  lemma WaveFinished(V: nat, m: seq<int>, root: int, order: seq<int>, level: seq<nat>)
    requires Wave(V, m, root, order, level, |order|) && Distinct(order)
    ensures forall v :: v in order <==> Reachable(V, m, root, v)
    ensures forall j :: 0 <= j < |order| ==> Distance(V, m, root, order[j], level[j])
    ensures forall i, j :: 0 <= i < j < |order| ==> level[i] <= level[j]
  {
    forall v ensures v in order <==> Reachable(V, m, root, v) {
      if v in order {
        var j :| 0 <= j < |order| && order[j] == v;
        assert Walk(V, m, root, level[j], v);
      }
      if Reachable(V, m, root, v) {
        var k :| Walk(V, m, root, k, v);
        WaveComplete(V, m, root, order, level, k, v);
      }
    }
    forall j, k | 0 <= j < |order| && 0 <= k < level[j] ensures !Walk(V, m, root, k, order[j]) {
      if Walk(V, m, root, k, order[j]) {
        WaveComplete(V, m, root, order, level, k, order[j]);
      }
    }
  }

  // -------------------------------------------------------------------- the shared queue

  /** `n` distinct vertices other than the root, then free slots. */
  ghost predicate Shape(V: nat, root: int, q: seq<int>, n: nat) {
    && |q| == V && n < V
    && (forall k :: 0 <= k < n ==> 0 <= q[k] < V && q[k] != root)
    && Distinct(q[..n])
    && (forall k :: n <= k < V ==> q[k] == EMPTY)
  }

  /** A new vertex that is not the root always finds a free slot. */
  lemma ShapeAppend(V: nat, root: int, q: seq<int>, n: nat, i: int)
    requires Shape(V, root, q, n) && 0 <= root < V && 0 <= i < V && i != root && i !in q[..n]
    ensures Shape(V, root, q[n := i], n + 1)
    ensures q[n := i][..n + 1] == q[..n] + [i]
  {
    var q' := q[n := i];
    assert q'[..n + 1] == q[..n] + [i];
    DistinctBelow(q'[..n + 1], V, {root});
  }

  /** What one pass over the first `i` candidates has done: the queue grew from `n0` to `n`
      slots, by unvisited neighbours of `id` only, and no neighbour among the candidates is
      neither visited nor queued. */
  ghost predicate Grown(V: nat, m: seq<int>, root: int, id: int, marks: seq<bool>,
                        q0: seq<int>, n0: nat, q: seq<int>, n: nat, i: nat) {
    && |marks| == V == |q0| && n0 <= n && i <= V
    && Shape(V, root, q, n)
    && q[..n0] == q0[..n0]
    && (forall k :: n0 <= k < n ==> Edge(V, m, id, q[k]) && !marks[q[k]])
    && (forall x :: 0 <= x < i && Edge(V, m, id, x) ==> marks[x] || x in q[..n])
  }

  lemma GrownSkip(V: nat, m: seq<int>, root: int, id: int, marks: seq<bool>,
                  q0: seq<int>, n0: nat, q: seq<int>, n: nat, i: nat)
    requires Grown(V, m, root, id, marks, q0, n0, q, n, i) && i < V
    requires !Edge(V, m, id, i) || marks[i] || i in q[..n]
    ensures Grown(V, m, root, id, marks, q0, n0, q, n, i + 1)
  {
  }

  lemma GrownAppend(V: nat, m: seq<int>, root: int, id: int, marks: seq<bool>,
                    q0: seq<int>, n0: nat, q: seq<int>, n: nat, i: nat)
    requires Grown(V, m, root, id, marks, q0, n0, q, n, i) && i < V && 0 <= root < V && marks[root]
    requires Edge(V, m, id, i) && !marks[i] && i !in q[..n]
    ensures Grown(V, m, root, id, marks, q0, n0, q[n := i], n + 1, i + 1)
  {
    var q' := q[n := i];
    ShapeAppend(V, root, q, n, i);
    assert q'[..n0] == q[..n0];
    forall x | 0 <= x < i + 1 && Edge(V, m, id, x) ensures marks[x] || x in q'[..n + 1] {
      if x < i && x in q[..n] { assert x in q[..n] + [i]; }
    }
  }

  /** The order in which vertices are met: the root, then the queue. */
  ghost function Order(root: int, q: seq<int>, n: nat): seq<int>
    requires n <= |q|
  {
    [root] + q[..n]
  }

  /** `p` vertices have been processed, and these are the visited ones. */
  ghost predicate Progress(V: nat, m: seq<int>, root: int, marks: seq<bool>,
                           q: seq<int>, n: nat, level: seq<nat>, p: nat) {
    && Shape(V, root, q, n) && |marks| == V && p <= n + 1
    && Wave(V, m, root, Order(root, q, n), level, p)
    && Marked(V, marks, Order(root, q, n), p)
  }

  /** The marks are those of the first `p` vertices met. */
  ghost predicate Marked(V: nat, marks: seq<bool>, order: seq<int>, p: nat) {
    |marks| == V && p <= |order| && forall x :: 0 <= x < V ==> (marks[x] <==> x in order[..p])
  }

  /** The levels after the vertex in position `p` was processed and the queue has `n` slots. */
  ghost function Extend(level: seq<nat>, p: nat, n: nat): seq<nat>
    requires p < |level| <= n + 1
  {
    level + Repeat(n + 1 - |level|, level[p] + 1)
  }

  lemma ProgressStep(V: nat, m: seq<int>, root: int, marks: seq<bool>,
                     q0: seq<int>, n0: nat, q: seq<int>, n: nat, level: seq<nat>, p: nat, id: int)
    requires Progress(V, m, root, marks, q0, n0, level, p) && 0 <= root < V
    requires p <= n0 && id == Order(root, q0, n0)[p] && 0 <= id < V
    requires Grown(V, m, root, id, marks[id := true], q0, n0, q, n, V)
    ensures Progress(V, m, root, marks[id := true], q, n, Extend(level, p, n), p + 1)
  {
    forall x | Edge(V, m, id, x) ensures x in Order(root, q, n) {
      NeighbourMet(V, m, root, marks, q0, n0, q, n, p, id, x);
    }
    OrderGrows(root, q0, n0, q, n);
    WaveNext(V, m, root, q0, n0, q, n, level, p);
    MarkNext(V, marks, Order(root, q0, n0), Order(root, q, n), p, id);
  }

  lemma WaveNext(V: nat, m: seq<int>, root: int, q0: seq<int>, n0: nat, q: seq<int>, n: nat, level: seq<nat>, p: nat)
    requires p <= n0 <= |q0| && n0 <= n <= |q| && q[..n0] == q0[..n0]
    requires Wave(V, m, root, Order(root, q0, n0), level, p)
    requires forall k :: n0 <= k < n ==> Edge(V, m, Order(root, q0, n0)[p], q[k])
    requires forall x :: Edge(V, m, Order(root, q0, n0)[p], x) ==> x in Order(root, q, n)
    ensures Wave(V, m, root, Order(root, q, n), Extend(level, p, n), p + 1)
  {
    var order, news := Order(root, q0, n0), q[n0..n];
    OrderGrows(root, q0, n0, q, n);
    forall k | 0 <= k < |news| ensures Edge(V, m, order[p], news[k]) {
      assert news[k] == q[n0 + k];
    }
    WaveStep(V, m, root, order, level, p, news);
  }

  lemma MarkNext(V: nat, marks: seq<bool>, order: seq<int>, order': seq<int>, p: nat, id: int)
    requires p < |order| && order <= order' && order[p] == id && 0 <= id < V
    requires Marked(V, marks, order, p)
    ensures Marked(V, marks[id := true], order', p + 1)
  {
    assert order'[..p + 1] == order[..p] + [id];
  }

  lemma NeighbourMet(V: nat, m: seq<int>, root: int, marks: seq<bool>,
                     q0: seq<int>, n0: nat, q: seq<int>, n: nat, p: nat, id: int, x: int)
    requires n0 <= |q0| && p <= n0 && id == Order(root, q0, n0)[p] && 0 <= id < V == |marks|
    requires Marked(V, marks, Order(root, q0, n0), p)
    requires Grown(V, m, root, id, marks[id := true], q0, n0, q, n, V) && Edge(V, m, id, x)
    ensures x in Order(root, q, n)
  {
    OrderGrows(root, q0, n0, q, n);
    if x in q[..n] {
    } else if x == id {
      assert Order(root, q, n)[p] == id;
    } else {
      assert x in Order(root, q0, n0);
    }
  }

  lemma OrderGrows(root: int, q0: seq<int>, n0: nat, q: seq<int>, n: nat)
    requires n0 <= |q0| && n0 <= n <= |q| && q[..n0] == q0[..n0]
    ensures Order(root, q, n) == Order(root, q0, n0) + q[n0..n]
  {
    assert q[..n] == q[..n0] + q[n0..n];
  }

  /** The next vertex to process is unvisited, and later ones find the root visited. */
  lemma NextIsNew(V: nat, m: seq<int>, root: int, marks: seq<bool>, q: seq<int>, n: nat, level: seq<nat>, p: nat)
    requires Progress(V, m, root, marks, q, n, level, p) && p <= n && 0 <= root < V
    ensures var id := Order(root, q, n)[p];
            0 <= id < V && !marks[id] && (marks[root] || id == root)
  {
    var order := Order(root, q, n);
    OrderDistinct(V, root, q, n);
    if p > 0 {
      assert order[p] == q[p - 1];
      assert order[0] in order[..p];
    }
  }

  lemma ProgressFinished(V: nat, m: seq<int>, root: int, marks: seq<bool>, q: seq<int>, n: nat, level: seq<nat>)
    requires Progress(V, m, root, marks, q, n, level, n + 1)
    ensures forall x :: 0 <= x < V ==> (marks[x] <==> Reachable(V, m, root, x))
    ensures |level| == n + 1
    ensures forall k :: 0 <= k < n ==> Distance(V, m, root, q[k], level[k + 1])
    ensures forall i, j :: 0 <= i < j < |level| ==> level[i] <= level[j]
  {
    var order := Order(root, q, n);
    OrderDistinct(V, root, q, n);
    WaveFinished(V, m, root, order, level);
    assert order[..n + 1] == order;
    forall k | 0 <= k < n ensures Distance(V, m, root, q[k], level[k + 1]) {
      assert order[k + 1] == q[k];
    }
  }

  class Search {
    const V: nat
    const root: int
    const totalNode: array<int>
    const visited: array<bool>
    const bfsQueue: array<int>
    var length: nat
    var counter: nat

    ghost predicate Valid()
      reads this, totalNode, visited, bfsQueue
    {
      && V >= 1 && 0 <= root < V
      && totalNode.Length == V * V && visited.Length == V && totalNode != bfsQueue
      && counter <= length
      && Shape(V, root, bfsQueue[..], length)
    }

    /** Nothing visited, all slots free. */
    constructor (V: nat, root: int, totalNode: array<int>)
      requires V >= 1 && 0 <= root < V && totalNode.Length == V * V
      ensures Valid() && this.V == V && this.root == root && this.totalNode == totalNode
      ensures length == 0 && counter == 0 && fresh(visited) && fresh(bfsQueue)
      ensures forall x :: 0 <= x < V ==> !visited[x]
    {
      this.V := V;
      this.root := root;
      this.totalNode := totalNode;
      this.length := 0;
      this.counter := 0;
      this.visited := new bool[V](_ => false);
      this.bfsQueue := new int[V](_ => EMPTY);
    }

    /** Is `id` in the stack, between position `from` and the first free slot? */
    method WhertherInLine(id: int, myStack: array<int>, from: nat) returns (found: bool)
      requires myStack.Length == V && from <= V
      ensures found <==> exists k :: from <= k < V && myStack[k] == id
                                     && forall j :: from <= j <= k ==> myStack[j] != EMPTY
    {
      var k := from;
      while true
        invariant from <= k <= V
        invariant forall j :: from <= j < k ==> myStack[j] != EMPTY && myStack[j] != id
        decreases V - k
      {
        if k == V { return false; }
        if myStack[k] == EMPTY { return false; }
        if myStack[k] == id { return true; }
        k := k + 1;
      }
    }

    /** Writes the first free slot, then counts it. */
    method Append(i: int)
      requires bfsQueue.Length == V && length < V
      modifies this`length, bfsQueue
      ensures bfsQueue[..] == old(bfsQueue[..])[old(length) := i] && length == old(length) + 1
    {
      bfsQueue[length] := i;
      length := length + 1;
    }

    /** Visits `id` and appends its unvisited, unqueued neighbours; does nothing when `id` was
        visited before. */
    method ProcessCurrentNode(id: int)
      requires Valid() && 0 <= id < V && (visited[root] || id == root)
      modifies this`length, visited, bfsQueue
      ensures Valid()
      ensures visited[..] == old(visited[..])[id := true]
      ensures old(visited[id]) ==> length == old(length) && bfsQueue[..] == old(bfsQueue[..])
      ensures !old(visited[id]) ==>
                Grown(V, totalNode[..], root, id, visited[..], old(bfsQueue[..]), old(length), bfsQueue[..], length, V)
    {
      if visited[id] {
        assert visited[..] == visited[..][id := true];
        return;
      }
      visited[id] := true;
      ghost var m, marks, q0, n0 := totalNode[..], visited[..], bfsQueue[..], length;
      for i := 0 to V
        invariant totalNode[..] == m && visited[..] == marks
        invariant Grown(V, m, root, id, marks, q0, n0, bfsQueue[..], length, i)
      {
        ghost var q, n := bfsQueue[..], length;
        CellInRange(V, id, i);
        if totalNode[id * V + i] == 1 && !visited[i] {
          var inLine := WhertherInLine(i, bfsQueue, 0);
          LineIsPrefix(V, root, q, n, i, inLine);
          if !inLine {
            GrownAppend(V, m, root, id, marks, q0, n0, q, n, i);
            Append(i);
          } else {
            GrownSkip(V, m, root, id, marks, q0, n0, q, n, i);
          }
        } else {
          GrownSkip(V, m, root, id, marks, q0, n0, q, n, i);
        }
      }
    }

    /** Hands out the next slot, or -1. A worker leaves the last two slots alone. */
    method UnsafeGetData(isMain: bool) returns (tmp: int)
      requires Valid()
      modifies this`counter
      ensures Valid()
      ensures tmp == EMPTY ==> counter == old(counter)
      ensures tmp != EMPTY ==> old(counter) < length && counter == old(counter) + 1 && tmp == bfsQueue[old(counter)]
      ensures tmp == EMPTY <==> if isMain then old(counter) == length else length - old(counter) <= 2
    {
      tmp := EMPTY;
      if !isMain && length - counter <= 2 { return; }
      if bfsQueue[counter] == EMPTY || counter == V { return; }
      if counter == length { return; }
      tmp := bfsQueue[counter];
      counter := counter + 1;
    }

    /** One processCurrentNode of the main loop, seen as a step of the wave. */
    method ProcessNext(previous: int, ghost level: seq<nat>) returns (ghost level': seq<nat>)
      requires Valid()
      requires Progress(V, totalNode[..], root, visited[..], bfsQueue[..], length, level, counter)
      requires previous == Order(root, bfsQueue[..], length)[counter]
      modifies this`length, visited, bfsQueue
      ensures Valid()
      ensures Progress(V, totalNode[..], root, visited[..], bfsQueue[..], length, level', counter + 1)
    {
      ghost var m, marks, q, n := totalNode[..], visited[..], bfsQueue[..], length;
      NextIsNew(V, m, root, marks, q, n, level, counter);
      ProcessCurrentNode(previous);
      ProgressStep(V, m, root, marks, q, n, bfsQueue[..], length, level, counter, previous);
      level' := Extend(level, counter, length);
    }

    /** The loop of the breadth-first thread, with the level of every vertex met. */
    method MainLoop() returns (ghost level: seq<nat>)
      requires Valid() && length == 0 && counter == 0
      requires forall x :: 0 <= x < V ==> !visited[x]
      modifies this`length, this`counter, visited, bfsQueue
      ensures Valid() && counter == length
      ensures Progress(V, totalNode[..], root, visited[..], bfsQueue[..], length, level, length + 1)
    {
      var previous := root;
      ghost var m := totalNode[..];
      level := [0];
      ProgressStart(V, m, root, visited[..], bfsQueue[..]);
      while true
        invariant Valid() && totalNode[..] == m
        invariant Progress(V, m, root, visited[..], bfsQueue[..], length, level, counter)
        invariant previous == Order(root, bfsQueue[..], length)[counter]
        decreases V - counter
      {
        level := ProcessNext(previous, level);
        if bfsQueue[counter] == EMPTY || counter == V { break; }
        var current := UnsafeGetData(true);
        if current == EMPTY { break; }
        previous := current;
      }
    }

    /** The main loop alone: it ends, it has visited exactly the vertices reachable from the
        root, and the vertices left the queue in nondecreasing distance from the root. */
    method NormalBfs() returns (ghost level: seq<nat>)
      requires Valid() && length == 0 && counter == 0
      requires forall x :: 0 <= x < V ==> !visited[x]
      modifies this`length, this`counter, visited, bfsQueue
      ensures Valid() && counter == length
      ensures forall x :: 0 <= x < V ==> (visited[x] <==> Reachable(V, totalNode[..], root, x))
      ensures |level| == length
      ensures forall k :: 0 <= k < length ==> Distance(V, totalNode[..], root, bfsQueue[k], level[k])
      ensures forall i, j :: 0 <= i < j < length ==> level[i] <= level[j]
    {
      ghost var levels := MainLoop();
      ProgressFinished(V, totalNode[..], root, visited[..], bfsQueue[..], length, levels);
      level := levels[1..];
    }
  }

  lemma ProgressStart(V: nat, m: seq<int>, root: int, marks: seq<bool>, q: seq<int>)
    requires Shape(V, root, q, 0) && |marks| == V && forall x :: 0 <= x < V ==> !marks[x]
    ensures Progress(V, m, root, marks, q, 0, [0], 0)
  {
    assert Order(root, q, 0) == [root];
  }

  lemma LineIsPrefix(V: nat, root: int, q: seq<int>, n: nat, id: int, found: bool)
    requires Shape(V, root, q, n) && id != EMPTY
    requires found <==> exists k :: 0 <= k < V && q[k] == id && forall j :: 0 <= j <= k ==> q[j] != EMPTY
    ensures found <==> id in q[..n]
  {
    if id in q[..n] {
      var k :| 0 <= k < n && q[k] == id;
      assert forall j :: 0 <= j <= k ==> q[j] != EMPTY;
    }
  }

  lemma OrderDistinct(V: nat, root: int, q: seq<int>, n: nat)
    requires Shape(V, root, q, n)
    ensures Distinct([root] + q[..n])
  {
  }
}
