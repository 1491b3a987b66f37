/** In which order the rounds run the scripts, and which sets of scripts have an order at all. */
module MigrationOrders {
  import opened Counting
  import opened Migration
  import opened MigrationDepth

  // ------------------------------------------------------------------ orders of a run

  ghost predicate Before(order: seq<Tag>, a: Tag, b: Tag) {
    exists p, q :: 0 <= p < q < |order| && order[p] == a && order[q] == b
  }

  lemma Listed(s: set<Tag>) returns (order: seq<Tag>)
    ensures Lists(order, s)
  {
    order := Listing(s);
    DistinctCard(order);
    assert SetOf(order) == s;
  }

  lemma ListedFirst(s: set<Tag>, b: Tag) returns (order: seq<Tag>)
    requires b in s
    ensures Lists(order, s) && order[0] == b
  {
    var rest := Listed(s - {b});
    assert Lists([b], {b});
    ListsJoin([b], {b}, rest, s - {b});
    order := [b] + rest;
    assert {b} + (s - {b}) == s;
  }

  /** The rounds can finish. */
  ghost predicate Finishes(r: Scripts, tags: set<Tag>)
    requires Valid(r)
  {
    Done(r, tags, |Pending(r, tags)|) == Pending(r, tags)
  }

  lemma FinishesIff(r: Scripts, tags: set<Tag>)
    requires Valid(r)
    ensures Finishes(r, tags) <==> Rounds(r, tags, Pending(r, tags)).Migrated?
  {
    RoundsEnd(r, tags);
  }

  /** A run that cannot go on has run everything. */
  lemma StopIsEnd(r: Scripts, tags: set<Tag>, k: nat)
    requires Valid(r) && Finishes(r, tags) && Next(r, tags, k) == {}
    ensures Done(r, tags, k) == Pending(r, tags)
  {
    var n := |Pending(r, tags)|;
    if k <= n { StuckStays(r, tags, k, n); } else { DoneMono(r, tags, n, k); }
  }

  lemma FrontOf(r: Scripts, tags: set<Tag>, order: seq<Tag>, j: nat)
    requires Valid(r) && Possible(r, tags, order)
    ensures FrontIs(order, Done(r, tags, j))
  {
    var k: nat :| Next(r, tags, k) == {} && RunsTo(r, tags, k, order);
    if j > k { StuckStays(r, tags, k, j); }
    assert FrontAt(r, tags, order, if j > k then k else j);
  }

  lemma FullOrder(r: Scripts, tags: set<Tag>, order: seq<Tag>)
    requires Valid(r) && Finishes(r, tags) && Possible(r, tags, order)
    ensures Lists(order, Pending(r, tags))
  {
    var k: nat :| Next(r, tags, k) == {} && RunsTo(r, tags, k, order);
    StopIsEnd(r, tags, k);
  }

  lemma IndexBeyond(order: seq<Tag>, m: nat, a: Tag, p: nat)
    requires m <= |order| && p < |order| && a !in order[..m]
    ensures p < m ==> order[p] != a
  {
    if p < m { assert order[..m][p] == order[p]; }
  }

  lemma FrontFirst(order: seq<Tag>, n: nat, a: Tag, b: Tag)
    requires n <= |order| && a in order[..n] && b in order && b !in order[..n]
    ensures Before(order, a, b)
  {
    var p :| 0 <= p < n && order[..n][p] == a;
    var q :| 0 <= q < |order| && order[q] == b;
    IndexBeyond(order, n, b, q);
    assert order[p] == a;
  }

  /** A script of an earlier round runs before one of a later round. */
  lemma EarlierRound(r: Scripts, tags: set<Tag>, order: seq<Tag>, k: nat, a: Tag, b: Tag)
    requires Valid(r) && Finishes(r, tags) && Possible(r, tags, order)
    requires a in Done(r, tags, k) && b in Pending(r, tags) - Done(r, tags, k)
    ensures Before(order, a, b)
  {
    FrontOf(r, tags, order, k);
    FullOrder(r, tags, order);
    FrontFirst(order, |Done(r, tags, k)|, a, b);
  }

  /** `b` is the first of its round. */
  ghost predicate Leads(r: Scripts, tags: set<Tag>, order: seq<Tag>, b: Tag)
    requires Valid(r)
  {
    exists j: nat :: LeadsIn(r, tags, order, b, j)
  }

  ghost predicate LeadsIn(r: Scripts, tags: set<Tag>, order: seq<Tag>, b: Tag, j: nat)
    requires Valid(r)
  {
    var n := |Done(r, tags, j)|;
    b !in Done(r, tags, j) && n < |order| && Lists(order[..n], Done(r, tags, j)) && order[n] == b
  }

  lemma LeadsStays(r: Scripts, tags: set<Tag>, order: seq<Tag>, more: seq<Tag>, b: Tag)
    requires Valid(r) && Leads(r, tags, order, b)
    ensures Leads(r, tags, order + more, b)
  {
    var j: nat :| LeadsIn(r, tags, order, b, j);
    var n := |Done(r, tags, j)|;
    assert (order + more)[..n] == order[..n];
    assert LeadsIn(r, tags, order + more, b, j);
  }

  lemma LeadsNow(r: Scripts, tags: set<Tag>, k: nat, order: seq<Tag>, ran: seq<Tag>, b: Tag)
    requires Valid(r) && Lists(order, Done(r, tags, k)) && b !in Done(r, tags, k) && ran != [] && ran[0] == b
    ensures Leads(r, tags, order + ran, b)
  {
    assert (order + ran)[..|order|] == order;
    assert LeadsIn(r, tags, order + ran, b, k);
  }

  lemma NextWith(r: Scripts, tags: set<Tag>, k: nat, front: seq<Tag>, b: Tag) returns (ran: seq<Tag>)
    requires Valid(r) && Lists(front, Done(r, tags, k)) && (b in Done(r, tags, k) ==> Leads(r, tags, front, b))
    ensures Lists(ran, Next(r, tags, k))
    ensures b in Done(r, tags, k) || b in Next(r, tags, k) ==> Leads(r, tags, front + ran, b)
  {
    if b in Next(r, tags, k) {
      ran := ListedFirst(Next(r, tags, k), b);
      LeadsNow(r, tags, k, front, ran, b);
    } else {
      ran := Listed(Next(r, tags, k));
      if b in Done(r, tags, k) { LeadsStays(r, tags, front, ran, b); }
    }
  }

  lemma RunsToStart(r: Scripts, tags: set<Tag>, b: Tag)
    requires Valid(r)
    ensures RunsTo(r, tags, 0, []) && b !in Done(r, tags, 0)
  {
    assert Lists([], {});
    assert FrontAt(r, tags, [], 0);
  }

  /** A run in which `b` leads its round. */
  lemma {:induction false} RunWith(r: Scripts, tags: set<Tag>, k: nat, b: Tag) returns (order: seq<Tag>)
    requires Valid(r)
    ensures RunsTo(r, tags, k, order) && (b in Done(r, tags, k) ==> Leads(r, tags, order, b))
  {
    if k == 0 {
      order := [];
      RunsToStart(r, tags, b);
    } else {
      var front := RunWith(r, tags, k - 1, b);
      order := RunOn(r, tags, k - 1, front, b);
    }
  }

  lemma RunOn(r: Scripts, tags: set<Tag>, k: nat, front: seq<Tag>, b: Tag) returns (order: seq<Tag>)
    requires Valid(r) && RunsTo(r, tags, k, front) && (b in Done(r, tags, k) ==> Leads(r, tags, front, b))
    ensures RunsTo(r, tags, k + 1, order) && (b in Done(r, tags, k + 1) ==> Leads(r, tags, order, b))
  {
    var ran := NextWith(r, tags, k, front, b);
    NextFacts(r, tags, k);
    RunsToNext(r, tags, k, front, ran);
    order := front + ran;
  }

  lemma LeaderIsNotBehind(r: Scripts, tags: set<Tag>, order: seq<Tag>, a: Tag, b: Tag)
    requires Valid(r) && Distinct(order) && Leads(r, tags, order, b)
    requires forall j: nat :: a in Done(r, tags, j) ==> b in Done(r, tags, j)
    ensures !Before(order, a, b)
  {
    var j: nat :| LeadsIn(r, tags, order, b, j);
    var n := |Done(r, tags, j)|;
    assert a !in order[..n];
    forall p, q | 0 <= p < q < |order| && order[p] == a ensures order[q] != b {
      IndexBeyond(order, n, a, p);
    }
  }

  /** `a` runs in an earlier round than `b`. */
  ghost predicate RoundBefore(r: Scripts, tags: set<Tag>, a: Tag, b: Tag)
    requires Valid(r)
  {
    exists k: nat :: a in Done(r, tags, k) && b !in Done(r, tags, k)
  }

  /** `a` runs before `b` whatever the iteration order is. */
  ghost predicate AlwaysBefore(r: Scripts, tags: set<Tag>, a: Tag, b: Tag)
    requires Valid(r)
  {
    forall order :: Possible(r, tags, order) ==> Before(order, a, b)
  }

  lemma AlwaysBeforeIff(r: Scripts, tags: set<Tag>, a: Tag, b: Tag)
    requires Valid(r) && Finishes(r, tags) && a in Pending(r, tags) && b in Pending(r, tags)
    ensures AlwaysBefore(r, tags, a, b) <==> RoundBefore(r, tags, a, b)
  {
    if RoundBefore(r, tags, a, b) {
      var k: nat :| a in Done(r, tags, k) && b !in Done(r, tags, k);
      forall order | Possible(r, tags, order) ensures Before(order, a, b) {
        EarlierRound(r, tags, order, k, a, b);
      }
    } else {
      var n := |Pending(r, tags)|;
      var order := RunWith(r, tags, n, b);
      assert Next(r, tags, n) == {};
      assert Possible(r, tags, order);
      LeaderIsNotBehind(r, tags, order, a, b);
    }
  }

  lemma RoundBeforeIff(r: Scripts, tags: set<Tag>, a: Tag, b: Tag)
    requires Valid(r) && Leveled(r, tags) && Finishes(r, tags) && a in Pending(r, tags) && b in Pending(r, tags)
    ensures RoundBefore(r, tags, a, b) <==> Depth(r, tags, a) < Depth(r, tags, b)
  {
    var n := |Pending(r, tags)|;
    if Depth(r, tags, a) < Depth(r, tags, b) {
      var k := Depth(r, tags, b);
      DoneIsBelowToo(r, tags, k, n);
      DepthIff(r, tags, a, k);
    }
    forall k: nat | a in Done(r, tags, k) && b !in Done(r, tags, k) ensures Depth(r, tags, a) < Depth(r, tags, b) {
      DoneIsBelowToo(r, tags, k, n);
      DepthIff(r, tags, a, k);
      DepthIff(r, tags, b, k);
    }
  }

  /** In a migration that succeeds, `a` runs before `b` whatever the iteration order is, if and
      only if it is less deep. */
  lemma BeforeIff(r: Scripts, tags: set<Tag>, a: Tag, b: Tag)
    requires Valid(r) && Rounds(r, tags, Pending(r, tags)).Migrated?
    requires a in Pending(r, tags) && b in Pending(r, tags)
    ensures Leveled(r, tags) && (AlwaysBefore(r, tags, a, b) <==> Depth(r, tags, a) < Depth(r, tags, b))
  {
    MigratesIff(r, tags);
    FinishesIff(r, tags);
    AlwaysBeforeIff(r, tags, a, b);
    RoundBeforeIff(r, tags, a, b);
  }

  // ------------------------------------------------------ sets of scripts with an order

  /** `t` can be placed after the scripts of `placed`: what it needs is present or placed,
      and if it removes its tag, all others that need the tag are placed. */
  ghost predicate Placeable(r: Scripts, tags: set<Tag>, placed: set<Tag>, t: Tag)
    requires t in r.byTag
  {
    && Supported(r.byTag[t], tags, placed)
    && forall s :: s != t && Needs(r, tags, s, t) ==> s in placed
  }

  ghost function Placed(r: Scripts, tags: set<Tag>, n: nat): (p: set<Tag>)
    requires Valid(r)
    ensures p <= Pending(r, tags)
  {
    if n == 0 then {}
    else set t | t in Pending(r, tags) && Placeable(r, tags, Placed(r, tags, n - 1), t)
  }

  lemma {:induction false} PlacedGrows(r: Scripts, tags: set<Tag>, n: nat)
    requires Valid(r)
    ensures Placed(r, tags, n) <= Placed(r, tags, n + 1)
  {
    if n > 0 { PlacedGrows(r, tags, n - 1); }
  }

  lemma {:induction false} PlacedMono(r: Scripts, tags: set<Tag>, m: nat, n: nat)
    requires Valid(r) && m <= n
    ensures Placed(r, tags, m) <= Placed(r, tags, n)
    decreases n
  {
    if m < n {
      PlacedMono(r, tags, m, n - 1);
      PlacedGrows(r, tags, n - 1);
    }
  }

  /** There is no circle among "needs to run after" and "must not be removed before". */
  ghost predicate Orderable(r: Scripts, tags: set<Tag>)
    requires Valid(r)
  {
    Placed(r, tags, |Pending(r, tags)|) == Pending(r, tags)
  }

  lemma {:induction false} SolvedIsPlaced(r: Scripts, tags: set<Tag>, order: seq<Tag>, p: nat)
    requires Valid(r) && Solves(r, tags, order) && p < |order|
    ensures order[p] in Placed(r, tags, p + 1)
  {
    var t := order[p];
    assert t in SetOf(order);
    forall q | 0 <= q < p ensures order[q] in Placed(r, tags, p) {
      SolvedIsPlaced(r, tags, order, q);
      PlacedMono(r, tags, q + 1, p);
    }
    forall d | d in r.byTag[t].depends ensures d in tags || d in Placed(r, tags, p) {
      DependencyEarlier(r, tags, order, p, d);
    }
    forall s | s != t && Needs(r, tags, s, t) ensures s in Placed(r, tags, p) {
      var q := NeedsEarlier(r, tags, order, p, s);
    }
  }

  lemma DependencyEarlier(r: Scripts, tags: set<Tag>, order: seq<Tag>, p: nat, d: Tag)
    requires Runnable(r, tags, order) && p < |order| && order[p] in r.byTag && d in r.byTag[order[p]].depends
    ensures d in tags || exists q :: 0 <= q < p && order[q] == d
  {
    assert Ready(r.byTag[order[p]], Applied(r, tags, SetOf(order[..p])));
    if d !in tags {
      assert d in SetOf(order[..p]);
      var q :| 0 <= q < p && order[..p][q] == d;
      assert order[q] == d;
    }
  }

  /** Whoever needs a tag runs before its removal. */
  lemma NeedsEarlier(r: Scripts, tags: set<Tag>, order: seq<Tag>, p: nat, s: Tag) returns (q: nat)
    requires Valid(r) && Solves(r, tags, order) && p < |order| && s != order[p] && Needs(r, tags, s, order[p])
    ensures q < p && order[q] == s
  {
    assert s in SetOf(order);
    q :| 0 <= q < |order| && order[q] == s;
    assert Ready(r.byTag[s], Applied(r, tags, SetOf(order[..q])));
    assert order[p] !in SetOf(order[..q]) * r.untagSet;
    IndexBeyond(order, q, order[p], p);
  }

  lemma NotPlacedYet(r: Scripts, tags: set<Tag>, n: nat, t: Tag, d: Tag)
    requires Valid(r) && t in Pending(r, tags) && t !in Placed(r, tags, n) && d in r.byTag[t].depends && d != t
    ensures d !in Placed(r, tags, n + 1) * r.untagSet
  {
    if d in Pending(r, tags) * r.untagSet {
      assert Needs(r, tags, t, d);
      PlacedIff(r, tags, d, n);
    }
  }

  lemma PlacedRuns(r: Scripts, tags: set<Tag>, n: nat, ran: set<Tag>, t: Tag)
    requires Valid(r) && t in Placed(r, tags, n + 1) && t !in Placed(r, tags, n) && t !in ran
    requires Placed(r, tags, n) <= ran <= Placed(r, tags, n + 1)
    ensures Ready(r.byTag[t], Applied(r, tags, ran))
  {
    PlacedIff(r, tags, t, n);
    forall d | d in r.byTag[t].depends ensures d in Applied(r, tags, ran) {
      assert d in tags || d in Placed(r, tags, n);
      if d != t { NotPlacedYet(r, tags, n, t, d); }
    }
  }

  lemma RunnableJoin(r: Scripts, tags: set<Tag>, front: seq<Tag>, more: seq<Tag>)
    requires Runnable(r, tags, front)
    requires forall j :: 0 <= j < |more| ==>
               more[j] in r.byTag && Ready(r.byTag[more[j]], Applied(r, tags, SetOf(front + more[..j])))
    ensures Runnable(r, tags, front + more)
  {
    var order := front + more;
    forall i | 0 <= i < |order|
      ensures order[i] in r.byTag && Ready(r.byTag[order[i]], Applied(r, tags, SetOf(order[..i])))
    {
      if i < |front| {
        assert order[..i] == front[..i];
      } else {
        assert order[..i] == front + more[..i - |front|];
      }
    }
  }

  lemma PlaceRuns(r: Scripts, tags: set<Tag>, n: nat, front: seq<Tag>, more: seq<Tag>, j: nat)
    requires Valid(r) && Lists(front, Placed(r, tags, n)) && j < |more|
    requires Lists(more, Placed(r, tags, n + 1) - Placed(r, tags, n))
    ensures more[j] in r.byTag && Ready(r.byTag[more[j]], Applied(r, tags, SetOf(front + more[..j])))
  {
    var ran := SetOf(front + more[..j]);
    PlacedGrows(r, tags, n);
    assert more[j] in more && more[j] !in more[..j];
    assert forall t :: t in more[..j] ==> t in more;
    PlacedRuns(r, tags, n, ran, more[j]);
  }

  /** Listing the places one after the other respects every dependency. */
  lemma {:induction false} PlacedOrder(r: Scripts, tags: set<Tag>, n: nat) returns (order: seq<Tag>)
    requires Valid(r)
    ensures Lists(order, Placed(r, tags, n)) && Runnable(r, tags, order)
  {
    if n == 0 {
      order := [];
    } else {
      var front := PlacedOrder(r, tags, n - 1);
      var more := PlaceNext(r, tags, n - 1, front);
      order := front + more;
    }
  }

  lemma PlaceNext(r: Scripts, tags: set<Tag>, n: nat, front: seq<Tag>) returns (more: seq<Tag>)
    requires Valid(r) && Lists(front, Placed(r, tags, n)) && Runnable(r, tags, front)
    ensures Lists(front + more, Placed(r, tags, n + 1)) && Runnable(r, tags, front + more)
  {
    more := Listed(Placed(r, tags, n + 1) - Placed(r, tags, n));
    PlaceListed(r, tags, n, front, more);
    forall j | 0 <= j < |more|
      ensures more[j] in r.byTag && Ready(r.byTag[more[j]], Applied(r, tags, SetOf(front + more[..j])))
    {
      PlaceRuns(r, tags, n, front, more, j);
    }
    RunnableJoin(r, tags, front, more);
  }

  lemma PlaceListed(r: Scripts, tags: set<Tag>, n: nat, front: seq<Tag>, more: seq<Tag>)
    requires Valid(r) && Lists(front, Placed(r, tags, n)) && Lists(more, Placed(r, tags, n + 1) - Placed(r, tags, n))
    ensures Lists(front + more, Placed(r, tags, n + 1))
  {
    PlacedGrows(r, tags, n);
    ListsJoin(front, Placed(r, tags, n), more, Placed(r, tags, n + 1) - Placed(r, tags, n));
    assert Placed(r, tags, n) + (Placed(r, tags, n + 1) - Placed(r, tags, n)) == Placed(r, tags, n + 1);
  }

  lemma PlacedIff(r: Scripts, tags: set<Tag>, t: Tag, n: nat)
    requires Valid(r) && t in Pending(r, tags)
    ensures t in Placed(r, tags, n + 1) <==> Placeable(r, tags, Placed(r, tags, n), t)
  {
  }

  lemma SolvedIsOrderable(r: Scripts, tags: set<Tag>, order: seq<Tag>, t: Tag)
    requires Valid(r) && Solves(r, tags, order) && t in Pending(r, tags)
    ensures t in Placed(r, tags, |Pending(r, tags)|)
  {
    DistinctCard(order);
    assert |order| == |Pending(r, tags)| && t in SetOf(order);
    var p :| 0 <= p < |order| && order[p] == t;
    SolvedIsPlaced(r, tags, order, p);
    PlacedMono(r, tags, p + 1, |Pending(r, tags)|);
  }

  lemma OrderableIsSolved(r: Scripts, tags: set<Tag>) returns (order: seq<Tag>)
    requires Valid(r) && Orderable(r, tags)
    ensures Solves(r, tags, order)
  {
    order := PlacedOrder(r, tags, |Pending(r, tags)|);
    assert SetOf(order) == Pending(r, tags);
  }

  /** The pending scripts have an order that respects all dependencies if and only if they
      can be placed one after the other. */
  lemma SolvableIff(r: Scripts, tags: set<Tag>)
    requires Valid(r)
    ensures (exists order :: Solves(r, tags, order)) <==> Orderable(r, tags)
  {
    if Orderable(r, tags) { var order := OrderableIsSolved(r, tags); }
    forall order | Solves(r, tags, order) ensures Orderable(r, tags) {
      forall t | t in Pending(r, tags) ensures t in Placed(r, tags, |Pending(r, tags)|) {
        SolvedIsOrderable(r, tags, order, t);
      }
    }
  }

  /** The abort is the right answer exactly when the two conditions agree. */
  lemma AbortIsRightIff(r: Scripts, tags: set<Tag>)
    requires Valid(r)
    ensures (Rounds(r, tags, Pending(r, tags)).Migrated? <==> exists order :: Solves(r, tags, order))
            <==> ((Leveled(r, tags) && InTime(r, tags)) <==> Orderable(r, tags))
  {
    MigratesIff(r, tags);
    SolvableIff(r, tags);
  }

  function Mutual(): Scripts {
    Scripts(map["x" := Script("x", Downgrade, ["y"], []), "y" := Script("y", Downgrade, ["x"], [])], {}, {"x", "y"})
  }

  lemma HeldBack(r: Scripts, tags: set<Tag>, n: nat, t: Tag, s: Tag)
    requires Valid(r) && t in Pending(r, tags) && s != t && Needs(r, tags, s, t) && s !in Placed(r, tags, n)
    ensures t !in Placed(r, tags, n + 1)
  {
    PlacedIff(r, tags, t, n);
  }

  /** Two that need each other's tag are never placed. */
  lemma {:induction false} NeitherPlaced(r: Scripts, tags: set<Tag>, n: nat, s: Tag, t: Tag)
    requires Valid(r) && s != t && Needs(r, tags, s, t) && Needs(r, tags, t, s)
    ensures s !in Placed(r, tags, n) && t !in Placed(r, tags, n)
  {
    if n > 0 {
      NeitherPlaced(r, tags, n - 1, s, t);
      HeldBack(r, tags, n - 1, s, t);
      HeldBack(r, tags, n - 1, t, s);
    }
  }

  lemma MutualFacts()
    ensures Valid(Mutual()) && Pending(Mutual(), {"x", "y"}) == {"x", "y"}
    ensures Needs(Mutual(), {"x", "y"}, "x", "y") && Needs(Mutual(), {"x", "y"}, "y", "x")
    ensures ReadySet(Mutual(), {"x", "y"}, {"x", "y"}) == {"x", "y"} && Applied(Mutual(), {"x", "y"}, {"x", "y"}) == {}
  {
    var r, tags := Mutual(), {"x", "y"};
    var x, y: Tag := "x", "y";
    assert x[0] != y[0];
    assert Pending(r, tags) == tags;
  }

  lemma MutualSucceeds()
    ensures Valid(Mutual()) && Rounds(Mutual(), {"x", "y"}, Pending(Mutual(), {"x", "y"})) == Migrated({})
  {
    MutualFacts();
    RoundsStep(Mutual(), {"x", "y"}, {"x", "y"});
    var none: set<Tag> := {"x", "y"} - {"x", "y"};
    assert none == {};
    assert "x" in ReadySet(Mutual(), {"x", "y"}, {"x", "y"});
  }

  /** The other way round: two downgraders that need each other's tag run in one round, the
      second without what it needs; no order respects both. */
  lemma UnsolvableCanSucceed()
    ensures Valid(Mutual()) && Rounds(Mutual(), {"x", "y"}, Pending(Mutual(), {"x", "y"})) == Migrated({})
    ensures !exists order :: Solves(Mutual(), {"x", "y"}, order)
  {
    MutualSucceeds();
    MutualFacts();
    var x, y: Tag := "x", "y";
    assert x[0] != y[0];
    NeitherPlaced(Mutual(), {"x", "y"}, |Pending(Mutual(), {"x", "y"})|, x, y);
    SolvableIff(Mutual(), {"x", "y"});
  }

  // ------------------------------------------------ dependencies on a tag to be removed

  /** A script that depends on the tag of a downgrader runs only if the tag is present from
      the start: never, if it has been removed before. */
  lemma {:induction false} RemovedTagBlocks(r: Scripts, tags: set<Tag>, s: Tag, d: Tag, k: nat)
    requires Valid(r) && s in Pending(r, tags) && d in r.byTag[s].depends && d in r.untagSet && d !in tags
    ensures s !in Done(r, tags, k)
  {
    if k > 0 {
      RemovedTagBlocks(r, tags, s, d, k - 1);
      NextFacts(r, tags, k - 1);
      assert d !in Applied(r, tags, Done(r, tags, k - 1));
    }
  }

  /** Such a script makes the whole migration abort. */
  lemma RemovedTagAborts(r: Scripts, tags: set<Tag>, s: Tag, d: Tag)
    requires Valid(r) && s in Pending(r, tags) && d in r.byTag[s].depends && d in r.untagSet && d !in tags
    ensures var outcome := Rounds(r, tags, Pending(r, tags)); outcome.Aborted? && s in outcome.stuck
  {
    RemovedTagBlocks(r, tags, s, d, |Pending(r, tags)|);
    RoundsEnd(r, tags);
  }

  /** A script whose one dependency is the tag of a downgrader runs if and only if the tag is
      present, which is the opposite of what the header comment says. */
  lemma RunsIffPresent(r: Scripts, tags: set<Tag>, s: Tag, d: Tag)
    requires Valid(r) && s in Pending(r, tags) && r.byTag[s].depends == [d] && d in r.untagSet
    ensures (exists k: nat :: s in Done(r, tags, k)) <==> d in tags
  {
    if d in tags {
      NextFacts(r, tags, 0);
      assert Applied(r, tags, Done(r, tags, 0)) == tags;
      assert s in Done(r, tags, 1);
    } else {
      assert d in r.byTag[s].depends;
      forall k: nat ensures s !in Done(r, tags, k) { RemovedTagBlocks(r, tags, s, d, k); }
    }
  }

  /** And when it runs, it runs no later than the downgrader. */
  lemma DependentRunsFirst(r: Scripts, tags: set<Tag>, s: Tag, d: Tag)
    requires Valid(r) && Rounds(r, tags, Pending(r, tags)).Migrated? && Needs(r, tags, s, d)
    ensures Leveled(r, tags) && Depth(r, tags, s) <= Depth(r, tags, d)
  {
    MigratesIff(r, tags);
  }

  function Waiting(): Scripts {
    Scripts(map["a" := Script("a", Upgrade, ["x"], []), "x" := Script("x", Downgrade, [], [])], {"a"}, {"x"})
  }

  /** "a" is to run once "x" has been removed, says the comment; it never does. */
  lemma CommentIsWrong()
    ensures Valid(Waiting()) && Pending(Waiting(), {}) == {"a"}
    ensures Rounds(Waiting(), {}, Pending(Waiting(), {})) == Aborted({}, {"a"})
  {
    var r := Waiting();
    var a, x: Tag := "a", "x";
    assert a[0] != x[0];
    assert Pending(r, {}) == {"a"};
    assert ReadySet(r, {}, {"a"}) == {} by { assert "x" in r.byTag["a"].depends; }
  }
}
