/** The checkpoint migration of gem5/util/cpt_upgrader.py: upgraders add their tag to a
    checkpoint, downgraders remove theirs, and each runs only when the tags it depends on are
    present. Pending migrations are applied in rounds of everything that is ready. */
module Migration {
  import opened Counting

  type Tag = string

  datatype Kind = Upgrade | Downgrade

  /** A migration script: what it does to its tag, the tags it depends on, and the tags that
      it declares to depend on it. */
  datatype Script = Script(tag: Tag, kind: Kind, depends: seq<Tag>, fwdDepends: seq<Tag>)

  /** Scripts by tag, and the tags with an upgrader and with a downgrader. */
  datatype Scripts = Scripts(byTag: map<Tag, Script>, tagSet: set<Tag>, untagSet: set<Tag>)

  /** Every tag is used by one script only, which is filed under it by its kind. */
  ghost predicate Valid(r: Scripts) {
    && r.tagSet + r.untagSet <= r.byTag.Keys
    && r.tagSet !! r.untagSet
    && (forall t :: t in r.tagSet ==> r.byTag[t].kind.Upgrade?)
    && (forall t :: t in r.untagSet ==> r.byTag[t].kind.Downgrade?)
  }

  /** All dependencies are present, as the code tests it: also a dependency on a tag that has
      a downgrader asks for the tag to be there. */
  predicate Ready(u: Script, tags: set<Tag>) {
    forall d :: d in u.depends ==> d in tags
  }

  /** Tags with an upgrader that are missing, and tags with a downgrader that are present. */
  function Pending(r: Scripts, tags: set<Tag>): set<Tag> {
    (r.tagSet - tags) + (r.untagSet * tags)
  }

  ghost predicate PendingOk(r: Scripts, tags: set<Tag>, pending: set<Tag>) {
    && Valid(r) && pending <= r.tagSet + r.untagSet
    && (forall t :: t in pending ==> (t in tags <==> r.byTag[t].kind.Downgrade?))
  }

  /** The tags after the scripts of `done` have run, in any order. */
  ghost function Applied(r: Scripts, tags: set<Tag>, done: set<Tag>): set<Tag> {
    (tags + (done * r.tagSet)) - (done * r.untagSet)
  }

  datatype Outcome = Migrated(tags: set<Tag>) | Aborted(tags: set<Tag>, stuck: set<Tag>)

  // ----------------------------------------------------------------------- the rounds

  function ReadySet(r: Scripts, tags: set<Tag>, pending: set<Tag>): set<Tag>
    requires pending <= r.byTag.Keys
  {
    set t | t in pending && Ready(r.byTag[t], tags)
  }

  /** The rounds as a function of the starting point: nothing depends on the order in which
      a set is iterated. */
  ghost function Rounds(r: Scripts, tags: set<Tag>, pending: set<Tag>): Outcome
    requires pending <= r.byTag.Keys
    decreases pending
  {
    if pending == {} then Migrated(tags)
    else
      var ready := ReadySet(r, tags, pending);
      if ready == {} then Aborted(tags, pending)
      else Rounds(r, Applied(r, tags, ready), pending - ready)
  }

  lemma AppliedStep(r: Scripts, tags: set<Tag>, done: set<Tag>, t: Tag)
    requires Valid(r) && done + {t} <= r.tagSet + r.untagSet && t !in done
    ensures Applied(r, tags, done + {t}) ==
            if t in r.tagSet then Applied(r, tags, done) + {t} else Applied(r, tags, done) - {t}
  {
  }

  lemma AppliedTwice(r: Scripts, tags: set<Tag>, a: set<Tag>, b: set<Tag>)
    requires Valid(r) && a !! b
    ensures Applied(r, Applied(r, tags, a), b) == Applied(r, tags, a + b)
  {
  }

  lemma PendingLater(r: Scripts, tags: set<Tag>, pending: set<Tag>, done: set<Tag>)
    requires PendingOk(r, tags, pending) && done <= pending
    ensures PendingOk(r, Applied(r, tags, done), pending - done)
  {
  }

  /** Runs one script on the tag set; a downgrader whose tag is absent fails. */
  method Update(u: Script, tags: set<Tag>) returns (ok: bool, tags': set<Tag>)
    ensures ok <==> u.kind.Upgrade? || u.tag in tags
    ensures tags' == if u.kind.Upgrade? then tags + {u.tag} else tags - {u.tag}
  {
    if u.kind.Upgrade? {
      return true, tags + {u.tag};
    }
    return u.tag in tags, tags - {u.tag};
  }

  /** One round: the scripts of `ready`, in whatever order the set is iterated. `order` lists
      them as they ran. */
  method RunReady(r: Scripts, tags0: set<Tag>, ready: set<Tag>) returns (ok: bool, tags: set<Tag>, order: seq<Tag>)
    requires PendingOk(r, tags0, ready) && forall t :: t in ready ==> r.byTag[t].tag == t
    ensures ok && tags == Applied(r, tags0, ready)
    ensures Distinct(order) && forall t :: t in order <==> t in ready
  {
    tags, order, ok := tags0, [], true;
    var rest := ready;
    while rest != {}
      invariant rest <= ready && ok
      invariant tags == Applied(r, tags0, ready - rest)
      invariant Distinct(order) && forall t :: t in order <==> t in ready - rest
      decreases rest
    {
      var t :| t in rest;
      assert ready - (rest - {t}) == (ready - rest) + {t};
      AppliedStep(r, tags0, ready - rest, t);
      ok, tags := Update(r.byTag[t], tags);
      order := order + [t];
      rest := rest - {t};
    }
    assert ready - rest == ready;
  }

  // ------------------------------------------------------------------ rounds, counted

  /** The round that follows when the scripts of `done` have run. */
  ghost function After(r: Scripts, tags: set<Tag>, done: set<Tag>): (next: set<Tag>)
    requires Valid(r)
    ensures next <= Pending(r, tags) - done
  {
    ReadySet(r, Applied(r, tags, done), Pending(r, tags) - done)
  }

  /** The scripts that have run after `k` rounds. */
  ghost function Done(r: Scripts, tags: set<Tag>, k: nat): (done: set<Tag>)
    requires Valid(r)
    ensures done <= Pending(r, tags)
  {
    if k == 0 then {} else Done(r, tags, k - 1) + After(r, tags, Done(r, tags, k - 1))
  }

  /** The round behind `k` others. */
  ghost function Next(r: Scripts, tags: set<Tag>, k: nat): (next: set<Tag>)
    requires Valid(r)
    ensures next <= Pending(r, tags) - Done(r, tags, k)
  {
    After(r, tags, Done(r, tags, k))
  }

  lemma NextFacts(r: Scripts, tags: set<Tag>, k: nat)
    requires Valid(r)
    ensures var done, next := Done(r, tags, k), Next(r, tags, k);
            && done !! next && Done(r, tags, k + 1) == done + next
            && Applied(r, Applied(r, tags, done), next) == Applied(r, tags, Done(r, tags, k + 1))
            && Pending(r, tags) - done - next == Pending(r, tags) - Done(r, tags, k + 1)
  {
    AppliedTwice(r, tags, Done(r, tags, k), Next(r, tags, k));
  }

  lemma {:induction false} DoneMono(r: Scripts, tags: set<Tag>, j: nat, k: nat)
    requires Valid(r) && j <= k
    ensures Done(r, tags, j) <= Done(r, tags, k)
    decreases k
  {
    if j < k { DoneMono(r, tags, j, k - 1); }
  }

  /** A round that runs nothing is followed by none that does. */
  lemma {:induction false} StuckStays(r: Scripts, tags: set<Tag>, k: nat, m: nat)
    requires Valid(r) && k <= m && Next(r, tags, k) == {}
    ensures Done(r, tags, m) == Done(r, tags, k)
    decreases m
  {
    if k < m { StuckStays(r, tags, k, m - 1); }
  }

  /** The outcome as seen after `k` rounds. */
  ghost function RoundsAt(r: Scripts, tags: set<Tag>, k: nat): Outcome
    requires Valid(r)
  {
    Rounds(r, Applied(r, tags, Done(r, tags, k)), Pending(r, tags) - Done(r, tags, k))
  }

  lemma RoundsStep(r: Scripts, tags: set<Tag>, pending: set<Tag>)
    requires pending <= r.byTag.Keys
    ensures var ready := ReadySet(r, tags, pending);
            ready != {} ==> Rounds(r, tags, pending) == Rounds(r, Applied(r, tags, ready), pending - ready)
  {
  }

  lemma RoundsAtNext(r: Scripts, tags: set<Tag>, k: nat)
    requires Valid(r)
    ensures RoundsAt(r, tags, k + 1) == RoundsAt(r, tags, k)
  {
    NextFacts(r, tags, k);
    RoundsStep(r, Applied(r, tags, Done(r, tags, k)), Pending(r, tags) - Done(r, tags, k));
    if Next(r, tags, k) == {} { assert Done(r, tags, k + 1) == Done(r, tags, k); }
  }

  lemma {:induction false} RoundsFrom(r: Scripts, tags: set<Tag>, k: nat)
    requires Valid(r)
    ensures RoundsAt(r, tags, k) == Rounds(r, tags, Pending(r, tags))
  {
    if k == 0 {
      assert Applied(r, tags, {}) == tags && Pending(r, tags) - {} == Pending(r, tags);
    } else {
      RoundsFrom(r, tags, k - 1);
      RoundsAtNext(r, tags, k - 1);
    }
  }

  // ---------------------------------------------------------------- orders of a run

  /** A listing of a set in some order. */
  ghost predicate Lists(order: seq<Tag>, s: set<Tag>) {
    Distinct(order) && |order| == |s| && forall t :: t in order <==> t in s
  }

  lemma ListsJoin(a: seq<Tag>, s: set<Tag>, b: seq<Tag>, t: set<Tag>)
    requires Lists(a, s) && Lists(b, t) && s !! t
    ensures Lists(a + b, s + t)
  {
    forall i, j | 0 <= i < j < |a + b| ensures (a + b)[i] != (a + b)[j] {
      if i < |a| <= j { assert a[i] in s && b[j - |a|] in t; }
    }
  }

  /** The scripts of `done` stand at the front, in some order. */
  ghost predicate FrontIs(order: seq<Tag>, done: set<Tag>) {
    |done| <= |order| && Lists(order[..|done|], done)
  }

  lemma FrontStays(order: seq<Tag>, more: seq<Tag>, done: set<Tag>)
    requires FrontIs(order, done)
    ensures FrontIs(order + more, done)
  {
    assert (order + more)[..|done|] == order[..|done|];
  }

  /** The first `j` rounds come first. */
  ghost predicate FrontAt(r: Scripts, tags: set<Tag>, order: seq<Tag>, j: nat)
    requires Valid(r)
  {
    FrontIs(order, Done(r, tags, j))
  }

  /** A run as far as `k` rounds: round after round, each in any order. */
  ghost predicate RunsTo(r: Scripts, tags: set<Tag>, k: nat, order: seq<Tag>)
    requires Valid(r)
  {
    Lists(order, Done(r, tags, k)) && forall j: nat :: j <= k ==> FrontAt(r, tags, order, j)
  }

  /** The orders in which the rounds can run the scripts until nothing is ready. */
  ghost predicate Possible(r: Scripts, tags: set<Tag>, order: seq<Tag>)
    requires Valid(r)
  {
    exists k: nat :: Next(r, tags, k) == {} && RunsTo(r, tags, k, order)
  }

  lemma RunsToNext(r: Scripts, tags: set<Tag>, k: nat, order: seq<Tag>, ran: seq<Tag>)
    requires Valid(r) && RunsTo(r, tags, k, order) && Lists(ran, Next(r, tags, k))
    ensures RunsTo(r, tags, k + 1, order + ran)
  {
    NextFacts(r, tags, k);
    ListsJoin(order, Done(r, tags, k), ran, Next(r, tags, k));
    forall j: nat | j <= k + 1 ensures FrontAt(r, tags, order + ran, j) {
      if j <= k {
        assert FrontAt(r, tags, order, j);
        FrontStays(order, ran, Done(r, tags, j));
      } else {
        assert (order + ran)[..|order + ran|] == order + ran;
      }
    }
  }

  /** What holds after `k` rounds. */
  ghost predicate Running(r: Scripts, tags0: set<Tag>, k: nat, order: seq<Tag>, tags: set<Tag>, pending: set<Tag>) {
    && Valid(r) && RunsTo(r, tags0, k, order)
    && pending == Pending(r, tags0) - Done(r, tags0, k) && PendingOk(r, tags, pending)
    && tags == Applied(r, tags0, Done(r, tags0, k))
    && (NoLostDependency(r, Pending(r, tags0)) ==> Runnable(r, tags0, order))
  }

  lemma RunningStart(r: Scripts, tags0: set<Tag>)
    requires Valid(r)
    ensures Running(r, tags0, 0, [], tags0, Pending(r, tags0))
  {
    RunnableNone(r, tags0);
    assert Applied(r, tags0, {}) == tags0;
  }

  lemma RunningRound(r: Scripts, tags0: set<Tag>, k: nat, order: seq<Tag>, tags: set<Tag>, pending: set<Tag>,
                     ran: seq<Tag>)
    requires Running(r, tags0, k, order, tags, pending)
    requires Distinct(ran) && forall t :: t in ran <==> t in ReadySet(r, tags, pending)
    ensures var ready := ReadySet(r, tags, pending);
            Running(r, tags0, k + 1, order + ran, Applied(r, tags, ready), pending - ready)
  {
    RanIsListed(ran, ReadySet(r, tags, pending));
    RunsToNext(r, tags0, k, order, ran);
    NextFacts(r, tags0, k);
    RunnableRound(r, tags0, Pending(r, tags0), order, Done(r, tags0, k), ReadySet(r, tags, pending), ran);
    PendingLater(r, tags, pending, ReadySet(r, tags, pending));
  }

  lemma RanIsListed(ran: seq<Tag>, ready: set<Tag>)
    requires Distinct(ran) && forall t :: t in ran <==> t in ready
    ensures Lists(ran, ready)
  {
    DistinctCard(ran);
    assert SetOf(ran) == ready;
  }

  /** The outcome is that of the rounds, whatever the iteration order. The scripts ran in an
      order that the rounds allow: each at most once, all of them on success and, when no
      dependency is lost, each with its dependencies present. */
  ghost predicate RanAs(r: Scripts, tags0: set<Tag>, outcome: Outcome, order: seq<Tag>) {
    && Valid(r) && outcome == Rounds(r, tags0, Pending(r, tags0)) && Possible(r, tags0, order)
    && Distinct(order) && (forall t :: t in order ==> t in Pending(r, tags0))
    && (outcome.Migrated? ==> SetOf(order) == Pending(r, tags0))
    && (NoLostDependency(r, Pending(r, tags0)) ==> Runnable(r, tags0, order))
  }

  lemma RunningEnd(r: Scripts, tags0: set<Tag>, k: nat, order: seq<Tag>, tags: set<Tag>, pending: set<Tag>)
    requires Running(r, tags0, k, order, tags, pending) && ReadySet(r, tags, pending) == {}
    ensures RanAs(r, tags0, if pending == {} then Migrated(tags) else Aborted(tags, pending), order)
  {
    RoundsFrom(r, tags0, k);
    assert Next(r, tags0, k) == {};
    assert SetOf(order) == Done(r, tags0, k);
  }

  /** One round: everything that is ready runs, and no tag to be removed is absent. */
  method RunRound(r: Scripts, tags: set<Tag>, pending: set<Tag>)
    returns (ready: set<Tag>, ran: seq<Tag>, tags': set<Tag>)
    requires PendingOk(r, tags, pending) && forall t :: t in r.byTag ==> r.byTag[t].tag == t
    ensures ready == ReadySet(r, tags, pending) && tags' == Applied(r, tags, ready)
    ensures Distinct(ran) && forall t :: t in ran <==> t in ready
  {
    ready := ReadySet(r, tags, pending);
    var ok;
    ok, tags', ran := RunReady(r, tags, ready);
    assert ok;
  }

  /** One turn of the loop, when something is pending. */
  method Turn(r: Scripts, ghost tags0: set<Tag>, ghost k: nat, order: seq<Tag>, tags: set<Tag>, pending: set<Tag>)
    returns (stuck: bool, order': seq<Tag>, tags': set<Tag>, pending': set<Tag>)
    requires Running(r, tags0, k, order, tags, pending) && forall t :: t in r.byTag ==> r.byTag[t].tag == t
    requires pending != {}
    ensures stuck ==> RanAs(r, tags0, Aborted(tags, pending), order)
    ensures !stuck ==> pending' < pending && Running(r, tags0, k + 1, order', tags', pending')
  {
    var ready, ran, after := RunRound(r, tags, pending);
    if ready == {} {
      RunningEnd(r, tags0, k, order, tags, pending);
      return true, order, tags, pending;
    }
    RunningRound(r, tags0, k, order, tags, pending, ran);
    return false, order + ran, after, pending - ready;
  }

  /** process_file from the tag set on: it ends, its outcome is that of `Rounds` whatever the
      iteration order, and `order` lists the scripts as they ran. */
  method Migrate(r: Scripts, tags0: set<Tag>) returns (outcome: Outcome, order: seq<Tag>)
    requires Valid(r) && forall t :: t in r.byTag ==> r.byTag[t].tag == t
    ensures RanAs(r, tags0, outcome, order)
  {
    var pending, tags := Pending(r, tags0), tags0;
    ghost var k: nat := 0;
    order := [];
    RunningStart(r, tags0);
    while pending != {}
      invariant Running(r, tags0, k, order, tags, pending)
      decreases pending
    {
      var stuck, order', tags', pending' := Turn(r, tags0, k, order, tags, pending);
      if stuck {
        return Aborted(tags, pending), order;
      }
      order, tags, pending, k := order', tags', pending', k + 1;
    }
    NothingReady(r, tags, pending);
    RunningEnd(r, tags0, k, order, tags, pending);
    return Migrated(tags), order;
  }

  lemma NothingReady(r: Scripts, tags: set<Tag>, pending: set<Tag>)
    requires pending == {}
    ensures ReadySet(r, tags, pending) == {}
  {
  }

  // ------------------------------------------------------------------ orders of scripts

  function SetOf(order: seq<Tag>): set<Tag> {
    set t | t in order
  }

  /** Every script of the order finds its dependencies present when it runs. */
  ghost predicate Runnable(r: Scripts, tags: set<Tag>, order: seq<Tag>) {
    forall i :: 0 <= i < |order| ==>
      order[i] in r.byTag && Ready(r.byTag[order[i]], Applied(r, tags, SetOf(order[..i])))
  }

  /** No pending script depends on a tag that is about to be removed. */
  ghost predicate NoLostDependency(r: Scripts, pending: set<Tag>) {
    forall t, d :: t in pending && t in r.byTag && d in r.byTag[t].depends ==> d !in pending * r.untagSet
  }

  lemma RunnableNone(r: Scripts, tags: set<Tag>)
    ensures Runnable(r, tags, [])
  {
  }

  /** If nothing loses a dependency, what was ready stays ready as more scripts run. */
  lemma ReadyStays(r: Scripts, tags: set<Tag>, pending: set<Tag>, a: set<Tag>, b: set<Tag>, t: Tag)
    requires Valid(r) && NoLostDependency(r, pending) && a <= b <= pending && t in pending && t in r.byTag
    requires Ready(r.byTag[t], Applied(r, tags, a))
    ensures Ready(r.byTag[t], Applied(r, tags, b))
  {
    forall d | d in r.byTag[t].depends ensures d in Applied(r, tags, b) {
      assert d in Applied(r, tags, a);
      assert d !in pending * r.untagSet;
    }
  }

  lemma RunnableRound(r: Scripts, tags: set<Tag>, pending: set<Tag>, order: seq<Tag>,
                      before: set<Tag>, ready: set<Tag>, ran: seq<Tag>)
    requires Valid(r) && before + ready <= pending <= r.byTag.Keys && before !! ready
    requires Distinct(order) && Distinct(ran)
    requires forall t :: t in order <==> t in before
    requires forall t :: t in ran <==> t in ready
    requires forall t :: t in ready ==> Ready(r.byTag[t], Applied(r, tags, before))
    requires NoLostDependency(r, pending) ==> Runnable(r, tags, order)
    ensures NoLostDependency(r, pending) ==> Runnable(r, tags, order + ran)
    ensures Distinct(order + ran)
  {
    var all := order + ran;
    forall i, j | 0 <= i < j < |all| ensures all[i] != all[j] {
      if i < |order| <= j {
        assert order[i] in before && ran[j - |order|] in ready;
      }
    }
    if NoLostDependency(r, pending) {
      forall i | 0 <= i < |all|
        ensures all[i] in r.byTag && Ready(r.byTag[all[i]], Applied(r, tags, SetOf(all[..i])))
      {
        if i < |order| {
          assert all[..i] == order[..i];
        } else {
          assert all[..i] == order + ran[..i - |order|];
          assert all[i] == ran[i - |order|] && all[i] in ran;
          assert before <= SetOf(all[..i]) <= pending;
          ReadyStays(r, tags, pending, before, SetOf(all[..i]), all[i]);
        }
      }
    }
  }

  // --------------------------------------------------------------- what a run achieves

  ghost predicate RoundsFacts(r: Scripts, tags: set<Tag>, pending: set<Tag>, outcome: Outcome)
    requires pending <= r.byTag.Keys
  {
    match outcome
    case Migrated(tags') => tags' == Applied(r, tags, pending)
    case Aborted(tags', stuck) =>
      && {} < stuck <= pending
      && tags' == Applied(r, tags, pending - stuck)
      && ReadySet(r, tags', stuck) == {}
  }

  lemma {:induction false} RoundsAreRight(r: Scripts, tags: set<Tag>, pending: set<Tag>)
    requires PendingOk(r, tags, pending)
    ensures RoundsFacts(r, tags, pending, Rounds(r, tags, pending))
    decreases pending
  {
    if pending != {} {
      var ready := ReadySet(r, tags, pending);
      if ready == {} {
        assert pending - pending == {};
      } else {
        PendingLater(r, tags, pending, ready);
        RoundsAreRight(r, Applied(r, tags, ready), pending - ready);
        AppliedTwice(r, tags, ready, pending - ready);
        assert ready + (pending - ready) == pending;
        var outcome := Rounds(r, Applied(r, tags, ready), pending - ready);
        if outcome.Aborted? {
          AppliedTwice(r, tags, ready, pending - ready - outcome.stuck);
          assert ready + (pending - ready - outcome.stuck) == pending - outcome.stuck;
        }
      }
    }
  }

  /** Success means exactly: the old tags with all upgrader tags and without any downgrader
      tag. */
  lemma MigrationIsExact(r: Scripts, tags: set<Tag>)
    requires Valid(r)
    ensures var outcome := Rounds(r, tags, Pending(r, tags));
            outcome.Migrated? ==> outcome.tags == (tags + r.tagSet) - r.untagSet
  {
    RoundsAreRight(r, tags, Pending(r, tags));
  }

  /** A second run has nothing to do. */
  lemma SecondRunIsNoOp(r: Scripts, tags: set<Tag>)
    requires Valid(r) && Rounds(r, tags, Pending(r, tags)).Migrated?
    ensures var tags' := Rounds(r, tags, Pending(r, tags)).tags;
            Pending(r, tags') == {} && Rounds(r, tags', Pending(r, tags')) == Migrated(tags')
  {
    MigrationIsExact(r, tags);
  }

  // -------------------------------------------------------------------- completeness

  /** An order of all pending scripts that respects every dependency. */
  ghost predicate Solves(r: Scripts, tags: set<Tag>, order: seq<Tag>) {
    Runnable(r, tags, order) && Distinct(order) && SetOf(order) == Pending(r, tags)
  }

  /** The first script of an order that belongs to a given set. */
  lemma {:induction false} FirstIn(order: seq<Tag>, stuck: set<Tag>) returns (i: nat)
    requires exists t :: t in order && t in stuck
    ensures i < |order| && order[i] in stuck && SetOf(order[..i]) !! stuck
  {
    if order[0] in stuck {
      i := 0;
    } else {
      var rest := order[1..];
      var t :| t in order && t in stuck;
      assert t in rest;
      var j := FirstIn(rest, stuck);
      i := j + 1;
      assert order[..i] == [order[0]] + rest[..j];
    }
  }

  /** A solvable migration is never stuck: of any scripts left over, the one that comes first
      in the order is ready. */
  lemma SolvableIsNotStuck(r: Scripts, tags: set<Tag>, left: set<Tag>, order: seq<Tag>)
    requires Valid(r) && NoLostDependency(r, Pending(r, tags))
    requires {} < left <= Pending(r, tags) && Solves(r, tags, order)
    ensures ReadySet(r, Applied(r, tags, Pending(r, tags) - left), left) != {}
  {
    var pending := Pending(r, tags);
    var t :| t in left;
    assert t in SetOf(order);
    var i := FirstIn(order, left);
    assert SetOf(order[..i]) <= pending - left;
    ReadyStays(r, tags, pending, SetOf(order[..i]), pending - left, order[i]);
    assert order[i] in ReadySet(r, Applied(r, tags, pending - left), left);
  }

  /** When no pending script depends on a tag about to be removed, and so always with
      upgraders only, the rounds succeed if and only if some order of the pending scripts
      respects all dependencies. */
  lemma AbortsOnlyWhenUnsolvable(r: Scripts, tags: set<Tag>)
    requires Valid(r) && NoLostDependency(r, Pending(r, tags))
    ensures Rounds(r, tags, Pending(r, tags)).Migrated? <==> exists order :: Solves(r, tags, order)
  {
    var pending := Pending(r, tags);
    RoundsAreRight(r, tags, pending);
    var outcome := Rounds(r, tags, pending);
    if outcome.Migrated? {
      assert {} + pending == pending;
      var order := RoundsOrder(r, tags, pending, tags, {}, []);
      assert Solves(r, tags, order);
    } else {
      forall order | Solves(r, tags, order) ensures false {
        SolvableIsNotStuck(r, tags, outcome.stuck, order);
      }
    }
  }

  lemma UpgradersOnly(r: Scripts, tags: set<Tag>)
    requires Valid(r) && r.untagSet == {}
    ensures NoLostDependency(r, Pending(r, tags))
  {
  }

  lemma {:induction false} Listing(s: set<Tag>) returns (order: seq<Tag>)
    ensures Distinct(order) && forall t :: t in order <==> t in s
  {
    if s == {} {
      order := [];
    } else {
      var t :| t in s;
      var rest := Listing(s - {t});
      order := rest + [t];
    }
  }

  /** An order in which successful rounds run the scripts. */
  lemma {:induction false} RoundsOrder(r: Scripts, tags0: set<Tag>, pending: set<Tag>, tags: set<Tag>,
                                       before: set<Tag>, order: seq<Tag>) returns (full: seq<Tag>)
    requires PendingOk(r, tags, pending) && NoLostDependency(r, before + pending) && before !! pending
    requires before <= r.byTag.Keys && tags == Applied(r, tags0, before)
    requires Distinct(order) && (forall t :: t in order <==> t in before) && Runnable(r, tags0, order)
    requires Rounds(r, tags, pending).Migrated?
    ensures Distinct(full) && SetOf(full) == before + pending && Runnable(r, tags0, full)
    decreases pending
  {
    if pending == {} {
      full := order;
    } else {
      var ready := ReadySet(r, tags, pending);
      var ran := Listing(ready);
      RunnableRound(r, tags0, before + pending, order, before, ready, ran);
      AppliedTwice(r, tags0, before, ready);
      PendingLater(r, tags, pending, ready);
      assert before + ready + (pending - ready) == before + pending;
      full := RoundsOrder(r, tags0, pending - ready, Applied(r, tags, ready), before + ready, order + ran);
    }
  }

  // ------------------------------------------------------- where downgraders interfere

  function Example(): Scripts {
    Scripts(map["a" := Script("a", Upgrade, ["b", "x"], []),
                "b" := Script("b", Upgrade, [], []),
                "x" := Script("x", Downgrade, [], [])],
            {"a", "b"}, {"x"})
  }

  /** With a downgrader the rounds can abort although an order exists: "x" is removed in the
      first round, before "a", which depends on it, becomes ready. */
  lemma DowngraderCanBlock()
    ensures Valid(Example()) && !NoLostDependency(Example(), Pending(Example(), {"x"}))
    ensures Rounds(Example(), {"x"}, Pending(Example(), {"x"})) == Aborted({"b"}, {"a"})
    ensures Solves(Example(), {"x"}, ["b", "a", "x"])
  {
    var r, tags := Example(), {"x"};
    var a, b, x: Tag := "a", "b", "x";
    assert a[0] != b[0] && a[0] != x[0] && b[0] != x[0];
    var pending := Pending(r, tags);
    assert pending == {"a", "b", "x"};
    assert ReadySet(r, tags, pending) == {"b", "x"} by {
      assert "b" in r.byTag["a"].depends;
    }
    assert Applied(r, tags, {"b", "x"}) == {"b"};
    assert pending - {"b", "x"} == {"a"};
    assert ReadySet(r, {"b"}, {"a"}) == {} by {
      assert "x" in r.byTag["a"].depends;
    }
    assert "x" in r.byTag["a"].depends && "x" in pending * r.untagSet;
    var order := ["b", "a", "x"];
    assert SetOf(order) == pending;
    assert SetOf(order[..1]) == {"b"} && Applied(r, tags, {"b"}) == {"b", "x"};
    assert SetOf(order[..2]) == {"a", "b"};
  }
}
