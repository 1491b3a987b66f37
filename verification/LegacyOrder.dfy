/** The order in which the legacy scripts run. They are chained, each to the one before it, so
    they run in ascending order of their versions, unless a version that is present separates
    two that are missing. */
module LegacyOrder {
  import opened Counting
  import opened Migration
  import opened MigrationDepth
  import opened MigrationLoading
  import opened MigrationOrders

  ghost predicate Missing(legacy: map<int, Tag>, tags: set<Tag>, i: int) {
    i in legacy && legacy[i] !in tags
  }

  /** No version that is present lies between two that are missing. */
  ghost predicate NoSplit(legacy: map<int, Tag>, top: int, tags: set<Tag>) {
    forall i, j, k :: 2 <= i < j < k < top && Missing(legacy, tags, i) && Missing(legacy, tags, k) ==>
      Missing(legacy, tags, j)
  }

  /** Upgraders only, with versions 2 up to `top` chained. */
  ghost predicate Chain(r: Scripts, legacy: map<int, Tag>, top: int) {
    && Valid(r) && r.untagSet == {}
    && (forall i :: 2 <= i < top ==> i in legacy && legacy[i] in r.tagSet)
    && (forall i :: 3 <= i < top ==> ChainedTo(r.byTag, legacy, i))
  }

  /** A missing version runs before every later one that runs. */
  ghost predicate Ascending(legacy: map<int, Tag>, top: int, tags: set<Tag>, order: seq<Tag>) {
    forall i, k :: 2 <= i < k < top && Missing(legacy, tags, i) && Missing(legacy, tags, k) && legacy[k] in order ==>
      Before(order, legacy[i], legacy[k])
  }

  // ----------------------------------------------------------------- ascending order

  /** Whenever version `k` runs, the one before it has run. */
  ghost predicate LinkHolds(order: seq<Tag>, legacy: map<int, Tag>, k: int) {
    && k in legacy && k - 1 in legacy
    && forall p :: 0 <= p < |order| && order[p] == legacy[k] ==> legacy[k - 1] in order[..p]
  }

  lemma LinkRuns(r: Scripts, tags: set<Tag>, order: seq<Tag>, legacy: map<int, Tag>, k: int)
    requires Runnable(r, tags, order) && ChainedTo(r.byTag, legacy, k) && Missing(legacy, tags, k - 1)
    ensures LinkHolds(order, legacy, k)
  {
    forall p | 0 <= p < |order| && order[p] == legacy[k] ensures legacy[k - 1] in order[..p] {
      DependencyEarlier(r, tags, order, p, legacy[k - 1]);
      var q :| 0 <= q < p && order[q] == legacy[k - 1];
      assert order[..p][q] == legacy[k - 1];
    }
  }

  /** Before a version runs all that lie below it without a gap. */
  lemma {:induction false} ChainRuns(order: seq<Tag>, legacy: map<int, Tag>, i: int, k: int, p: nat) returns (q: nat)
    requires i < k && p < |order| && k in legacy && order[p] == legacy[k]
    requires forall m :: i < m <= k ==> LinkHolds(order, legacy, m)
    ensures i in legacy && q < p && order[q] == legacy[i]
    decreases k - i
  {
    assert LinkHolds(order, legacy, k);
    q :| 0 <= q < p && order[..p][q] == legacy[k - 1];
    assert order[q] == legacy[k - 1];
    if i < k - 1 { q := ChainRuns(order, legacy, i, k - 1, q); }
  }

  lemma LinkInChain(r: Scripts, tags: set<Tag>, order: seq<Tag>, legacy: map<int, Tag>, top: int,
                    i: int, k: int, m: int)
    requires Chain(r, legacy, top) && Runnable(r, tags, order) && NoSplit(legacy, top, tags)
    requires 2 <= i < k < top && Missing(legacy, tags, i) && Missing(legacy, tags, k) && i < m <= k
    ensures LinkHolds(order, legacy, m)
  {
    assert ChainedTo(r.byTag, legacy, m);
    assert m - 1 == i || Missing(legacy, tags, m - 1);
    LinkRuns(r, tags, order, legacy, m);
  }

  lemma LinksGiveOrder(order: seq<Tag>, legacy: map<int, Tag>, i: int, k: int)
    requires i < k && k in legacy && legacy[k] in order
    requires forall m :: i < m <= k ==> LinkHolds(order, legacy, m)
    ensures i in legacy && Before(order, legacy[i], legacy[k])
  {
    var p :| 0 <= p < |order| && order[p] == legacy[k];
    var q := ChainRuns(order, legacy, i, k, p);
  }

  lemma PairAscends(r: Scripts, tags: set<Tag>, order: seq<Tag>, legacy: map<int, Tag>, top: int, i: int, k: int)
    requires Chain(r, legacy, top) && Runnable(r, tags, order) && NoSplit(legacy, top, tags)
    requires 2 <= i < k < top && Missing(legacy, tags, i) && Missing(legacy, tags, k) && legacy[k] in order
    ensures Before(order, legacy[i], legacy[k])
  {
    forall m | i < m <= k ensures LinkHolds(order, legacy, m) { LinkInChain(r, tags, order, legacy, top, i, k, m); }
    LinksGiveOrder(order, legacy, i, k);
  }

  /** In every run that respects dependencies the versions ascend, if none that is present
      separates two that are missing. */
  lemma LegacyAscends(r: Scripts, tags: set<Tag>, order: seq<Tag>, legacy: map<int, Tag>, top: int)
    requires Chain(r, legacy, top) && Runnable(r, tags, order) && NoSplit(legacy, top, tags)
    ensures Ascending(legacy, top, tags, order)
  {
    forall i, k | 2 <= i < k < top && Missing(legacy, tags, i) && Missing(legacy, tags, k) && legacy[k] in order
      ensures Before(order, legacy[i], legacy[k])
    {
      PairAscends(r, tags, order, legacy, top, i, k);
    }
  }

  // ------------------------------------------------------- runs respect dependencies

  lemma {:induction false} RoundOfScript(r: Scripts, tags: set<Tag>, k: nat, t: Tag) returns (j: nat)
    requires Valid(r) && t in Done(r, tags, k)
    ensures j < k && t in Next(r, tags, j)
  {
    if t in Done(r, tags, k - 1) { j := RoundOfScript(r, tags, k - 1, t); } else { j := k - 1; }
  }

  lemma ReadyInRun(r: Scripts, tags: set<Tag>, order: seq<Tag>, i: nat, j: nat)
    requires Valid(r) && r.untagSet == {} && i < |order| && order[i] in Next(r, tags, j)
    requires FrontIs(order, Done(r, tags, j)) && forall t :: t in order ==> t in Pending(r, tags)
    ensures Ready(r.byTag[order[i]], Applied(r, tags, SetOf(order[..i])))
  {
    var done := Done(r, tags, j);
    IndexBeyond(order, |done|, order[i], i);
    assert order[..|done|] == order[..i][..|done|];
    assert done <= SetOf(order[..i]) <= Pending(r, tags);
    ReadyStays(r, tags, Pending(r, tags), done, SetOf(order[..i]), order[i]);
  }

  /** With upgraders only, every script finds its dependencies in place. */
  lemma PossibleIsRunnable(r: Scripts, tags: set<Tag>, order: seq<Tag>)
    requires Valid(r) && r.untagSet == {} && Possible(r, tags, order)
    ensures Runnable(r, tags, order) && forall t :: t in order ==> t in Pending(r, tags)
  {
    var k: nat :| Next(r, tags, k) == {} && RunsTo(r, tags, k, order);
    forall i | 0 <= i < |order|
      ensures order[i] in r.byTag && Ready(r.byTag[order[i]], Applied(r, tags, SetOf(order[..i])))
    {
      var j := RoundOfScript(r, tags, k, order[i]);
      FrontOf(r, tags, order, j);
      ReadyInRun(r, tags, order, i, j);
    }
  }

  // ------------------------------------------------------------- the exact condition

  ghost predicate Distinguishable(legacy: map<int, Tag>, top: int) {
    && (forall i :: 2 <= i < top ==> i in legacy)
    && (forall i, j :: 2 <= i < j < top ==> legacy[i] != legacy[j])
  }

  function Link(legacy: map<int, Tag>, i: int): Script
    requires i in legacy && (i > 2 ==> i - 1 in legacy)
  {
    Script(legacy[i], Upgrade, if i > 2 then [legacy[i - 1]] else [], [])
  }

  /** The legacy scripts alone. */
  ghost function Links(legacy: map<int, Tag>, top: int): map<Tag, Script>
    requires Distinguishable(legacy, top)
    decreases top
  {
    if top <= 2 then map[] else Links(legacy, top - 1)[legacy[top - 1] := Link(legacy, top - 1)]
  }

  lemma {:induction false} LinkAt(legacy: map<int, Tag>, top: int, i: int)
    requires Distinguishable(legacy, top) && 2 <= i < top
    ensures legacy[i] in Links(legacy, top) && Links(legacy, top)[legacy[i]] == Link(legacy, i)
    decreases top
  {
    if i < top - 1 {
      LinkAt(legacy, top - 1, i);
      assert legacy[i] != legacy[top - 1];
    }
  }

  lemma {:induction false} VersionOf(legacy: map<int, Tag>, top: int, t: Tag) returns (i: int)
    requires Distinguishable(legacy, top) && t in Links(legacy, top)
    ensures 2 <= i < top && legacy[i] == t
    decreases top
  {
    if t == legacy[top - 1] { i := top - 1; } else { i := VersionOf(legacy, top - 1, t); }
  }

  ghost function LegacyOnly(legacy: map<int, Tag>, top: int): Scripts
    requires Distinguishable(legacy, top)
  {
    Scripts(Links(legacy, top), Links(legacy, top).Keys, {})
  }

  lemma LegacyOnlyIsChain(legacy: map<int, Tag>, top: int)
    requires Distinguishable(legacy, top)
    ensures Chain(LegacyOnly(legacy, top), legacy, top)
  {
    var r := LegacyOnly(legacy, top);
    forall t | t in r.tagSet ensures r.byTag[t].kind.Upgrade? {
      var i := VersionOf(legacy, top, t);
      LinkAt(legacy, top, i);
    }
    forall i | 2 <= i < top ensures legacy[i] in r.tagSet { LinkAt(legacy, top, i); }
    forall i | 3 <= i < top ensures ChainedTo(r.byTag, legacy, i) { LinkAt(legacy, top, i); }
  }

  /** A missing version whose predecessor is not missing. */
  ghost predicate Lowest(legacy: map<int, Tag>, tags: set<Tag>, i: int) {
    Missing(legacy, tags, i) && (i > 2 ==> i - 1 in legacy && legacy[i - 1] in tags)
  }

  /** Below a missing version, down to `low`, there is a lowest one. */
  lemma {:induction false} FindLowest(legacy: map<int, Tag>, top: int, tags: set<Tag>, low: int, i: int)
    returns (m: int)
    requires Distinguishable(legacy, top) && 2 <= low <= i < top && Missing(legacy, tags, i)
    requires low == 2 || legacy[low - 1] in tags
    ensures low <= m <= i && Lowest(legacy, tags, m)
    decreases i - low
  {
    if i > low && Missing(legacy, tags, i - 1) { m := FindLowest(legacy, top, tags, low, i - 1); } else { m := i; }
  }

  lemma LowestIsReady(legacy: map<int, Tag>, top: int, tags: set<Tag>, i: int)
    requires Distinguishable(legacy, top) && 2 <= i < top && Lowest(legacy, tags, i)
    ensures Valid(LegacyOnly(legacy, top)) && legacy[i] in Done(LegacyOnly(legacy, top), tags, 1)
  {
    LegacyOnlyIsChain(legacy, top);
    var r := LegacyOnly(legacy, top);
    LinkAt(legacy, top, i);
    assert Applied(r, tags, {}) == tags;
    assert legacy[i] in Pending(r, tags) && Ready(r.byTag[legacy[i]], tags);
    assert Done(r, tags, 0) == {};
    NextFacts(r, tags, 0);
  }

  /** A run of the legacy scripts alone in which a later version comes first. */
  lemma SplitRun(legacy: map<int, Tag>, top: int, tags: set<Tag>, i: int, j: int, k: int)
    returns (order: seq<Tag>, a: int, b: int)
    requires Distinguishable(legacy, top) && 2 <= i < j < k < top
    requires Missing(legacy, tags, i) && legacy[j] in tags && Missing(legacy, tags, k)
    ensures Valid(LegacyOnly(legacy, top)) && Possible(LegacyOnly(legacy, top), tags, order)
    ensures 2 <= a <= i && j < b <= k && Missing(legacy, tags, a) && Missing(legacy, tags, b)
    ensures legacy[b] in order && !Before(order, legacy[a], legacy[b])
  {
    a := FindLowest(legacy, top, tags, 2, i);
    b := FindLowest(legacy, top, tags, j + 1, k);
    order := LaterFirst(legacy, top, tags, a, b);
  }

  /** A missing version whose predecessor is present can run before any other. */
  lemma LaterFirst(legacy: map<int, Tag>, top: int, tags: set<Tag>, a: int, b: int) returns (order: seq<Tag>)
    requires Distinguishable(legacy, top) && 2 <= a < b < top && Missing(legacy, tags, a) && Lowest(legacy, tags, b)
    ensures Valid(LegacyOnly(legacy, top)) && Possible(LegacyOnly(legacy, top), tags, order)
    ensures legacy[b] in order && !Before(order, legacy[a], legacy[b])
  {
    LowestIsReady(legacy, top, tags, b);
    order := FirstRoundRun(LegacyOnly(legacy, top), tags, legacy[a], legacy[b]);
  }

  /** Versions 2 to 5. */
  function FourVersions(): map<int, Tag> {
    map[2 := "a", 3 := "b", 4 := "c", 5 := "d"]
  }

  /** With versions 2 and 4 present, version 5 can run before version 3. */
  lemma FiveBeforeThree() returns (order: seq<Tag>)
    ensures Distinguishable(FourVersions(), 6) && Valid(LegacyOnly(FourVersions(), 6))
    ensures Possible(LegacyOnly(FourVersions(), 6), {"a", "c"}, order)
    ensures "d" in order && !Before(order, "b", "d")
  {
    order := LaterFirst(FourVersions(), 6, {"a", "c"}, 3, 5);
  }

  lemma StopsSomewhere(r: Scripts, tags: set<Tag>)
    requires Valid(r)
    ensures Next(r, tags, |Pending(r, tags)|) == {}
  {
    DoneStops(r, tags);
    NextFacts(r, tags, |Pending(r, tags)|);
  }

  lemma FirstRoundRun(r: Scripts, tags: set<Tag>, a: Tag, b: Tag) returns (order: seq<Tag>)
    requires Valid(r) && b in Done(r, tags, 1)
    ensures Possible(r, tags, order) && b in order && !Before(order, a, b)
  {
    order := LedRun(r, tags, b);
    forall j: nat ensures a in Done(r, tags, j) ==> b in Done(r, tags, j) {
      if j >= 1 { DoneMono(r, tags, 1, j); }
    }
    LeaderIsNotBehind(r, tags, order, a, b);
  }

  lemma LedRun(r: Scripts, tags: set<Tag>, b: Tag) returns (order: seq<Tag>)
    requires Valid(r) && b in Done(r, tags, 1)
    ensures Possible(r, tags, order) && Distinct(order) && b in order && Leads(r, tags, order, b)
  {
    var n := |Pending(r, tags)|;
    StopsSomewhere(r, tags);
    assert b in Pending(r, tags) && n >= 1;
    DoneMono(r, tags, 1, n);
    order := RunWith(r, tags, n, b);
    assert Possible(r, tags, order);
  }

  lemma NoSplitAscends(r: Scripts, tags: set<Tag>, order: seq<Tag>, legacy: map<int, Tag>, top: int)
    requires Chain(r, legacy, top) && Possible(r, tags, order) && NoSplit(legacy, top, tags)
    ensures Ascending(legacy, top, tags, order)
  {
    PossibleIsRunnable(r, tags, order);
    LegacyAscends(r, tags, order, legacy, top);
  }

  lemma SplitBreaks(legacy: map<int, Tag>, top: int, tags: set<Tag>) returns (order: seq<Tag>)
    requires Distinguishable(legacy, top) && !NoSplit(legacy, top, tags)
    ensures Chain(LegacyOnly(legacy, top), legacy, top) && Possible(LegacyOnly(legacy, top), tags, order)
    ensures !Ascending(legacy, top, tags, order)
  {
    var i, j, k :| 2 <= i < j < k < top && Missing(legacy, tags, i) && Missing(legacy, tags, k)
                   && !Missing(legacy, tags, j);
    LegacyOnlyIsChain(legacy, top);
    var a, b;
    order, a, b := SplitRun(legacy, top, tags, i, j, k);
  }

  /** Every possible run, with whatever other upgraders there are, is in ascending order. */
  ghost predicate AlwaysAscends(legacy: map<int, Tag>, top: int, tags: set<Tag>) {
    forall r, order | Chain(r, legacy, top) :: Possible(r, tags, order) ==> Ascending(legacy, top, tags, order)
  }

  /** Whatever other upgraders there are and whatever the iteration order is, the versions
      ascend, if and only if none that is present separates two that are missing. */
  lemma AscendsIff(legacy: map<int, Tag>, top: int, tags: set<Tag>)
    requires Distinguishable(legacy, top)
    ensures AlwaysAscends(legacy, top, tags) <==> NoSplit(legacy, top, tags)
  {
    if NoSplit(legacy, top, tags) {
      forall r, order | Chain(r, legacy, top) && Possible(r, tags, order) ensures Ascending(legacy, top, tags, order) {
        NoSplitAscends(r, tags, order, legacy, top);
      }
    } else {
      var order := SplitBreaks(legacy, top, tags);
    }
  }

  // -------------------------------------------------------------- a legacy checkpoint

  /** The scripts of the later versions run in this order: version + 1, version + 2, and so
      on, all of them if the migration succeeds; no earlier one runs. */
  ghost predicate RunsInOrder(legacy: map<int, Tag>, top: int, version: int, done: bool, order: seq<Tag>) {
    && (forall i :: 2 <= i <= version ==> i in legacy && legacy[i] !in order)
    && (forall i, k :: 2 <= i < k < top && version < i && k in legacy && legacy[k] in order ==>
          i in legacy && Before(order, legacy[i], legacy[k]))
    && (done ==> forall i :: 2 <= i < top && version < i && i in legacy ==> legacy[i] in order)
  }

  ghost predicate HasVersions(legacy: map<int, Tag>, version: int) {
    forall i :: 2 <= i <= version ==> i in legacy
  }

  ghost predicate IsOutcome(r: Scripts, tags: set<Tag>, outcome: Outcome) {
    Valid(r) && outcome == Rounds(r, tags, Pending(r, tags))
  }

  /** The tags of the versions up to one are exactly those versions. */
  ghost predicate TagsOf(legacy: map<int, Tag>, version: int, tags: set<Tag>) {
    && HasVersions(legacy, version)
    && (forall t :: t in tags <==> exists i :: 2 <= i <= version && i in legacy && legacy[i] == t)
  }

  /** The same, told of the script files: of the versions declared, those up to `version` do
      not run, and the later ones run in ascending order. */
  ghost predicate FilesInOrder(files: seq<(Script, bool, int)>, top: int, version: int, done: bool, order: seq<Tag>) {
    && (forall j: nat, i :: LastWith(files, |files|, j, i) && 2 <= i <= version ==> files[j].0.tag !in order)
    && (forall j: nat, i, k: nat, m ::
          LastWith(files, |files|, j, i) && LastWith(files, |files|, k, m) ==>
            (version < i && 2 <= i < m < top && files[k].0.tag in order ==>
               Before(order, files[j].0.tag, files[k].0.tag)))
    && (forall j: nat, i :: LastWith(files, |files|, j, i) && done && version < i && 2 <= i < top ==>
          files[j].0.tag in order)
  }

  lemma FilesRunInOrder(files: seq<(Script, bool, int)>, legacy: map<int, Tag>, top: int, version: int,
                        done: bool, order: seq<Tag>)
    requires LegacyAs(files, |files|, legacy) && RunsInOrder(legacy, top, version, done, order)
    ensures FilesInOrder(files, top, version, done, order)
  {
    forall j: nat, i | LastWith(files, |files|, j, i) ensures i in legacy && legacy[i] == files[j].0.tag {
      LegacyIs(files, legacy, j, i);
    }
  }

  /** Loads the scripts, turns the legacy version of a checkpoint into tags, and migrates it. */
  method MigrateLegacy(reg: Registry, files: seq<(Script, bool, int)>, version: int)
    returns (ok: bool, top: int, outcome: Outcome, order: seq<Tag>, ghost filed: map<Tag, Script>)
    requires reg.byTag == map[] && reg.tagSet == {} && reg.untagSet == {} && reg.legacy == map[]
    requires forall i, j :: 0 <= i < j < |files| ==> files[i].0.tag != files[j].0.tag
    requires forall i :: 0 <= i < |files| ==> files[i].0.kind.Upgrade?
    modifies reg
    ensures FiledAs(files, |files|, filed) && LegacyAs(files, |files|, reg.legacy)
    ensures forall i :: i in reg.legacy ==> reg.legacy[i] in filed
    ensures 3 in reg.legacy && 2 !in reg.legacy ==> !ok
    ensures (3 in reg.legacy ==> 2 in reg.legacy) ==>
              && Versions(reg.legacy, top)
              && (ok <==> AllKnown(Chained(filed, reg.legacy, top)) && HasVersions(reg.legacy, version))
    ensures ok ==> Versions(reg.legacy, top) && top !in reg.legacy
    ensures ok ==> exists tags :: TagsOf(reg.legacy, version, tags) && IsOutcome(reg.Loaded(), tags, outcome)
    ensures ok ==> RunsInOrder(reg.legacy, top, version, outcome.Migrated?, order)
    ensures ok ==> FilesInOrder(files, top, version, outcome.Migrated?, order)
  {
    outcome, order := Aborted({}, {}), [];
    ok, top, filed := reg.LoadAll(files);
    if !ok { return; }
    var tags;
    ok, tags := reg.LegacyTags(version);
    if !ok { return; }
    var r := Scripts(reg.byTag, reg.tagSet, reg.untagSet);
    AllUpgraders(files, filed, r, reg.legacy);
    UpgradersOnly(r, tags);
    outcome, order := Migrate(r, tags);
    assert TagsOf(reg.legacy, version, tags) && IsOutcome(reg.Loaded(), tags, outcome);
    LegacyRun(r, reg.legacy, top, version, tags, outcome, order);
    FilesRunInOrder(files, reg.legacy, top, version, outcome.Migrated?, order);
  }

  lemma AllUpgraders(files: seq<(Script, bool, int)>, filed: map<Tag, Script>, r: Scripts, legacy: map<int, Tag>)
    requires FiledAs(files, |files|, filed) && SameScripts(filed, r.byTag) && WellFiled(r, legacy)
    requires forall i :: 0 <= i < |files| ==> files[i].0.kind.Upgrade?
    ensures r.untagSet == {}
  {
    forall t | t in r.byTag ensures r.byTag[t].kind.Upgrade? {
      assert t in filed;
      var j :| 0 <= j < |files| && files[j].0.tag == t;
      assert filed[t] == files[j].0;
    }
    assert forall t :: t !in r.untagSet;
  }

  lemma MissingIff(legacy: map<int, Tag>, version: int, tags: set<Tag>, i: int)
    requires TagsOf(legacy, version, tags) && 2 <= i && i in legacy
    requires forall i, j :: i in legacy && j in legacy && i != j ==> legacy[i] != legacy[j]
    ensures Missing(legacy, tags, i) <==> version < i
  {
  }

  lemma LegacyRun(r: Scripts, legacy: map<int, Tag>, top: int, version: int, tags: set<Tag>,
                  outcome: Outcome, order: seq<Tag>)
    requires WellFiled(r, legacy) && r.untagSet == {} && Versions(legacy, top) && TagsOf(legacy, version, tags)
    requires forall i :: 3 <= i < top ==> ChainedTo(r.byTag, legacy, i)
    requires Runnable(r, tags, order) && (forall t :: t in order ==> t in Pending(r, tags))
    requires outcome.Migrated? ==> SetOf(order) == Pending(r, tags)
    ensures RunsInOrder(legacy, top, version, outcome.Migrated?, order)
  {
    forall i | 2 <= i <= version ensures legacy[i] !in order { MissingIff(legacy, version, tags, i); }
    if top > 3 {
      forall i, j, k | 2 <= i < j < k < top && Missing(legacy, tags, i) && Missing(legacy, tags, k)
        ensures Missing(legacy, tags, j)
      {
        MissingIff(legacy, version, tags, i);
        MissingIff(legacy, version, tags, j);
      }
      LegacyAscends(r, tags, order, legacy, top);
      forall i, k | 2 <= i < k < top && version < i && k in legacy && legacy[k] in order
        ensures i in legacy && Before(order, legacy[i], legacy[k])
      {
        MissingIff(legacy, version, tags, i);
        MissingIff(legacy, version, tags, k);
      }
    }
    if outcome.Migrated? {
      forall i | 2 <= i < top && version < i && i in legacy ensures legacy[i] in order {
        MissingIff(legacy, version, tags, i);
        assert legacy[i] in SetOf(order);
      }
    }
  }
}
