/** Exactly when the rounds of a migration succeed, with upgraders and downgraders: a script
    runs in the round of its depth, and it must not come after the removal of a tag it needs. */
module MigrationDepth {
  import opened Counting
  import opened Migration

  // ---------------------------------------------------------------------------- depth

  /** Each dependency is present, or is a pending script of `below`. */
  predicate Supported(u: Script, tags: set<Tag>, below: set<Tag>) {
    forall d :: d in u.depends ==> d in tags || d in below
  }

  /** The pending scripts with less than `n` pending upgraders in any chain below them. */
  function Below(r: Scripts, tags: set<Tag>, n: nat): (b: set<Tag>)
    requires Valid(r)
    ensures b <= Pending(r, tags)
  {
    if n == 0 then {}
    else set t | t in Pending(r, tags) && Supported(r.byTag[t], tags, Below(r, tags, n - 1))
  }

  lemma {:induction false} BelowGrows(r: Scripts, tags: set<Tag>, n: nat)
    requires Valid(r)
    ensures Below(r, tags, n) <= Below(r, tags, n + 1)
  {
    if n > 0 { BelowGrows(r, tags, n - 1); }
  }

  lemma {:induction false} BelowMono(r: Scripts, tags: set<Tag>, m: nat, n: nat)
    requires Valid(r) && m <= n
    ensures Below(r, tags, m) <= Below(r, tags, n)
    decreases n
  {
    if m < n {
      BelowMono(r, tags, m, n - 1);
      BelowGrows(r, tags, n - 1);
    }
  }

  /** Once a level adds nothing, no later one does. */
  lemma {:induction false} BelowStays(r: Scripts, tags: set<Tag>, m: nat, n: nat)
    requires Valid(r) && m <= n && Below(r, tags, m) == Below(r, tags, m + 1)
    ensures Below(r, tags, n) == Below(r, tags, m)
    decreases n
  {
    if m < n {
      BelowStays(r, tags, m, n - 1);
      if n - 1 > m { assert Below(r, tags, n) == Below(r, tags, m + 1); }
    }
  }

  /** A family of sets that grows, and stops for good once it stops. */
  ghost predicate Steady(f: nat -> set<Tag>, k: nat) {
    f(k) <= f(k + 1) && (f(k) == f(k + 1) ==> f(k + 1) == f(k + 2))
  }

  lemma {:induction false} GrowsOrStops(f: nat -> set<Tag>, n: nat)
    requires forall k: nat :: Steady(f, k)
    ensures |f(n)| >= n || f(n) == f(n + 1)
  {
    if n > 0 {
      GrowsOrStops(f, n - 1);
      assert Steady(f, n - 1);
      if f(n - 1) != f(n) { SubsetCardLess(f(n - 1), f(n)); }
    }
  }

  lemma SubsetCardLess(a: set<Tag>, b: set<Tag>)
    requires a < b
    ensures |a| < |b|
  {
    var x :| x in b && x !in a;
    SubsetCard(a + {x}, b);
  }

  /** A set that cannot be larger and is not smaller is the whole. */
  lemma FullOrStopped(f: nat -> set<Tag>, all: set<Tag>)
    requires (forall k: nat :: Steady(f, k)) && f(|all|) <= all
    ensures f(|all|) == all || f(|all|) == f(|all| + 1)
  {
    GrowsOrStops(f, |all|);
    SubsetCard(f(|all|), all);
    if |f(|all|)| == |all| { SubsetCardEqual(f(|all|), all); }
  }

  lemma BelowIsSteady(r: Scripts, tags: set<Tag>, k: nat)
    requires Valid(r)
    ensures Below(r, tags, k) == Below(r, tags, k + 1) ==> Below(r, tags, k + 1) == Below(r, tags, k + 2)
  {
    if Below(r, tags, k) == Below(r, tags, k + 1) { BelowStays(r, tags, k, k + 2); }
  }

  lemma BelowStops(r: Scripts, tags: set<Tag>)
    requires Valid(r)
    ensures var m := |Pending(r, tags)|;
            Below(r, tags, m) == Pending(r, tags) || Below(r, tags, m) == Below(r, tags, m + 1)
  {
    var f := (k: nat) => Below(r, tags, k);
    forall k: nat ensures Steady(f, k) {
      BelowGrows(r, tags, k);
      BelowIsSteady(r, tags, k);
    }
    FullOrStopped(f, Pending(r, tags));
  }

  /** As many levels as there are pending scripts are enough. */
  lemma LevelsSuffice(r: Scripts, tags: set<Tag>, n: nat)
    requires Valid(r)
    ensures Below(r, tags, n) <= Below(r, tags, |Pending(r, tags)|)
  {
    var m := |Pending(r, tags)|;
    if n <= m {
      BelowMono(r, tags, n, m);
    } else {
      BelowStops(r, tags);
      if Below(r, tags, m) == Below(r, tags, m + 1) { BelowStays(r, tags, m, n); }
    }
  }

  /** Every chain of dependencies below a pending script ends at tags that are present. */
  predicate Leveled(r: Scripts, tags: set<Tag>)
    requires Valid(r)
  {
    Below(r, tags, |Pending(r, tags)|) == Pending(r, tags)
  }

  function DepthFrom(r: Scripts, tags: set<Tag>, t: Tag, n: nat): (k: nat)
    requires Valid(r) && t in Below(r, tags, n + 1)
    ensures k <= n && t in Below(r, tags, k + 1) && t !in Below(r, tags, k)
  {
    if t in Below(r, tags, n) then DepthFrom(r, tags, t, n - 1) else n
  }

  /** The longest chain of pending upgraders below a script. */
  function Depth(r: Scripts, tags: set<Tag>, t: Tag): (k: nat)
    requires Valid(r) && Leveled(r, tags) && t in Pending(r, tags)
    ensures t in Below(r, tags, k + 1) && t !in Below(r, tags, k)
  {
    DepthFrom(r, tags, t, |Pending(r, tags)| - 1)
  }

  lemma LevelIff(r: Scripts, tags: set<Tag>, t: Tag, k: nat, n: nat)
    requires Valid(r) && t in Below(r, tags, k + 1) && t !in Below(r, tags, k)
    ensures t in Below(r, tags, n) <==> k < n
  {
    if k < n { BelowMono(r, tags, k + 1, n); } else { BelowMono(r, tags, n, k); }
  }

  lemma DepthIff(r: Scripts, tags: set<Tag>, t: Tag, n: nat)
    requires Valid(r) && Leveled(r, tags) && t in Pending(r, tags)
    ensures t in Below(r, tags, n) <==> Depth(r, tags, t) < n
  {
    LevelIff(r, tags, t, Depth(r, tags, t), n);
  }

  lemma BelowIff(r: Scripts, tags: set<Tag>, t: Tag, n: nat)
    requires Valid(r) && t in Pending(r, tags)
    ensures t in Below(r, tags, n + 1) <==> Supported(r.byTag[t], tags, Below(r, tags, n))
  {
  }

  lemma MissingIsBelow(r: Scripts, tags: set<Tag>, t: Tag, k: nat, d: Tag)
    requires Valid(r) && t in Below(r, tags, k + 1) && d in r.byTag[t].depends && d !in tags
    ensures d in Below(r, tags, k)
  {
    BelowIff(r, tags, t, k);
  }

  lemma OneDirectlyBelow(r: Scripts, tags: set<Tag>, t: Tag, k: nat) returns (d: Tag)
    requires Valid(r) && t in Below(r, tags, k + 1) && t !in Below(r, tags, k) && k > 0
    ensures d in r.byTag[t].depends && d in Below(r, tags, k) && d !in Below(r, tags, k - 1)
  {
    BelowIff(r, tags, t, k - 1);
    d :| d in r.byTag[t].depends && !(d in tags || d in Below(r, tags, k - 1));
    MissingIsBelow(r, tags, t, k, d);
  }

  /** A dependency that is missing lies below. */
  lemma MissingIsShallower(r: Scripts, tags: set<Tag>, t: Tag, d: Tag)
    requires Valid(r) && Leveled(r, tags) && t in Pending(r, tags) && d in r.byTag[t].depends && d !in tags
    ensures d in Pending(r, tags) && Depth(r, tags, d) < Depth(r, tags, t)
  {
    MissingIsBelow(r, tags, t, Depth(r, tags, t), d);
    DepthIff(r, tags, d, Depth(r, tags, t));
  }

  /** The depth is the length of a chain: below a script that is not at the bottom there is
      one of its dependencies, one level down. */
  lemma DepthIsAttained(r: Scripts, tags: set<Tag>, t: Tag) returns (d: Tag)
    requires Valid(r) && Leveled(r, tags) && t in Pending(r, tags) && Depth(r, tags, t) > 0
    ensures d in r.byTag[t].depends && d in Pending(r, tags) && Depth(r, tags, d) == Depth(r, tags, t) - 1
  {
    d := AttainedAt(r, tags, t, Depth(r, tags, t));
  }

  lemma AttainedAt(r: Scripts, tags: set<Tag>, t: Tag, k: nat) returns (d: Tag)
    requires Valid(r) && Leveled(r, tags) && t in Below(r, tags, k + 1) && t !in Below(r, tags, k) && k > 0
    ensures d in r.byTag[t].depends && d in Pending(r, tags) && Depth(r, tags, d) == k - 1
  {
    d := OneDirectlyBelow(r, tags, t, k);
    DepthUnique(r, tags, d, k - 1);
  }

  lemma DepthUnique(r: Scripts, tags: set<Tag>, t: Tag, k: nat)
    requires Valid(r) && Leveled(r, tags) && t in Below(r, tags, k + 1) && t !in Below(r, tags, k)
    ensures Depth(r, tags, t) == k
  {
    SameLevel(r, tags, t, Depth(r, tags, t), k);
  }

  lemma SameLevel(r: Scripts, tags: set<Tag>, t: Tag, j: nat, k: nat)
    requires Valid(r) && t in Below(r, tags, j + 1) && t !in Below(r, tags, j)
    requires t in Below(r, tags, k + 1) && t !in Below(r, tags, k)
    ensures j == k
  {
    LevelIff(r, tags, t, k, j);
    LevelIff(r, tags, t, k, j + 1);
  }

  // ----------------------------------------------------------------------- the rounds

  lemma LostNow(r: Scripts, tags: set<Tag>, done: set<Tag>, t: Tag, d: Tag)
    requires Valid(r) && t in Pending(r, tags) && d in r.byTag[t].depends && d in done * r.untagSet
    ensures t !in After(r, tags, done)
  {
    assert d !in Applied(r, tags, done);
  }

  /** A script whose dependency has been removed never runs any more. */
  lemma {:induction false} LostForever(r: Scripts, tags: set<Tag>, j: nat, k: nat, t: Tag, d: Tag)
    requires Valid(r) && j <= k && t in Pending(r, tags) && d in r.byTag[t].depends
    requires d in Done(r, tags, j) * r.untagSet && t !in Done(r, tags, j)
    ensures t !in Done(r, tags, k)
    decreases k
  {
    if j < k {
      LostForever(r, tags, j, k - 1, t, d);
      DoneMono(r, tags, j, k - 1);
      LostNow(r, tags, Done(r, tags, k - 1), t, d);
    }
  }

  /** A round runs only scripts of its level. */
  lemma RoundInLevel(r: Scripts, tags: set<Tag>, k: nat)
    requires Valid(r) && Done(r, tags, k) == Below(r, tags, k)
    ensures Done(r, tags, k + 1) <= Below(r, tags, k + 1)
  {
    BelowGrows(r, tags, k);
    var done := Done(r, tags, k);
    forall t | t in ReadySet(r, Applied(r, tags, done), Pending(r, tags) - done) ensures t in Below(r, tags, k + 1) {
      assert forall d :: d in r.byTag[t].depends ==> d in Applied(r, tags, done);
    }
  }

  /** It runs all of them, unless one has lost a dependency. */
  lemma LevelRuns(r: Scripts, tags: set<Tag>, k: nat, t: Tag)
    requires Valid(r) && Done(r, tags, k) == Below(r, tags, k) && t in Below(r, tags, k + 1)
    requires t in Below(r, tags, k) || forall d :: d in r.byTag[t].depends ==> d !in Below(r, tags, k) * r.untagSet
    ensures t in Done(r, tags, k + 1)
  {
    var done := Done(r, tags, k);
    if t !in done {
      forall d | d in r.byTag[t].depends ensures d in Applied(r, tags, done) {
        assert d in tags || d in done;
      }
    }
  }

  /** `d` is the tag of a pending downgrader, and `s` needs it. */
  predicate Needs(r: Scripts, tags: set<Tag>, s: Tag, d: Tag) {
    s in Pending(r, tags) && s in r.byTag && d in r.byTag[s].depends && d in Pending(r, tags) * r.untagSet
  }

  /** No script is deeper than the removal of a tag it needs. */
  ghost predicate InTime(r: Scripts, tags: set<Tag>)
    requires Valid(r) && Leveled(r, tags)
  {
    forall s, d :: Needs(r, tags, s, d) ==> Depth(r, tags, s) <= Depth(r, tags, d)
  }

  /** The same, level by level. */
  ghost predicate InLevels(r: Scripts, tags: set<Tag>)
    requires Valid(r)
  {
    forall n: nat :: InLevel(r, tags, n)
  }

  ghost predicate InLevel(r: Scripts, tags: set<Tag>, n: nat)
    requires Valid(r)
  {
    forall s, d :: Needs(r, tags, s, d) && d in Below(r, tags, n) ==> s in Below(r, tags, n)
  }

  lemma InTimeLevel(r: Scripts, tags: set<Tag>, s: Tag, d: Tag, n: nat)
    requires Valid(r) && Leveled(r, tags) && s in Pending(r, tags) && d in Pending(r, tags)
    requires Depth(r, tags, s) <= Depth(r, tags, d) && d in Below(r, tags, n)
    ensures s in Below(r, tags, n)
  {
    DepthIff(r, tags, d, n);
    DepthIff(r, tags, s, n);
  }

  lemma LevelInTime(r: Scripts, tags: set<Tag>, s: Tag, d: Tag)
    requires Valid(r) && Leveled(r, tags) && s in Pending(r, tags) && d in Pending(r, tags)
    requires s in Below(r, tags, Depth(r, tags, d) + 1)
    ensures Depth(r, tags, s) <= Depth(r, tags, d)
  {
    DepthIff(r, tags, s, Depth(r, tags, d) + 1);
  }

  lemma InTimeIff(r: Scripts, tags: set<Tag>)
    requires Valid(r) && Leveled(r, tags)
    ensures InTime(r, tags) <==> InLevels(r, tags)
  {
    if InTime(r, tags) {
      forall n: nat ensures InLevel(r, tags, n) {
        forall s, d | Needs(r, tags, s, d) && d in Below(r, tags, n) ensures s in Below(r, tags, n) {
          InTimeLevel(r, tags, s, d, n);
        }
      }
    }
    if InLevels(r, tags) {
      forall s, d | Needs(r, tags, s, d) ensures Depth(r, tags, s) <= Depth(r, tags, d) {
        assert InLevel(r, tags, Depth(r, tags, d) + 1);
        LevelInTime(r, tags, s, d);
      }
    }
  }

  predicate Uses(r: Scripts, t: Tag, d: Tag) {
    t in r.byTag && d in r.byTag[t].depends
  }

  /** Nothing of the next level has lost a dependency. */
  ghost predicate Unharmed(r: Scripts, tags: set<Tag>, k: nat)
    requires Valid(r)
  {
    forall t, d :: Uses(r, t, d) && t in Below(r, tags, k + 1) && t !in Below(r, tags, k) ==>
      d !in Below(r, tags, k) * r.untagSet
  }

  lemma LevelStep(r: Scripts, tags: set<Tag>, k: nat)
    requires Valid(r) && Done(r, tags, k) == Below(r, tags, k) && Unharmed(r, tags, k)
    ensures Done(r, tags, k + 1) == Below(r, tags, k + 1)
  {
    RoundInLevel(r, tags, k);
    var level, done := Below(r, tags, k + 1), Done(r, tags, k + 1);
    forall t | t in level ensures t in done {
      assert forall d :: d in r.byTag[t].depends ==> Uses(r, t, d);
      LevelRuns(r, tags, k, t);
    }
  }

  lemma LevelsUnharmed(r: Scripts, tags: set<Tag>, k: nat)
    requires Valid(r) && InLevels(r, tags)
    ensures Unharmed(r, tags, k)
  {
    forall t, d | Uses(r, t, d) && t in Below(r, tags, k + 1) && t !in Below(r, tags, k)
      ensures d !in Below(r, tags, k) * r.untagSet
    {
      NotYetRemoved(r, tags, k, t, d);
    }
  }

  lemma {:induction false} DoneIsBelow(r: Scripts, tags: set<Tag>, k: nat)
    requires Valid(r) && InLevels(r, tags)
    ensures Done(r, tags, k) == Below(r, tags, k)
  {
    if k > 0 {
      DoneIsBelow(r, tags, k - 1);
      LevelsUnharmed(r, tags, k - 1);
      LevelStep(r, tags, k - 1);
    }
  }

  lemma NotYetRemoved(r: Scripts, tags: set<Tag>, k: nat, t: Tag, d: Tag)
    requires Valid(r) && InLevels(r, tags) && t in Pending(r, tags)
    requires d in r.byTag[t].depends && t !in Below(r, tags, k)
    ensures d !in Below(r, tags, k) * r.untagSet
  {
    assert InLevel(r, tags, k);
    if d in Pending(r, tags) * r.untagSet { assert Needs(r, tags, t, d); }
  }

  /** The same if the rounds are known to finish. */
  lemma {:induction false} DoneIsBelowToo(r: Scripts, tags: set<Tag>, k: nat, last: nat)
    requires Valid(r) && Done(r, tags, last) == Pending(r, tags)
    ensures Done(r, tags, k) == Below(r, tags, k)
  {
    if k > 0 {
      DoneIsBelowToo(r, tags, k - 1, last);
      FinishedUnharmed(r, tags, k - 1, last);
      LevelStep(r, tags, k - 1);
    }
  }

  lemma FinishedUnharmed(r: Scripts, tags: set<Tag>, k: nat, last: nat)
    requires Valid(r) && Done(r, tags, last) == Pending(r, tags) && Done(r, tags, k) == Below(r, tags, k)
    ensures Unharmed(r, tags, k)
  {
    forall t, d | Uses(r, t, d) && t in Below(r, tags, k + 1) && t !in Below(r, tags, k)
      ensures d !in Below(r, tags, k) * r.untagSet
    {
      NotLost(r, tags, k, last, t, d);
    }
  }

  lemma NotLost(r: Scripts, tags: set<Tag>, j: nat, last: nat, t: Tag, d: Tag)
    requires Valid(r) && Done(r, tags, last) == Pending(r, tags)
    requires t in Pending(r, tags) && d in r.byTag[t].depends && t !in Done(r, tags, j)
    ensures d !in Done(r, tags, j) * r.untagSet
  {
    if d in Done(r, tags, j) * r.untagSet {
      if j <= last {
        LostForever(r, tags, j, last, t, d);
      } else {
        DoneMono(r, tags, last, j);
      }
    }
  }

  // -------------------------------------------------------------- how the rounds end

  lemma DoneIsSteady(r: Scripts, tags: set<Tag>, k: nat)
    requires Valid(r)
    ensures Done(r, tags, k) <= Done(r, tags, k + 1)
    ensures Done(r, tags, k) == Done(r, tags, k + 1) ==> Done(r, tags, k + 1) == Done(r, tags, k + 2)
  {
    NextFacts(r, tags, k);
    if Done(r, tags, k) == Done(r, tags, k + 1) {
      assert Next(r, tags, k) == {};
      StuckStays(r, tags, k, k + 2);
    }
  }

  /** After as many rounds as there are scripts, all have run or nothing is ready. */
  lemma DoneStops(r: Scripts, tags: set<Tag>)
    requires Valid(r)
    ensures var m := |Pending(r, tags)|;
            Done(r, tags, m) == Pending(r, tags) || Done(r, tags, m) == Done(r, tags, m + 1)
  {
    var f := (k: nat) => Done(r, tags, k);
    forall k: nat ensures Steady(f, k) { DoneIsSteady(r, tags, k); }
    FullOrStopped(f, Pending(r, tags));
  }

  lemma RoundsEnd(r: Scripts, tags: set<Tag>)
    requires Valid(r)
    ensures var done := Done(r, tags, |Pending(r, tags)|);
            Rounds(r, tags, Pending(r, tags)) ==
            if done == Pending(r, tags) then Migrated(Applied(r, tags, done))
            else Aborted(Applied(r, tags, done), Pending(r, tags) - done)
  {
    var n := |Pending(r, tags)|;
    RoundsFrom(r, tags, n);
    DoneStops(r, tags);
    if Done(r, tags, n) == Pending(r, tags) {
      assert Pending(r, tags) - Done(r, tags, n) == {};
    } else {
      NextFacts(r, tags, n);
      assert Next(r, tags, n) == {};
    }
  }

  /** The rounds succeed if and only if every depth exists and no script is deeper than the
      removal of a tag it needs. */
  lemma MigratesIff(r: Scripts, tags: set<Tag>)
    requires Valid(r)
    ensures Rounds(r, tags, Pending(r, tags)).Migrated? <==> Leveled(r, tags) && InTime(r, tags)
  {
    var n := |Pending(r, tags)|;
    RoundsEnd(r, tags);
    if Leveled(r, tags) {
      InTimeIff(r, tags);
      if InLevels(r, tags) { DoneIsBelow(r, tags, n); }
    }
    if Done(r, tags, n) == Pending(r, tags) {
      DoneIsBelowToo(r, tags, n, n);
      FinishedInLevels(r, tags, n);
    }
  }

  lemma FinishedInLevels(r: Scripts, tags: set<Tag>, last: nat)
    requires Valid(r) && Done(r, tags, last) == Pending(r, tags)
    ensures InLevels(r, tags)
  {
    forall n: nat ensures InLevel(r, tags, n) {
      DoneIsBelowToo(r, tags, n, last);
      forall s, d | Needs(r, tags, s, d) && d in Below(r, tags, n) ensures s in Below(r, tags, n) {
        if s !in Done(r, tags, n) { NotLost(r, tags, n, last, s, d); }
      }
    }
  }
}
