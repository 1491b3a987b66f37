/** Loading the migration scripts: filing them by tag, chaining the legacy versions, and
    resolving forward dependencies. */
module MigrationLoading {
  import opened Migration

  predicate DependsOn(m: map<Tag, Script>, x: Tag, d: Tag) {
    x in m && d in m[x].depends
  }

  /** `t` declares that `x` depends on it. */
  predicate Names(m: map<Tag, Script>, t: Tag, x: Tag) {
    t in m && x in m[t].fwdDepends
  }

  /** Same tags, kinds and forward dependencies; only `depends` may differ. */
  ghost predicate SameScripts(m: map<Tag, Script>, m': map<Tag, Script>) {
    && m'.Keys == m.Keys
    && forall t :: t in m ==> m'[t] == m[t].(depends := m'[t].depends)
  }

  /** The dependencies once the forward dependencies of `done` have been added. */
  ghost predicate ForwardAdded(m: map<Tag, Script>, m': map<Tag, Script>, done: set<Tag>) {
    forall x, d :: x in m ==>
      (DependsOn(m', x, d) <==> DependsOn(m, x, d) || (d in done && Names(m, d, x)))
  }

  /** All that `t` declares, forward or backward, names known scripts. */
  ghost predicate Known(m: map<Tag, Script>, t: Tag) {
    (forall d :: DependsOn(m, t, d) ==> d in m) && (forall x :: Names(m, t, x) ==> x in m)
  }

  /** Every dependency, declared forward or backward, names a known script. */
  ghost predicate AllKnown(m: map<Tag, Script>) {
    forall t :: t in m ==> Known(m, t)
  }

  ghost predicate WellFiled(r: Scripts, legacy: map<int, Tag>) {
    && Valid(r) && r.tagSet + r.untagSet == r.byTag.Keys
    && (forall t :: t in r.byTag ==> r.byTag[t].tag == t)
    && (forall i :: i in legacy ==> legacy[i] in r.byTag)
    && (forall i, j :: i in legacy && j in legacy && i != j ==> legacy[i] != legacy[j])
  }

  lemma FiledStays(r: Scripts, m: map<Tag, Script>, legacy: map<int, Tag>)
    requires WellFiled(r, legacy) && SameScripts(r.byTag, m)
    ensures WellFiled(r.(byTag := m), legacy)
  {
  }

  /** The first n scripts, each under its own tag. */
  ghost predicate FiledAs(files: seq<(Script, bool, int)>, n: nat, m: map<Tag, Script>) {
    && n <= |files|
    && (forall t :: t in m ==> exists j :: 0 <= j < n && files[j].0.tag == t)
    && (forall j :: 0 <= j < n ==> files[j].0.tag in m && m[files[j].0.tag] == files[j].0)
  }

  predicate Declares(files: seq<(Script, bool, int)>, j: nat, i: int) {
    j < |files| && files[j].1 && files[j].2 == i
  }

  /** The j-th of the first n scripts is the last one that declares legacy version i. */
  ghost predicate LastWith(files: seq<(Script, bool, int)>, n: nat, j: nat, i: int) {
    j < n && Declares(files, j, i) && forall k: nat :: j < k < n ==> !Declares(files, k, i)
  }

  /** A version is known exactly when one of the first n scripts declares it, and then it
      stands for the tag of the last one that does. */
  ghost predicate LegacyAs(files: seq<(Script, bool, int)>, n: nat, legacy: map<int, Tag>) {
    && (forall i :: i in legacy ==> exists j: nat :: LastWith(files, n, j, i) && legacy[i] == files[j].0.tag)
    && (forall j: nat, i :: j < n && Declares(files, j, i) ==> i in legacy)
  }

  lemma LegacyNext(files: seq<(Script, bool, int)>, n: nat, legacy: map<int, Tag>)
    requires n < |files| && LegacyAs(files, n, legacy)
    ensures LegacyAs(files, n + 1, if files[n].1 then legacy[files[n].2 := files[n].0.tag] else legacy)
  {
    var after := if files[n].1 then legacy[files[n].2 := files[n].0.tag] else legacy;
    forall i | i in after ensures exists j: nat :: LastWith(files, n + 1, j, i) && after[i] == files[j].0.tag {
      if Declares(files, n, i) {
        assert LastWith(files, n + 1, n, i);
      } else {
        var j: nat :| LastWith(files, n, j, i) && legacy[i] == files[j].0.tag;
        assert LastWith(files, n + 1, j, i);
      }
    }
  }

  /** Which script stands for a version is determined. */
  lemma LegacyIs(files: seq<(Script, bool, int)>, legacy: map<int, Tag>, j: nat, i: int)
    requires LegacyAs(files, |files|, legacy) && LastWith(files, |files|, j, i)
    ensures i in legacy && legacy[i] == files[j].0.tag
  {
    var k: nat :| LastWith(files, |files|, k, i) && legacy[i] == files[k].0.tag;
    assert j == k;
  }

  class Registry {
    var byTag: map<Tag, Script>
    var tagSet: set<Tag>
    var untagSet: set<Tag>
    var legacy: map<int, Tag>

    constructor ()
      ensures byTag == map[] && tagSet == {} && untagSet == {} && legacy == map[]
    {
      byTag, tagSet, untagSet, legacy := map[], {}, {}, map[];
    }

    ghost function Loaded(): Scripts
      reads this
    {
      Scripts(byTag, tagSet, untagSet)
    }

    ghost predicate Filed()
      reads this
    {
      WellFiled(Loaded(), legacy)
    }

    /** Files a script under its tag and kind, and under its legacy version if it has one. A
        tag that is used once only keeps the files consistent. */
    method Register(u: Script, hasVersion: bool, version: int)
      modifies this
      ensures old(Filed()) && u.tag !in old(byTag) ==> Filed()
      ensures byTag == old(byTag)[u.tag := u]
      ensures tagSet == if u.kind.Upgrade? then old(tagSet) + {u.tag} else old(tagSet)
      ensures untagSet == if u.kind.Upgrade? then old(untagSet) else old(untagSet) + {u.tag}
      ensures legacy == if hasVersion then old(legacy)[version := u.tag] else old(legacy)
    {
      if u.kind.Upgrade? {
        tagSet := tagSet + {u.tag};
      } else {
        untagSet := untagSet + {u.tag};
      }
      if hasVersion {
        legacy := legacy[version := u.tag];
      }
      byTag := byTag[u.tag := u];
    }

    /** From version 3 up to the first gap, each legacy script is made to depend on the one
        before it; version 3 without version 2 is an error. */
    method LinkLegacy() returns (ok: bool, top: int)
      requires Filed()
      modifies this`byTag
      ensures ok <==> (3 in legacy ==> 2 in legacy)
      ensures ok ==> top !in legacy && Versions(legacy, top) && byTag == Chained(old(byTag), legacy, top)
    {
      ghost var m, above := byTag, legacy.Keys;
      top := 3;
      while top in legacy
        invariant Versions(legacy, top) && AllFiled(legacy, m)
        invariant byTag == Chained(m, legacy, top)
        invariant AllAbove(legacy, top, above)
        decreases above
      {
        if top - 1 !in legacy {
          return false, top;
        }
        ChainedNext(m, legacy, top);
        byTag := byTag[legacy[top] := byTag[legacy[top]].(depends := [legacy[top - 1]])];
        AboveNext(legacy, top, above);
        above := above - {top};
        top := top + 1;
      }
      ok := true;
    }

    /** load_all: files every script, chains the legacy versions and resolves forward
        dependencies. On success every dependency names a known script, and each legacy
        version from 3 up to the first gap depends on the version before it. It fails exactly
        when version 3 comes without version 2 or a dependency names no script. */
    method LoadAll(files: seq<(Script, bool, int)>) returns (ok: bool, top: int, ghost filed: map<Tag, Script>)
      requires byTag == map[] && tagSet == {} && untagSet == {} && legacy == map[]
      requires forall i, j :: 0 <= i < j < |files| ==> files[i].0.tag != files[j].0.tag
      modifies this
      ensures ok ==> Filed() && (forall x, d :: DependsOn(byTag, x, d) ==> d in byTag)
      ensures ok ==> Versions(legacy, top) && top !in legacy
      ensures ok ==> forall i :: 3 <= i < top ==> ChainedTo(byTag, legacy, i)
      ensures ok ==> SameScripts(filed, byTag) && LoadedAs(filed, legacy, top, byTag)
      ensures FiledAs(files, |files|, filed) && LegacyAs(files, |files|, legacy)
      ensures forall i :: i in legacy ==> legacy[i] in filed
      ensures 3 in legacy && 2 !in legacy ==> !ok
      ensures (3 in legacy ==> 2 in legacy) ==>
                Versions(legacy, top) && (ok <==> AllKnown(Chained(filed, legacy, top)))
    {
      RegisterAll(files);
      filed := byTag;
      ghost var r := Loaded();
      ok, top := LinkLegacy();
      if !ok { return; }
      ChainedFacts(r.byTag, legacy, top);
      FiledStays(r, byTag, legacy);
      ghost var m := byTag;
      ok := ResolveForward();
      if !ok { return; }
      FiledStays(r.(byTag := m), byTag, legacy);
      ChainStays(m, byTag, legacy, top);
      KnownAfter(m, byTag);
      LoadedDependencies(filed, legacy, top, byTag);
    }

    method RegisterAll(files: seq<(Script, bool, int)>)
      requires byTag == map[] && tagSet == {} && untagSet == {} && legacy == map[]
      requires forall i, j :: 0 <= i < j < |files| ==> files[i].0.tag != files[j].0.tag
      modifies this
      ensures Filed() && FiledAs(files, |files|, byTag) && LegacyAs(files, |files|, legacy)
    {
      for i := 0 to |files|
        invariant Filed() && FiledAs(files, i, byTag) && LegacyAs(files, i, legacy)
      {
        LegacyNext(files, i, legacy);
        Register(files[i].0, files[i].1, files[i].2);
      }
    }

    /** The tags a checkpoint of legacy version `version` stands for. */
    method LegacyTags(version: int) returns (ok: bool, tags: set<Tag>)
      ensures ok <==> forall i :: 2 <= i <= version ==> i in legacy
      ensures ok ==> forall t :: t in tags <==> exists i :: 2 <= i <= version && i in legacy && legacy[i] == t
    {
      tags := {};
      var i := 2;
      while i <= version
        invariant 2 <= i && (i > 2 ==> i <= version + 1)
        invariant forall j :: 2 <= j < i ==> j in legacy
        invariant forall t :: t in tags <==> exists j :: 2 <= j < i && j in legacy && legacy[j] == t
      {
        if i !in legacy { return false, tags; }
        tags := tags + {legacy[i]};
        i := i + 1;
      }
      ok := true;
    }

    /** Makes every script that `t` names as depending on it depend on it. */
    method AddForward(t: Tag) returns (known: bool)
      requires t in byTag
      modifies this`byTag
      ensures known <==> forall x :: Names(old(byTag), t, x) ==> x in old(byTag)
      ensures known ==> SameScripts(old(byTag), byTag) && OneAdded(old(byTag), byTag, t, old(byTag[t].fwdDepends))
    {
      ghost var m := byTag;
      var fwd := byTag[t].fwdDepends;
      for k := 0 to |fwd|
        invariant SameScripts(m, byTag) && OneAdded(m, byTag, t, fwd[..k])
        invariant forall j :: 0 <= j < k ==> fwd[j] in m
      {
        var fd := fwd[k];
        if fd !in byTag {
          assert Names(m, t, fd);
          return false;
        }
        AddOne(m, byTag, t, fwd, k);
        byTag := byTag[fd := byTag[fd].(depends := byTag[fd].depends + [t])];
      }
      assert fwd[..|fwd|] == fwd;
      known := true;
    }

    /** Adds the forward dependencies and checks that every dependency names a known script.
        It fails exactly when one does not, whatever the order of iteration. */
    method ResolveForward() returns (ok: bool)
      modifies this`byTag
      ensures ok <==> AllKnown(old(byTag))
      ensures ok ==> SameScripts(old(byTag), byTag) && ForwardAdded(old(byTag), byTag, old(byTag).Keys)
    {
      ghost var m := byTag;
      var rest := byTag.Keys;
      while rest != {}
        invariant rest <= m.Keys && SameScripts(m, byTag) && ForwardAdded(m, byTag, m.Keys - rest)
        invariant forall t :: t in m.Keys - rest ==> Known(m, t)
        decreases rest
      {
        var t :| t in rest;
        ghost var m1, done := byTag, m.Keys - rest;
        var known := AddForward(t);
        if !known {
          return false;
        }
        ForwardNext(m, m1, byTag, done, t);
        assert done + {t} == m.Keys - (rest - {t});
        AuditSees(m, byTag, done + {t}, t);
        if exists d :: d in byTag[t].depends && d !in byTag {
          return false;
        }
        assert Known(m, t);
        rest := rest - {t};
      }
      assert m.Keys - rest == m.Keys;
      ok := true;
    }
  }

  /** `t` was added to the dependencies of exactly the listed scripts. */
  ghost predicate OneAdded(m: map<Tag, Script>, m': map<Tag, Script>, t: Tag, fwd: seq<Tag>) {
    forall x, d :: x in m ==> (DependsOn(m', x, d) <==> DependsOn(m, x, d) || (d == t && x in fwd))
  }

  lemma AddOne(m: map<Tag, Script>, m1: map<Tag, Script>, t: Tag, fwd: seq<Tag>, k: nat)
    requires SameScripts(m, m1) && k < |fwd| && fwd[k] in m && OneAdded(m, m1, t, fwd[..k])
    ensures var m2 := m1[fwd[k] := m1[fwd[k]].(depends := m1[fwd[k]].depends + [t])];
            SameScripts(m, m2) && OneAdded(m, m2, t, fwd[..k + 1])
  {
    var fd := fwd[k];
    var m2 := m1[fd := m1[fd].(depends := m1[fd].depends + [t])];
    assert fwd[..k + 1] == fwd[..k] + [fd];
    forall x, d | x in m ensures DependsOn(m2, x, d) <==> DependsOn(m, x, d) || (d == t && x in fwd[..k + 1]) {
      assert DependsOn(m2, x, d) <==> DependsOn(m1, x, d) || (x == fd && d == t);
    }
  }

  lemma ForwardNext(m: map<Tag, Script>, m1: map<Tag, Script>, m2: map<Tag, Script>, done: set<Tag>, t: Tag)
    requires SameScripts(m, m1) && ForwardAdded(m, m1, done) && t in m
    requires SameScripts(m1, m2) && OneAdded(m1, m2, t, m1[t].fwdDepends)
    ensures SameScripts(m, m2) && ForwardAdded(m, m2, done + {t})
  {
    assert m1[t].fwdDepends == m[t].fwdDepends;
    forall x, d | x in m
      ensures DependsOn(m2, x, d) <==> DependsOn(m, x, d) || (d in done + {t} && Names(m, d, x))
    {
      assert DependsOn(m1, x, d) <==> DependsOn(m, x, d) || (d in done && Names(m, d, x));
      assert DependsOn(m2, x, d) <==> DependsOn(m1, x, d) || (d == t && x in m1[t].fwdDepends);
    }
  }

  /** Forward dependencies name known scripts, so the audit finds the declared ones only. */
  lemma AuditSees(m: map<Tag, Script>, m': map<Tag, Script>, done: set<Tag>, t: Tag)
    requires SameScripts(m, m') && ForwardAdded(m, m', done) && t in m
    ensures (exists d :: d in m'[t].depends && d !in m') <==> (exists d :: DependsOn(m, t, d) && d !in m)
  {
    if exists d :: d in m'[t].depends && d !in m' {
      var d :| d in m'[t].depends && d !in m';
      assert DependsOn(m', t, d);
      assert DependsOn(m, t, d);
    }
    if exists d :: DependsOn(m, t, d) && d !in m {
      var d :| DependsOn(m, t, d) && d !in m;
      assert DependsOn(m', t, d);
    }
  }

  /** Versions 3 up to `top` are all there, each after its predecessor. */
  ghost predicate Versions(legacy: map<int, Tag>, top: int) {
    top >= 3 && (forall i :: 3 <= i < top ==> i in legacy) && (top > 3 ==> 2 in legacy)
  }

  /** The versions still to be looked at. */
  ghost predicate AllAbove(legacy: map<int, Tag>, top: int, above: set<int>) {
    forall i :: i in legacy && i >= top ==> i in above
  }

  lemma AboveNext(legacy: map<int, Tag>, top: int, above: set<int>)
    requires AllAbove(legacy, top, above) && top in legacy
    ensures AllAbove(legacy, top + 1, above - {top}) && top in above
  {
  }

  ghost predicate AllFiled(legacy: map<int, Tag>, m: map<Tag, Script>) {
    forall i :: i in legacy ==> legacy[i] in m
  }

  lemma ChainedNext(m: map<Tag, Script>, legacy: map<int, Tag>, top: int)
    requires Versions(legacy, top) && AllFiled(legacy, m) && top in legacy && top - 1 in legacy
    ensures Versions(legacy, top + 1)
    ensures var m' := Chained(m, legacy, top);
            && legacy[top] in m'
            && Chained(m, legacy, top + 1) == m'[legacy[top] := m'[legacy[top]].(depends := [legacy[top - 1]])]
  {
  }

  /** The scripts with versions 3 up to `top` chained. */
  ghost function Chained(m: map<Tag, Script>, legacy: map<int, Tag>, top: int): map<Tag, Script>
    requires Versions(legacy, top) && forall i :: i in legacy ==> legacy[i] in m
    ensures Chained(m, legacy, top).Keys == m.Keys
    decreases top
  {
    if top == 3 then m
    else
      var m' := Chained(m, legacy, top - 1);
      m'[legacy[top - 1] := m'[legacy[top - 1]].(depends := [legacy[top - 2]])]
  }

  /** Chaining changes dependencies only: version i depends on version i - 1 and nothing
      else, and a script outside the chain is untouched. */
  lemma {:induction false} ChainedFacts(m: map<Tag, Script>, legacy: map<int, Tag>, top: int)
    requires Versions(legacy, top) && forall i :: i in legacy ==> legacy[i] in m
    requires forall i, j :: i in legacy && j in legacy && i != j ==> legacy[i] != legacy[j]
    ensures SameScripts(m, Chained(m, legacy, top))
    ensures forall i :: 3 <= i < top ==> LinkedTo(Chained(m, legacy, top), legacy, i)
    ensures forall t :: t in m && !InChain(legacy, top, t) ==> Chained(m, legacy, top)[t] == m[t]
    decreases top
  {
    if top > 3 {
      ChainedFacts(m, legacy, top - 1);
      var m1, m2 := Chained(m, legacy, top - 1), Chained(m, legacy, top);
      forall i | 3 <= i < top ensures LinkedTo(m2, legacy, i) {
        if i < top - 1 { assert LinkedTo(m1, legacy, i); }
      }
      forall t | t in m && !InChain(legacy, top, t) ensures m2[t] == m[t] {
        assert !InChain(legacy, top - 1, t);
        assert t != legacy[top - 1] by { assert 3 <= top - 1 < top; }
      }
    }
  }

  lemma ChainStays(m: map<Tag, Script>, m': map<Tag, Script>, legacy: map<int, Tag>, top: int)
    requires SameScripts(m, m') && ForwardAdded(m, m', m.Keys)
    requires forall i :: 3 <= i < top ==> LinkedTo(m, legacy, i)
    ensures forall i :: 3 <= i < top ==> ChainedTo(m', legacy, i)
  {
    forall i | 3 <= i < top ensures ChainedTo(m', legacy, i) {
      assert LinkedTo(m, legacy, i);
      assert DependsOn(m, legacy[i], legacy[i - 1]);
      assert DependsOn(m', legacy[i], legacy[i - 1]);
    }
  }

  lemma KnownAfter(m: map<Tag, Script>, m': map<Tag, Script>)
    requires AllKnown(m) && SameScripts(m, m') && ForwardAdded(m, m', m.Keys)
    ensures forall x, d :: DependsOn(m', x, d) ==> d in m'
  {
    forall x, d | DependsOn(m', x, d) ensures d in m' {
      assert DependsOn(m, x, d) || (d in m.Keys && Names(m, d, x));
      assert Known(m, x);
    }
  }

  ghost predicate ComesBefore(legacy: map<int, Tag>, top: int, x: Tag, d: Tag) {
    exists i :: 3 <= i < top && i in legacy && i - 1 in legacy && legacy[i] == x && legacy[i - 1] == d
  }

  /** What every script depends on in the end: the version before it for a chained one, what
      it declares for any other, and in both cases the scripts that name it. */
  ghost predicate LoadedAs(filed: map<Tag, Script>, legacy: map<int, Tag>, top: int, m: map<Tag, Script>) {
    forall x, d :: x in filed ==>
      (DependsOn(m, x, d) <==>
         || Names(filed, d, x)
         || (if InChain(legacy, top, x) then ComesBefore(legacy, top, x, d) else DependsOn(filed, x, d)))
  }

  lemma LoadedDependencies(filed: map<Tag, Script>, legacy: map<int, Tag>, top: int, m: map<Tag, Script>)
    requires Versions(legacy, top) && forall i :: i in legacy ==> legacy[i] in filed
    requires forall i, j :: i in legacy && j in legacy && i != j ==> legacy[i] != legacy[j]
    requires ForwardAdded(Chained(filed, legacy, top), m, filed.Keys)
    ensures LoadedAs(filed, legacy, top, m)
  {
    var c := Chained(filed, legacy, top);
    ChainedFacts(filed, legacy, top);
    forall x, d | x in filed
      ensures DependsOn(c, x, d) <==>
              if InChain(legacy, top, x) then ComesBefore(legacy, top, x, d) else DependsOn(filed, x, d)
    {
      if InChain(legacy, top, x) {
        var i :| 3 <= i < top && i in legacy && legacy[i] == x;
        assert LinkedTo(c, legacy, i);
      }
    }
    forall x, d | x in filed ensures Names(c, d, x) <==> Names(filed, d, x) {
      if d in filed { assert c[d].fwdDepends == filed[d].fwdDepends; }
    }
  }

  ghost predicate ChainedTo(m: map<Tag, Script>, legacy: map<int, Tag>, i: int) {
    i in legacy && i - 1 in legacy && DependsOn(m, legacy[i], legacy[i - 1])
  }

  ghost predicate LinkedTo(m: map<Tag, Script>, legacy: map<int, Tag>, i: int) {
    i in legacy && i - 1 in legacy && legacy[i] in m && m[legacy[i]].depends == [legacy[i - 1]]
  }

  ghost predicate InChain(legacy: map<int, Tag>, top: int, t: Tag) {
    exists i :: 3 <= i < top && i in legacy && legacy[i] == t
  }
}
