/** What stands in a merged checkpoint: every option of every section that is kept, with the
    addresses that lead to the same bytes, and the totals. */
module CheckpointContents {
  import opened CheckpointMerge
  import opened Decimal

  // -------------------------------------------------------------------- section names

  /** The name contains "cpu". */
  lemma {:induction false} HasCpuIff(s: string)
    ensures HasCpu(s) <==> exists a, b :: s == a + "cpu" + b
  {
    if HasCpu(s) {
      if StartsCpu(s) {
        assert s == "" + "cpu" + s[3..];
      } else {
        HasCpuIff(s[1..]);
        var a, b :| s[1..] == a + "cpu" + b;
        assert s == ([s[0]] + a) + "cpu" + b;
      }
    }
    if exists a, b :: s == a + "cpu" + b {
      var a, b :| s == a + "cpu" + b;
      if a == "" {
        assert s[0] == 'c' && s[1] == 'p' && s[2] == 'u';
      } else {
        HasCpuIff(s[1..]);
        assert s[1..] == a[1..] + "cpu" + b;
      }
    }
  }

  /** A name without "cpu" is not changed. */
  lemma {:induction false} RenameNone(s: string, digits: string)
    requires !HasCpu(s)
    ensures Rename(s, digits) == s
  {
    if s != "" { RenameNone(s[1..], digits); }
  }

  /** The number goes behind the first "cpu", and so on in the rest. */
  lemma {:induction false} RenameFirst(a: string, b: string, digits: string)
    requires !HasCpu(a)
    ensures Rename(a + "cpu" + b, digits) == a + "cpu" + digits + Rename(b, digits)
  {
    var s := a + "cpu" + b;
    if a == "" {
      assert s[3..] == b && StartsCpu(s);
    } else {
      assert if |a| == 1 then s[1] == 'c' else if |a| == 2 then s[2] == 'c' else s[..3] == a[..3];
      assert |a| >= 3 ==> s[0] == a[0] && s[1] == a[1] && s[2] == a[2];
      assert s[1..] == a[1..] + "cpu" + b;
      RenameFirst(a[1..], b, digits);
    }
  }

  /** A file-descriptor map is one whose name ends with "workload", any character and
      "FdMap256". */
  lemma FdMapIff(name: string)
    ensures IsFdMap(name) <==> exists a, x :: name == FdMapName(a, x)
  {
    if IsFdMap(name) {
      assert name == FdMapName(name[..|name| - 17], name[|name| - 9]);
    }
    if exists a, x :: name == FdMapName(a, x) {
      var a, x :| name == FdMapName(a, x);
      assert |name| == |a| + 17;
      assert name[|a|..|a| + 8] == "workload" && name[|a| + 9..] == "FdMap256";
    }
  }

  function FdMapName(a: string, x: char): string {
    a + "workload" + [x] + "FdMap256"
  }

  // ----------------------------------------------------------------- options of a section

  /** The option that checkpoint `i`, with `base` pages before it, has at place `j`: an
      address is moved by the pages before, anything else is the same. */
  ghost predicate Carries(items: seq<(string, Value)>, out: seq<(string, Value)>, base: nat, j: nat) {
    && j < |items| && j < |out| && out[j].0 == items[j].0
    && (if items[j].0 == "paddr" && items[j].1.Num? then out[j].1 == Num(items[j].1.n + 4096 * base)
        else out[j].1 == items[j].1)
  }

  /** All options are carried over; a file-descriptor map has process number `i`, and nothing
      else is added. */
  ghost predicate CarriesAll(s: Section, out: Section, base: nat, i: nat) {
    && (forall j: nat :: j < |s.items| && !(IsFdMap(s.name) && s.items[j].0 == "M5_pid") ==>
          Carries(s.items, out.items, base, j))
    && (IsFdMap(s.name) ==> ("M5_pid", Num(i)) in out.items)
    && (forall x :: x in out.items ==>
          || (IsFdMap(s.name) && x == ("M5_pid", Num(i)))
          || exists j: nat :: Carries(s.items, out.items, base, j) && out.items[j] == x)
  }

  lemma {:induction false} SetItemFacts(items: seq<(string, Value)>, key: string, v: Value)
    ensures var out := SetItem(items, key, v);
            && |out| >= |items| && (key, v) in out
            && (forall j :: 0 <= j < |items| ==> out[j] == items[j] || (items[j].0 == key && out[j] == (key, v)))
            && (forall j :: |items| <= j < |out| ==> out[j] == (key, v))
  {
    if items != [] && items[0].0 != key {
      SetItemFacts(items[1..], key, v);
      var rest := SetItem(items[1..], key, v);
      var out := SetItem(items, key, v);
      assert out == [items[0]] + rest;
      assert (key, v) in rest ==> (key, v) in out;
      forall j | 0 <= j < |items| ensures out[j] == items[j] || (items[j].0 == key && out[j] == (key, v)) {
        if j > 0 { assert out[j] == rest[j - 1] && items[j] == items[1..][j - 1]; }
      }
    } else if items != [] {
      assert SetItem(items, key, v)[0] == (key, v);
    } else {
      assert SetItem(items, key, v)[0] == (key, v);
    }
  }

  lemma MovedCarries(items: seq<(string, Value)>, base: nat, j: nat)
    requires j < |items|
    ensures Carries(items, Moved(items, base), base, j)
  {
  }

  lemma PidCarries(s: Section, base: nat, i: nat)
    requires IsFdMap(s.name)
    ensures CarriesAll(s, Section(s.name, SetItem(Moved(s.items, base), "M5_pid", Num(i))), base, i)
  {
    var moved := Moved(s.items, base);
    var out := SetItem(moved, "M5_pid", Num(i));
    SetItemFacts(moved, "M5_pid", Num(i));
    forall j: nat | j < |s.items| ensures out[j] == ("M5_pid", Num(i)) || Carries(s.items, out, base, j) {
      MovedCarries(s.items, base, j);
    }
    forall x | x in out
      ensures x == ("M5_pid", Num(i)) || exists j: nat :: Carries(s.items, out, base, j) && out[j] == x
    {
      var j :| 0 <= j < |out| && out[j] == x;
      if j < |s.items| && x != ("M5_pid", Num(i)) { assert Carries(s.items, out, base, j); }
    }
  }

  lemma PlainCarries(s: Section, base: nat, i: nat)
    requires !IsFdMap(s.name)
    ensures CarriesAll(s, Section(s.name, Moved(s.items, base)), base, i)
  {
    var out := Moved(s.items, base);
    forall j: nat | j < |s.items| ensures Carries(s.items, out, base, j) { MovedCarries(s.items, base, j); }
    forall x | x in out ensures exists j: nat :: Carries(s.items, out, base, j) && out[j] == x {
      var j :| 0 <= j < |out| && out[j] == x;
      assert Carries(s.items, out, base, j);
    }
  }

  // ------------------------------------------------------------------- sections that stay

  /** `out` is the merged form of section `s` of checkpoint `i`. */
  ghost predicate Stands(cpts: seq<Checkpoint>, i: nat, s: Section, out: Section)
    requires i < |cpts|
  {
    if HasCpu(s.name) then out.name == NewName(s.name, i, |cpts|) && CarriesAll(s, out, Base(cpts, i), i)
    else i == |cpts| - 1 && s.name != "system" && s.name != "Globals" && out == s
  }

  /** The section has a merged form. */
  ghost predicate Stays(cpts: seq<Checkpoint>, i: nat, s: Section)
    requires i < |cpts|
  {
    HasCpu(s.name) || (i == |cpts| - 1 && s.name != "system" && s.name != "Globals")
  }

  lemma RenamedCarries(s: Section, t: Section, name: string, base: nat, i: nat)
    requires CarriesAll(s, t, base, i)
    ensures CarriesAll(s, Section(name, t.items), base, i)
  {
  }

  lemma OneStands(cpts: seq<Checkpoint>, i: nat, s: Section)
    requires i < |cpts| && HasCpu(s.name)
    ensures Stands(cpts, i, s, Section(NewName(s.name, i, |cpts|), WithPid(s.name, Moved(s.items, Base(cpts, i)), i)))
  {
    var items := WithPid(s.name, Moved(s.items, Base(cpts, i)), i);
    if IsFdMap(s.name) { PidCarries(s, Base(cpts, i), i); } else { PlainCarries(s, Base(cpts, i), i); }
    RenamedCarries(s, Section(s.name, items), NewName(s.name, i, |cpts|), Base(cpts, i), i);
  }

  /** The merged form of the last section, or nothing. */
  ghost predicate Adds(stands: iset<(Section, Section)>, stays: iset<Section>, s: Section,
                       a: seq<Section>, all: seq<Section>) {
    if s in stays then |all| == |a| + 1 && all[..|a|] == a && (s, all[|a|]) in stands else all == a
  }

  lemma ContributionNext(cpts: seq<Checkpoint>, i: nat, sections: seq<Section>)
    requires i < |cpts| && sections != []
    ensures Adds(Forms(cpts, i), Staying(cpts, i), sections[|sections| - 1],
                 Contribution(cpts, i, sections[..|sections| - 1]), Contribution(cpts, i, sections))
  {
    var s := sections[|sections| - 1];
    if HasCpu(s.name) { OneStands(cpts, i, s); }
  }

  ghost function Forms(cpts: seq<Checkpoint>, i: nat): iset<(Section, Section)>
    requires i < |cpts|
  {
    iset s, out | Stands(cpts, i, s, out) :: (s, out)
  }

  ghost function Staying(cpts: seq<Checkpoint>, i: nat): iset<Section>
    requires i < |cpts|
  {
    iset s | Stays(cpts, i, s)
  }

  /** `s` has its merged form in `out`. */
  ghost predicate Present(stands: iset<(Section, Section)>, s: Section, out: seq<Section>) {
    exists x :: x in out && (s, x) in stands
  }

  /** `x` is the merged form of one of the sections. */
  ghost predicate Explained(stands: iset<(Section, Section)>, sections: seq<Section>, x: Section) {
    exists s :: s in sections && (s, x) in stands
  }

  /** The merged forms of the sections that stay, and nothing else. */
  ghost predicate Listed(stands: iset<(Section, Section)>, stays: iset<Section>,
                         sections: seq<Section>, out: seq<Section>) {
    && (forall s :: s in sections && s in stays ==> Present(stands, s, out))
    && (forall x :: x in out ==> Explained(stands, sections, x))
  }

  lemma ListedNext(stands: iset<(Section, Section)>, stays: iset<Section>,
                   sections: seq<Section>, a: seq<Section>, all: seq<Section>)
    requires sections != [] && Listed(stands, stays, sections[..|sections| - 1], a)
    requires Adds(stands, stays, sections[|sections| - 1], a, all)
    ensures Listed(stands, stays, sections, all)
  {
    var front, last := sections[..|sections| - 1], sections[|sections| - 1];
    assert sections == front + [last];
    assert last in stays ==> all == a + [all[|a|]];
    forall s | s in sections && s in stays ensures Present(stands, s, all) {
      if s in front {
        var x :| x in a && (s, x) in stands;
        assert x in all;
      } else {
        assert all[|a|] in all;
      }
    }
    forall x | x in all ensures Explained(stands, sections, x) {
      if x in a {
        var s :| s in front && (s, x) in stands;
        assert s in sections;
      } else {
        assert last in sections;
      }
    }
  }

  lemma {:induction false} ContributionListed(cpts: seq<Checkpoint>, i: nat, sections: seq<Section>)
    requires i < |cpts|
    ensures Listed(Forms(cpts, i), Staying(cpts, i), sections, Contribution(cpts, i, sections))
  {
    if sections != [] {
      var front := sections[..|sections| - 1];
      ContributionListed(cpts, i, front);
      ContributionNext(cpts, i, sections);
      ListedNext(Forms(cpts, i), Staying(cpts, i), sections,
                 Contribution(cpts, i, front), Contribution(cpts, i, sections));
    }
  }

  lemma PresentMore(stands: iset<(Section, Section)>, s: Section, a: seq<Section>, b: seq<Section>)
    requires Present(stands, s, a) || Present(stands, s, b)
    ensures Present(stands, s, a + b)
  {
    var x :| (x in a || x in b) && (s, x) in stands;
    assert x in a + b;
  }

  lemma {:induction false} OwnPresent(cpts: seq<Checkpoint>, i: nat, s: Section)
    requires i < |cpts| && s in cpts[i].sections && Stays(cpts, i, s)
    ensures Present(Forms(cpts, i), s, Contribution(cpts, i, cpts[i].sections))
  {
    ContributionListed(cpts, i, cpts[i].sections);
    assert s in Staying(cpts, i);
  }

  lemma {:induction false} MergedPresent(cpts: seq<Checkpoint>, n: nat, i: nat, s: Section,
                                         stands: iset<(Section, Section)>)
    requires i < n <= |cpts| && Present(stands, s, Contribution(cpts, i, cpts[i].sections))
    ensures Present(stands, s, Merged(cpts, n))
    decreases n
  {
    if i < n - 1 { MergedPresent(cpts, n - 1, i, s, stands); }
    PresentMore(stands, s, Merged(cpts, n - 1), Contribution(cpts, n - 1, cpts[n - 1].sections));
  }

  lemma {:induction false} MergedExplained(cpts: seq<Checkpoint>, n: nat, x: Section) returns (i: nat)
    requires n <= |cpts| && x in Merged(cpts, n)
    ensures i < n && Explained(Forms(cpts, i), cpts[i].sections, x)
  {
    if x in Merged(cpts, n - 1) {
      i := MergedExplained(cpts, n - 1, x);
    } else {
      i := n - 1;
      ContributionListed(cpts, i, cpts[i].sections);
    }
  }

  // ------------------------------------------------------------------- the merged file

  /** One section has its options set to the totals; every other one is untouched. */
  lemma {:induction false} SetInFacts(sections: seq<Section>, name: string, key: string, v: Value)
    ensures var out := SetIn(sections, name, key, v);
            && |out| == |sections|
            && (forall k :: 0 <= k < |out| ==> out[k].name == sections[k].name)
            && (forall k :: 0 <= k < |out| && sections[k].name != name ==> out[k] == sections[k])
            && (HasName(sections, name) ==>
                  exists k :: 0 <= k < |out| && out[k] == Section(name, SetItem(sections[k].items, key, v)))
  {
    if sections != [] && sections[0].name != name {
      SetInFacts(sections[1..], name, key, v);
      var rest, out := SetIn(sections[1..], name, key, v), SetIn(sections, name, key, v);
      assert out == [sections[0]] + rest;
      if HasName(sections, name) {
        var j :| 0 <= j < |sections| && sections[j].name == name;
        assert sections[1..][j - 1].name == name;
        var k :| 0 <= k < |rest| && rest[k] == Section(name, SetItem(sections[1..][k].items, key, v));
        assert out[k + 1] == Section(name, SetItem(sections[k + 1].items, key, v));
      }
    } else if sections != [] {
      assert SetIn(sections, name, key, v)[0] == Section(name, SetItem(sections[0].items, key, v));
    }
  }

  lemma {:induction false} LastIsWritten(cpts: seq<Checkpoint>, memorySize: int, range: int, x: Section)
    requires cpts != [] && range == (Base(cpts, |cpts|) + Padding(Base(cpts, |cpts|), memorySize)) * PAGE
    requires x in SetIn(LastConfig(cpts), STORE, "range_size", Num(range))
    ensures x in Result(cpts, memorySize).sections
  {
  }

  lemma {:induction false} LastIsKept(cpts: seq<Checkpoint>, memorySize: int, x: Section)
    requires cpts != [] && x in LastConfig(cpts) && x.name != STORE
    ensures x in Result(cpts, memorySize).sections
  {
    var range := (Base(cpts, |cpts|) + Padding(Base(cpts, |cpts|), memorySize)) * PAGE;
    OthersUntouched(LastConfig(cpts), Num(range), x);
    LastIsWritten(cpts, memorySize, range, x);
  }

  lemma OthersUntouched(sections: seq<Section>, size: Value, x: Section)
    requires x in sections && x.name != STORE
    ensures x in SetIn(sections, STORE, "range_size", size)
  {
    SetInFacts(sections, STORE, "range_size", size);
    var k :| 0 <= k < |sections| && sections[k] == x;
    assert SetIn(sections, STORE, "range_size", size)[k] == x;
  }

  lemma {:induction false} EarlierIsKept(cpts: seq<Checkpoint>, memorySize: int, x: Section)
    requires cpts != [] && x in Merged(cpts, |cpts| - 1)
    ensures x in Result(cpts, memorySize).sections
  {
  }

  lemma CpuIsNotStore(name: string)
    requires HasCpu(name)
    ensures name != STORE
  {
    CpuHasC(name);
    assert 'c' !in STORE;
  }

  lemma {:induction false} FormIsNotStore(cpts: seq<Checkpoint>, i: nat, s: Section, x: Section)
    requires i < |cpts| && Stands(cpts, i, s, x) && s.name != STORE
    ensures x.name != STORE
  {
    if HasCpu(s.name) {
      RenamedHasCpu(s.name, Number(i, |cpts|));
      CpuIsNotStore(x.name);
    }
  }

  /** Every cpu section of every checkpoint, and every other section of the last one, stands
      in the merged file with all its options. The section of the memory store is told below. */
  lemma {:induction false} SectionsStay(cpts: seq<Checkpoint>, memorySize: int, i: nat, s: Section)
    requires i < |cpts| && s in cpts[i].sections && Stays(cpts, i, s) && s.name != STORE
    ensures exists x :: x in Result(cpts, memorySize).sections && Stands(cpts, i, s, x)
  {
    OwnPresent(cpts, i, s);
    if i < |cpts| - 1 {
      MergedPresent(cpts, |cpts| - 1, i, s, Forms(cpts, i));
      var x :| x in Merged(cpts, |cpts| - 1) && (s, x) in Forms(cpts, i);
      EarlierIsKept(cpts, memorySize, x);
    } else {
      var x :| x in LastConfig(cpts) && (s, x) in Forms(cpts, i);
      FormIsNotStore(cpts, i, s, x);
      LastIsKept(cpts, memorySize, x);
    }
  }

  /** The address leads to this byte. */
  ghost predicate LeadsTo(image: Image, name: string, a: int, byte: char) {
    && 0 <= a < |image.mem| && image.mem[a] == byte
    && exists x :: x in image.sections && x.name == name && ("paddr", Num(a)) in x.items
  }

  /** Every address in a cpu section of a checkpoint, if the byte is there, is an address in
      the section with the new name that leads to the same byte of the merged memory, provided
      the stores before are full. */
  lemma {:induction false} AddressesFollow(cpts: seq<Checkpoint>, memorySize: int, i: nat, s: Section, p: nat)
    requires i < |cpts| && s in cpts[i].sections && HasCpu(s.name) && ("paddr", Num(p)) in s.items
    requires p < |cpts[i].image| && p < cpts[i].pages * PAGE && AllFull(cpts, i)
    ensures exists a ::
              LeadsTo(Result(cpts, memorySize), NewName(s.name, i, |cpts|), a, cpts[i].image[p])
  {
    var x := CpuForm(cpts, memorySize, i, s);
    CarriedAddress(s, x, Base(cpts, i), i, p);
    ByteStays(cpts, memorySize, i, p);
    FormLeads(Result(cpts, memorySize), x, p + 4096 * Base(cpts, i), cpts[i].image[p]);
  }

  lemma {:induction false} CpuForm(cpts: seq<Checkpoint>, memorySize: int, i: nat, s: Section) returns (x: Section)
    requires i < |cpts| && s in cpts[i].sections && HasCpu(s.name)
    ensures x in Result(cpts, memorySize).sections
    ensures x.name == NewName(s.name, i, |cpts|) && CarriesAll(s, x, Base(cpts, i), i)
  {
    CpuIsNotStore(s.name);
    SectionsStay(cpts, memorySize, i, s);
    x :| x in Result(cpts, memorySize).sections && Stands(cpts, i, s, x);
  }

  lemma {:induction false} ByteStays(cpts: seq<Checkpoint>, memorySize: int, i: nat, p: nat)
    requires i < |cpts| && p < |cpts[i].image| && p < cpts[i].pages * PAGE && AllFull(cpts, i)
    ensures var mem, a := Result(cpts, memorySize).mem, p + 4096 * Base(cpts, i);
            a < |mem| && mem[a] == cpts[i].image[p]
  {
    ReadsArePreserved(cpts, i, p, Padding(Base(cpts, |cpts|), memorySize));
  }

  lemma FormLeads(image: Image, x: Section, a: int, byte: char)
    requires x in image.sections && ("paddr", Num(a)) in x.items && 0 <= a < |image.mem| && image.mem[a] == byte
    ensures LeadsTo(image, x.name, a, byte)
  {
  }

  lemma CarriedAddress(s: Section, x: Section, base: nat, i: nat, p: int)
    requires CarriesAll(s, x, base, i) && ("paddr", Num(p)) in s.items
    ensures ("paddr", Num(p + 4096 * base)) in x.items
  {
    var j :| 0 <= j < |s.items| && s.items[j] == ("paddr", Num(p));
    assert "paddr"[0] == 'p' && "M5_pid"[0] == 'M';
    assert Carries(s.items, x.items, base, j);
    assert x.items[j] in x.items;
  }

  lemma {:induction false} LastExplained(cpts: seq<Checkpoint>, size: Value, x: Section)
    requires cpts != [] && x in SetIn(LastConfig(cpts), STORE, "range_size", size) && x.name != STORE
    ensures Explained(Forms(cpts, |cpts| - 1), cpts[|cpts| - 1].sections, x)
  {
    OnlyStoreChanges(LastConfig(cpts), size, x);
    ContributionListed(cpts, |cpts| - 1, cpts[|cpts| - 1].sections);
  }

  lemma OnlyStoreChanges(sections: seq<Section>, size: Value, x: Section)
    requires x in SetIn(sections, STORE, "range_size", size) && x.name != STORE
    ensures x in sections
  {
    SetInFacts(sections, STORE, "range_size", size);
    var out := SetIn(sections, STORE, "range_size", size);
    var k :| 0 <= k < |out| && out[k] == x;
    assert sections[k] == x;
  }

  lemma {:induction false} WrittenParts(cpts: seq<Checkpoint>, memorySize: int, x: Section, size: Value)
    requires cpts != [] && x in Result(cpts, memorySize).sections
    requires size == Num((Base(cpts, |cpts|) + Padding(Base(cpts, |cpts|), memorySize)) * PAGE)
    ensures || x.name == "system" || x.name == "Globals"
            || x in Merged(cpts, |cpts| - 1) || x in SetIn(LastConfig(cpts), STORE, "range_size", size)
  {
  }

  /** Nothing else is written: the totals, the section of the memory store, and merged forms. */
  lemma {:induction false} NothingElse(cpts: seq<Checkpoint>, memorySize: int, x: Section)
    requires cpts != [] && x in Result(cpts, memorySize).sections
    ensures || x.name == "system" || x.name == "Globals" || x.name == STORE
            || exists i: nat :: i < |cpts| && Explained(Forms(cpts, i), cpts[i].sections, x)
  {
    var size := Num((Base(cpts, |cpts|) + Padding(Base(cpts, |cpts|), memorySize)) * PAGE);
    WrittenParts(cpts, memorySize, x, size);
    if x in Merged(cpts, |cpts| - 1) {
      var i := MergedExplained(cpts, |cpts| - 1, x);
    } else if x.name != "system" && x.name != "Globals" && x.name != STORE {
      LastExplained(cpts, size, x);
    }
  }

  // ------------------------------------------------------------------------ the totals

  /** The latest tick, or 0 if all are earlier. */
  ghost predicate IsLatest(cpts: seq<Checkpoint>, n: nat, tick: int)
    requires n <= |cpts|
  {
    && tick >= 0 && (forall i :: 0 <= i < n ==> cpts[i].curTick <= tick)
    && (tick == 0 || exists i :: 0 <= i < n && cpts[i].curTick == tick)
  }

  lemma {:induction false} MaxTickIs(cpts: seq<Checkpoint>, n: nat)
    requires n <= |cpts|
    ensures IsLatest(cpts, n, MaxTick(cpts, n))
  {
    if n > 0 { MaxTickIs(cpts, n - 1); }
  }

  /** The fewest pages that reach the size. */
  lemma {:induction false} PaddingIs(pages: nat, size: int)
    ensures var pad := Padding(pages, size);
            && (pages + pad) * PAGE >= size
            && (pad > 0 ==> (pages + pad - 1) * PAGE < size)
    decreases size - pages * PAGE
  {
    if pages * PAGE < size { PaddingIs(pages + 1, size); }
  }

  /** What the memory store is told: the fewest whole pages that hold everything and reach the
      requested size, which is the size of the memory unless a store was short. */
  ghost predicate RangeRight(cpts: seq<Checkpoint>, memorySize: int, mem: string, range: nat) {
    && range % PAGE == 0 && range >= memorySize && range >= Base(cpts, |cpts|) * PAGE
    && (range > Base(cpts, |cpts|) * PAGE ==> range - PAGE < memorySize)
    && (|mem| == range <==> AllFull(cpts, |cpts|))
  }

  lemma {:induction false} RangeIsRight(cpts: seq<Checkpoint>, memorySize: int)
    requires cpts != []
    ensures RangeRight(cpts, memorySize, Result(cpts, memorySize).mem,
                       (Base(cpts, |cpts|) + Padding(Base(cpts, |cpts|), memorySize)) * PAGE)
  {
    PaddingIs(Base(cpts, |cpts|), memorySize);
    RangeSizeIff(cpts, Padding(Base(cpts, |cpts|), memorySize));
  }

  lemma StoreIsTold(sections: seq<Section>, range: int)
    requires HasName(sections, STORE)
    ensures exists x :: x in SetIn(sections, STORE, "range_size", Num(range))
                        && x.name == STORE && ("range_size", Num(range)) in x.items
  {
    SetInFacts(sections, STORE, "range_size", Num(range));
    var out := SetIn(sections, STORE, "range_size", Num(range));
    var k :| 0 <= k < |out| && out[k] == Section(STORE, SetItem(sections[k].items, "range_size", Num(range)));
    SetItemFacts(sections[k].items, "range_size", Num(range));
    assert out[k] in out;
  }

  /** The memory store is told the range. */
  lemma {:induction false} RangeIsTold(cpts: seq<Checkpoint>, memorySize: int) returns (range: nat, x: Section)
    requires cpts != [] && HasName(LastConfig(cpts), STORE)
    ensures RangeRight(cpts, memorySize, Result(cpts, memorySize).mem, range)
    ensures x in Result(cpts, memorySize).sections && x.name == STORE && ("range_size", Num(range)) in x.items
  {
    var last := LastConfig(cpts);
    range := (Base(cpts, |cpts|) + Padding(Base(cpts, |cpts|), memorySize)) * PAGE;
    RangeIsRight(cpts, memorySize);
    StoreIsTold(last, range);
    x :| x in SetIn(last, STORE, "range_size", Num(range)) && x.name == STORE && ("range_size", Num(range)) in x.items;
    LastIsWritten(cpts, memorySize, range, x);
  }

  /** The totals: all pages, the number of processes and the latest tick. */
  lemma {:induction false} TotalsAreRight(cpts: seq<Checkpoint>, memorySize: int) returns (tick: int)
    requires cpts != []
    ensures IsLatest(cpts, |cpts|, tick)
    ensures var sections := Result(cpts, memorySize).sections;
            && Section("system", [("pagePtr", Num(Base(cpts, |cpts|))), ("nextPID", Num(|cpts|))]) in sections
            && Section("Globals", [("curTick", Num(tick))]) in sections
  {
    tick := MaxTick(cpts, |cpts|);
    MaxTickIs(cpts, |cpts|);
  }
}
