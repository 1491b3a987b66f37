/** Merging checkpoints in gem5/util/checkpoint_aggregator.py: the memory pages of all
    checkpoints are laid out one after the other, physical addresses are moved by the pages
    before them, and the sections of each cpu get the number of their checkpoint. */
module CheckpointMerge {
  import opened Decimal
  import opened Wrappers

  // --------------------------------------------------------------- renaming sections

  const CPU: string := "cpu"

  predicate StartsCpu(s: string) {
    |s| >= 3 && s[0] == 'c' && s[1] == 'p' && s[2] == 'u'
  }

  predicate HasCpu(s: string) {
    s != [] && (StartsCpu(s) || HasCpu(s[1..]))
  }

  /** Puts `digits` behind every "cpu", as the substitution does. */
  function Rename(s: string, digits: string): string {
    if s == [] then []
    else if StartsCpu(s) then CPU + digits + Rename(s[3..], digits)
    else [s[0]] + Rename(s[1..], digits)
  }

  /** The start of a renamed string is that of the original, up to and including a "cpu". */
  lemma {:induction false} RenameStart(s: string, digits: string)
    ensures s == [] <==> Rename(s, digits) == []
    ensures |s| >= 1 ==> |Rename(s, digits)| >= 1 && Rename(s, digits)[0] == s[0]
    ensures |s| == 1 ==> |Rename(s, digits)| == 1
    ensures |s| >= 2 ==> |Rename(s, digits)| >= 2 && Rename(s, digits)[1] == s[1]
  {
    if s != [] && !StartsCpu(s) {
      RenameStart(s[1..], digits);
    }
  }

  lemma RenameStartsCpu(s: string, digits: string)
    ensures StartsCpu(Rename(s, digits)) <==> StartsCpu(s)
  {
    if s != [] && !StartsCpu(s) {
      RenameStart(s[1..], digits);
      assert Rename(s, digits)[1..] == Rename(s[1..], digits);
    }
  }

  /** Two renamed cpu sections are equal only if both the digits and the sections are. */
  lemma {:induction false} RenameInjective(s: string, d: string, t: string, e: string)
    requires |d| == |e| && HasCpu(s) && Rename(s, d) == Rename(t, e)
    ensures d == e && s == t
    decreases |s|
  {
    RenameStartsCpu(s, d);
    RenameStartsCpu(t, e);
    RenameStart(t, e);
    if StartsCpu(s) {
      assert Rename(s, d)[3..3 + |d|] == d && Rename(t, e)[3..3 + |e|] == e;
      assert Rename(s, d)[3 + |d|..] == Rename(s[3..], d) && Rename(t, e)[3 + |e|..] == Rename(t[3..], e);
      RenameSame(s[3..], t[3..], d);
      assert s == CPU + s[3..] && t == CPU + t[3..];
    } else {
      assert Rename(s, d)[1..] == Rename(s[1..], d) && Rename(t, e)[1..] == Rename(t[1..], e);
      RenameInjective(s[1..], d, t[1..], e);
      assert s == [s[0]] + s[1..] && t == [t[0]] + t[1..];
    }
  }

  lemma {:induction false} RenameSame(s: string, t: string, d: string)
    requires Rename(s, d) == Rename(t, d)
    ensures s == t
    decreases |s|
  {
    RenameStartsCpu(s, d);
    RenameStartsCpu(t, d);
    RenameStart(s, d);
    RenameStart(t, d);
    if s == [] {
    } else if StartsCpu(s) {
      assert Rename(s, d)[3 + |d|..] == Rename(s[3..], d) && Rename(t, d)[3 + |d|..] == Rename(t[3..], d);
      RenameSame(s[3..], t[3..], d);
      assert s == CPU + s[3..] && t == CPU + t[3..];
    } else {
      assert Rename(s, d)[1..] == Rename(s[1..], d) && Rename(t, d)[1..] == Rename(t[1..], d);
      RenameSame(s[1..], t[1..], d);
      assert s == [s[0]] + s[1..] && t == [t[0]] + t[1..];
    }
  }

  /** The number of checkpoint `i` among `n`, zero-filled to the width of the largest. */
  function Number(i: nat, n: nat): string
    requires i < n
  {
    ZFill(Str(i), |Str(n - 1)|)
  }

  function NewName(s: string, i: nat, n: nat): string
    requires i < n
  {
    Rename(s, Number(i, n))
  }

  lemma NumberFacts(i: nat, n: nat)
    requires i < n
    ensures |Number(i, n)| == |Str(n - 1)|
    ensures IsNumeral(Number(i, n)) && Val(Number(i, n)) == i
  {
    StrLength(i, n - 1);
    ValStr(i);
    ZFillFacts(Str(i), |Str(n - 1)|);
  }

  /** Renamed cpu sections never collide, neither across checkpoints nor within one. */
  lemma NamesNeverCollide(n: nat, i: nat, s: string, j: nat, t: string)
    requires i < n && j < n && HasCpu(s) && HasCpu(t) && NewName(s, i, n) == NewName(t, j, n)
    ensures i == j && s == t
  {
    NumberFacts(i, n);
    NumberFacts(j, n);
    RenameInjective(s, Number(i, n), t, Number(j, n));
  }

  /** The fixed width is what prevents it: unpadded numbers collide. */
  lemma UnpaddedNamesCollide()
    ensures Rename("cpu0", "1") == Rename("cpu", "10")
  {
    assert "cpu0"[3..] == "0" && "0"[1..] == "" && "cpu"[3..] == "";
    assert Rename("0", "1") == "0";
  }

  // --------------------------------------------------------------------- checkpoints

  const PAGE: nat := 4096

  datatype Value = Num(n: int) | Text(s: string)

  datatype Section = Section(name: string, items: seq<(string, Value)>)

  /** A checkpoint: the number of pages in use, the memory store, the configuration and the
      tick it was taken at. */
  datatype Checkpoint = Checkpoint(pages: nat, image: string, sections: seq<Section>, curTick: int)

  /** The store holds at least the pages in use. */
  predicate Full(c: Checkpoint) {
    |c.image| >= c.pages * PAGE
  }

  function Take(s: string, n: nat): string {
    if |s| <= n then s else s[..n]
  }

  /** Pages of the checkpoints before the i-th. */
  function Base(cpts: seq<Checkpoint>, i: nat): nat
    requires i <= |cpts|
  {
    if i == 0 then 0 else Base(cpts, i - 1) + cpts[i - 1].pages
  }

  /** The copied pages of the first `i` checkpoints. */
  function Layout(cpts: seq<Checkpoint>, i: nat): string
    requires i <= |cpts|
  {
    if i == 0 then [] else Layout(cpts, i - 1) + Take(cpts[i - 1].image, cpts[i - 1].pages * PAGE)
  }

  // ------------------------------------------------------------------ address relocation

  /** The options of a cpu section in the merged configuration: a physical address moves by
      the pages before the checkpoint. */
  function Moved(items: seq<(string, Value)>, base: nat): seq<(string, Value)> {
    seq(|items|, k requires 0 <= k < |items| => (items[k].0, MovedValue(items[k].0, items[k].1, base)))
  }

  function MovedValue(key: string, v: Value, base: nat): Value {
    if key == "paddr" && v.Num? then Num(v.n + base * PAGE) else v
  }

  /** Sets an option, in place if it is there already. */
  function SetItem(items: seq<(string, Value)>, key: string, v: Value): seq<(string, Value)> {
    if items == [] then [(key, v)]
    else if items[0].0 == key then [(key, v)] + items[1..]
    else [items[0]] + SetItem(items[1..], key, v)
  }

  /** The name of a file-descriptor map: it ends with "workload", one character and
      "FdMap256". */
  predicate IsFdMap(name: string) {
    |name| >= 17 && name[|name| - 17..|name| - 9] == "workload" && name[|name| - 8..] == "FdMap256"
  }

  /** A file-descriptor map is told which process it now belongs to. */
  function WithPid(name: string, items: seq<(string, Value)>, i: nat): seq<(string, Value)> {
    if IsFdMap(name) then SetItem(items, "M5_pid", Num(i)) else items
  }

  /** The sections checkpoint `i` contributes: its cpu sections under their new names; of the
      rest only the last checkpoint's, without "system" and "Globals". */
  function Contribution(cpts: seq<Checkpoint>, i: nat, sections: seq<Section>): seq<Section>
    requires i < |cpts|
  {
    if sections == [] then []
    else
      var s := sections[|sections| - 1];
      Contribution(cpts, i, sections[..|sections| - 1])
      + if HasCpu(s.name) then
          [Section(NewName(s.name, i, |cpts|), WithPid(s.name, Moved(s.items, Base(cpts, i)), i))]
        else if s.name == "system" || s.name == "Globals" then []
        else if i == |cpts| - 1 then [s] else []
  }

  function Merged(cpts: seq<Checkpoint>, i: nat): seq<Section>
    requires i <= |cpts|
  {
    if i == 0 then [] else Merged(cpts, i - 1) + Contribution(cpts, i - 1, cpts[i - 1].sections)
  }

  method MergeSections(cpts: seq<Checkpoint>, i: nat, pagePtr: nat) returns (out: seq<Section>)
    requires i < |cpts| && pagePtr == Base(cpts, i)
    ensures out == Contribution(cpts, i, cpts[i].sections)
  {
    out := [];
    var sections := cpts[i].sections;
    for k := 0 to |sections|
      invariant out == Contribution(cpts, i, sections[..k])
    {
      var s := sections[k];
      assert sections[..k + 1][..k] == sections[..k];
      if HasCpu(s.name) {
        var items: seq<(string, Value)> := [];
        for j := 0 to |s.items|
          invariant items == Moved(s.items, pagePtr)[..j]
        {
          items := items + [(s.items[j].0, MovedValue(s.items[j].0, s.items[j].1, pagePtr))];
        }
        assert items == Moved(s.items, pagePtr);
        if IsFdMap(s.name) {
          items := SetItem(items, "M5_pid", Num(i));
        }
        out := out + [Section(NewName(s.name, i, |cpts|), items)];
      } else if s.name == "system" || s.name == "Globals" {
      } else if i == |cpts| - 1 {
        out := out + [s];
      }
    }
    assert sections[..|sections|] == sections;
  }

  // ------------------------------------------------------------------------ memory

  /** Copies page by page; a store that ends early yields what it has. */
  method CopyPages(image: string, pages: nat) returns (out: string)
    ensures out == Take(image, pages * PAGE)
  {
    out := [];
    var x := 0;
    while x < pages
      invariant x <= pages && out == Take(image, x * PAGE)
    {
      var from := x * PAGE;
      var bytes := if from >= |image| then [] else Take(image[from..], PAGE);
      TakeMore(image, from);
      out := out + bytes;
      x := x + 1;
    }
  }

  lemma TakeMore(image: string, from: nat)
    ensures Take(image, from) + (if from >= |image| then [] else Take(image[from..], PAGE)) == Take(image, from + PAGE)
  {
    if from < |image| <= from + PAGE {
      assert image[..from] + image[from..] == image;
    } else if from + PAGE < |image| {
      assert image[..from] + image[from..][..PAGE] == image[..from + PAGE];
    }
  }

  /** The merged memory and the merged configuration. */
  datatype Image = Image(mem: string, sections: seq<Section>)

  function MaxTick(cpts: seq<Checkpoint>, i: nat): int
    requires i <= |cpts|
  {
    if i == 0 then 0 else
      var before := MaxTick(cpts, i - 1);
      if cpts[i - 1].curTick > before then cpts[i - 1].curTick else before
  }

  /** The number of pages needed to reach `size` bytes from `pages` pages. */
  function Padding(pages: nat, size: int): nat
    decreases size - pages * PAGE
  {
    if pages * PAGE >= size then 0 else 1 + Padding(pages + 1, size)
  }

  const STORE: string := "system.physmem.store0"

  ghost predicate HasName(sections: seq<Section>, name: string) {
    exists k :: 0 <= k < |sections| && sections[k].name == name
  }

  /** Sets an option of the named section. */
  function SetIn(sections: seq<Section>, name: string, key: string, v: Value): seq<Section> {
    if sections == [] then []
    else if sections[0].name == name then [Section(name, SetItem(sections[0].items, key, v))] + sections[1..]
    else [sections[0]] + SetIn(sections[1..], name, key, v)
  }

  /** The configuration of the last checkpoint, to which the totals are added. */
  function LastConfig(cpts: seq<Checkpoint>): seq<Section>
    requires cpts != []
  {
    Contribution(cpts, |cpts| - 1, cpts[|cpts| - 1].sections)
  }

  /** All sections that are written: the totals are the pages copied, the number of
      processes, the range size with the padding, and the latest tick. */
  function Written(cpts: seq<Checkpoint>, pad: nat): seq<Section>
    requires cpts != []
  {
    var n := |cpts|;
    Merged(cpts, n - 1)
    + SetIn(LastConfig(cpts), STORE, "range_size", Num((Base(cpts, n) + pad) * PAGE))
    + [Section("system", [("pagePtr", Num(Base(cpts, n))), ("nextPID", Num(n))])]
    + [Section("Globals", [("curTick", Num(MaxTick(cpts, n)))])]
  }

  method HasSection(sections: seq<Section>, name: string) returns (found: bool)
    ensures found <==> HasName(sections, name)
  {
    for k := 0 to |sections|
      invariant forall j :: 0 <= j < k ==> sections[j].name != name
    {
      if sections[k].name == name { return true; }
    }
    return false;
  }

  /** Writes pages of zero characters until the requested size is reached. */
  method PadMemory(mem: string, pages: nat, memorySize: int) returns (out: string, total: nat)
    ensures total == pages + Padding(pages, memorySize)
    ensures out == mem + Zeros(Padding(pages, memorySize) * PAGE)
  {
    out, total := mem, pages;
    while total * PAGE < memorySize
      invariant pages <= total && out == mem + Zeros((total - pages) * PAGE)
      invariant (total - pages) + Padding(total, memorySize) == Padding(pages, memorySize)
      decreases memorySize - total * PAGE
    {
      ZerosAdd((total - pages) * PAGE, PAGE);
      out := out + Zeros(PAGE);
      total := total + 1;
    }
  }

  /** The loop over the checkpoints; the last configuration is kept apart. */
  method MergeAll(cpts: seq<Checkpoint>)
    returns (mem: string, earlier: seq<Section>, last: seq<Section>, pagePtr: nat, maxTick: int)
    requires cpts != []
    ensures mem == Layout(cpts, |cpts|) && pagePtr == Base(cpts, |cpts|) && maxTick == MaxTick(cpts, |cpts|)
    ensures earlier == Merged(cpts, |cpts| - 1) && last == LastConfig(cpts)
  {
    mem, earlier, last, pagePtr, maxTick := [], [], [], 0, 0;
    for i := 0 to |cpts|
      invariant mem == Layout(cpts, i) && pagePtr == Base(cpts, i) && maxTick == MaxTick(cpts, i)
      invariant if i == 0 then earlier == [] && last == []
                else earlier == Merged(cpts, i - 1) && last == Contribution(cpts, i - 1, cpts[i - 1].sections)
    {
      earlier := earlier + last;
      last := MergeSections(cpts, i, pagePtr);
      if cpts[i].curTick > maxTick { maxTick := cpts[i].curTick; }
      pagePtr := pagePtr + cpts[i].pages;
      var bytes := CopyPages(cpts[i].image, cpts[i].pages);
      mem := mem + bytes;
    }
  }

  /** What the merge writes, if it does not fail. */
  function Result(cpts: seq<Checkpoint>, memorySize: int): Image
    requires cpts != []
  {
    var pad := Padding(Base(cpts, |cpts|), memorySize);
    Image(Layout(cpts, |cpts|) + Zeros(pad * PAGE), Written(cpts, pad))
  }

  /** The whole merge: the copied pages in order, padded with zero characters to the requested
      size, and all sections with the totals. It fails exactly when the last checkpoint has no
      section for the memory store. */
  method Aggregate(cpts: seq<Checkpoint>, memorySize: int) returns (r: Option<Image>)
    requires cpts != []
    ensures r.Some? <==> HasName(LastConfig(cpts), STORE)
    ensures r.Some? ==> r.value == Result(cpts, memorySize)
  {
    var mem, earlier, last, pagePtr, maxTick := MergeAll(cpts);
    var system := Section("system", [("pagePtr", Num(pagePtr)), ("nextPID", Num(|cpts|))]);
    var total;
    mem, total := PadMemory(mem, pagePtr, memorySize);
    var found := HasSection(last, STORE);
    if !found {
      return None;
    }
    last := SetIn(last, STORE, "range_size", Num(total * PAGE));
    return Some(Image(mem, earlier + last + [system] + [Section("Globals", [("curTick", Num(maxTick))])]));
  }

  lemma ZerosAdd(a: nat, b: nat)
    ensures Zeros(a) + Zeros(b) == Zeros(a + b)
  {
  }

  // -------------------------------------------------------------------- what is preserved

  lemma {:induction false} LayoutLength(cpts: seq<Checkpoint>, i: nat)
    requires i <= |cpts|
    ensures |Layout(cpts, i)| <= Base(cpts, i) * PAGE
    ensures |Layout(cpts, i)| == Base(cpts, i) * PAGE <==> forall k :: 0 <= k < i ==> Full(cpts[k])
  {
    if i > 0 { LayoutLength(cpts, i - 1); }
  }

  lemma {:induction false} LayoutPrefix(cpts: seq<Checkpoint>, i: nat, j: nat)
    requires i <= j <= |cpts|
    ensures Layout(cpts, i) <= Layout(cpts, j)
    decreases j
  {
    if i < j { LayoutPrefix(cpts, i, j - 1); }
  }

  /** The byte at address `p` of checkpoint `i` is found at its relocated address. */
  ghost predicate ReadOk(cpts: seq<Checkpoint>, i: nat, p: nat, pad: nat)
    requires i < |cpts| && p < |cpts[i].image|
  {
    var mem := Layout(cpts, |cpts|) + Zeros(pad * PAGE);
    var address := MovedValue("paddr", Num(p), Base(cpts, i)).n;
    0 <= address < |mem| && mem[address] == cpts[i].image[p]
  }

  ghost predicate AllFull(cpts: seq<Checkpoint>, i: nat)
    requires i <= |cpts|
  {
    forall k :: 0 <= k < i ==> Full(cpts[k])
  }

  /** Every byte that a checkpoint has in its pages survives the merge, provided the stores
      before it are full. */
  lemma ReadsArePreserved(cpts: seq<Checkpoint>, i: nat, p: nat, pad: nat)
    requires i < |cpts| && p < |cpts[i].image| && p < cpts[i].pages * PAGE && AllFull(cpts, i)
    ensures ReadOk(cpts, i, p, pad)
  {
    LayoutLength(cpts, i);
    LayoutPrefix(cpts, i + 1, |cpts|);
    ByteInLayout(cpts, i, p);
  }

  lemma ByteInLayout(cpts: seq<Checkpoint>, i: nat, p: nat)
    requires i < |cpts| && p < |cpts[i].image| && p < cpts[i].pages * PAGE
    ensures |Layout(cpts, i)| + p < |Layout(cpts, i + 1)|
    ensures Layout(cpts, i + 1)[|Layout(cpts, i)| + p] == cpts[i].image[p]
  {
  }

  /** Checkpoints with the same page counts and stores of the same length. */
  ghost predicate SameShape(a: seq<Checkpoint>, b: seq<Checkpoint>) {
    |a| == |b| && forall k :: 0 <= k < |a| ==> a[k].pages == b[k].pages && |a[k].image| == |b[k].image|
  }

  lemma {:induction false} SameLayout(a: seq<Checkpoint>, b: seq<Checkpoint>, i: nat)
    requires SameShape(a, b) && i <= |a|
    ensures Base(a, i) == Base(b, i) && |Layout(a, i)| == |Layout(b, i)|
  {
    if i > 0 { SameLayout(a, b, i - 1); }
  }

  function Blank(n: nat): (s: string)
    ensures |s| == n && forall k :: 0 <= k < n ==> s[k] == 'y'
  {
    seq(n, _ => 'y')
  }

  function LoneImage(length: nat, here: bool, p: nat): (s: string)
    requires here ==> p < length
    ensures |s| == length && forall k :: 0 <= k < length ==> (s[k] == 'x' <==> here && k == p)
  {
    if here then Blank(length)[p := 'x'] else Blank(length)
  }

  /** Stores in which the byte to be read is the only one of its kind. */
  function Lone(cpts: seq<Checkpoint>, i: nat, p: nat): (other: seq<Checkpoint>)
    requires i < |cpts| && p < |cpts[i].image|
    ensures SameShape(cpts, other)
    ensures forall k :: 0 <= k < |cpts| ==> other[k].image == LoneImage(|cpts[k].image|, k == i, p)
  {
    seq(|cpts|, k requires 0 <= k < |cpts| => cpts[k].(image := LoneImage(|cpts[k].image|, k == i, p)))
  }

  lemma {:induction false} LoneByte(cpts: seq<Checkpoint>, i: nat, p: nat, j: nat, a: nat)
    requires i < |cpts| && p < |cpts[i].image| && 0 < j <= |cpts| && a < |Layout(Lone(cpts, i, p), j)|
    requires Layout(Lone(cpts, i, p), j)[a] == 'x'
    ensures a == |Layout(Lone(cpts, i, p), i)| + p
  {
    var before := Layout(Lone(cpts, i, p), j - 1);
    if a < |before| { LoneByte(cpts, i, p, j - 1, a); }
  }

  lemma LoneIsMisread(cpts: seq<Checkpoint>, i: nat, p: nat, pad: nat)
    requires i < |cpts| && p < |cpts[i].image| && p < cpts[i].pages * PAGE && !AllFull(cpts, i)
    ensures !ReadOk(Lone(cpts, i, p), i, p, pad)
  {
    var other := Lone(cpts, i, p);
    SameLayout(cpts, other, i);
    LayoutLength(cpts, i);
    var address := Base(other, i) * PAGE + p;
    if address < |Layout(other, |cpts|)| && Layout(other, |cpts|)[address] == 'x' {
      LoneByte(cpts, i, p, |cpts|, address);
    }
  }

  /** For given page counts and store lengths, a read survives whatever the stores contain if
      and only if every store before it is full. */
  lemma ReadsSurviveIff(cpts: seq<Checkpoint>, i: nat, p: nat, pad: nat)
    requires i < |cpts| && p < |cpts[i].image| && p < cpts[i].pages * PAGE
    ensures (forall other :: SameShape(cpts, other) ==> ReadOk(other, i, p, pad)) <==> AllFull(cpts, i)
  {
    if AllFull(cpts, i) {
      forall other | SameShape(cpts, other) ensures ReadOk(other, i, p, pad) {
        ReadsArePreserved(other, i, p, pad);
      }
    } else {
      LoneIsMisread(cpts, i, p, pad);
    }
  }

  /** One page is announced but its store is empty: the first byte of the next checkpoint is
      read from the padding. */
  lemma ShortStoreMisreads()
    ensures var cpts := [Checkpoint(1, "", [], 0), Checkpoint(1, Blank(PAGE), [], 0)];
            var mem := Layout(cpts, 2) + Zeros(PAGE);
            Base(cpts, 1) * PAGE < |mem| && mem[Base(cpts, 1) * PAGE] == '0' && cpts[1].image[0] == 'y'
  {
    var cpts := [Checkpoint(1, "", [], 0), Checkpoint(1, Blank(PAGE), [], 0)];
    assert Layout(cpts, 1) == [] && Layout(cpts, 2) == Layout(cpts, 1) + Blank(PAGE);
    assert Base(cpts, 1) == 1;
  }

  /** The recorded range size is the length of the merged memory if and only if no store was
      short. */
  lemma RangeSizeIff(cpts: seq<Checkpoint>, pad: nat)
    ensures (Base(cpts, |cpts|) + pad) * PAGE == |Layout(cpts, |cpts|) + Zeros(pad * PAGE)|
            <==> forall k :: 0 <= k < |cpts| ==> Full(cpts[k])
  {
    LayoutLength(cpts, |cpts|);
  }

  lemma {:induction false} BaseMono(cpts: seq<Checkpoint>, i: nat, j: nat)
    requires i <= j <= |cpts|
    ensures Base(cpts, i) <= Base(cpts, j)
    decreases j
  {
    if i < j { BaseMono(cpts, i, j - 1); }
  }

  /** Addresses of different checkpoints stay apart. */
  lemma AddressesStayApart(cpts: seq<Checkpoint>, i: nat, p: nat, j: nat, q: nat)
    requires i < j < |cpts| && p < cpts[i].pages * PAGE && q < cpts[j].pages * PAGE
    ensures MovedValue("paddr", Num(p), Base(cpts, i)).n < MovedValue("paddr", Num(q), Base(cpts, j)).n
  {
    BaseMono(cpts, i + 1, j);
  }

  // ------------------------------------------------------------ names in the merged file

  lemma {:induction false} RenamedHasCpu(s: string, digits: string)
    ensures HasCpu(s) ==> HasCpu(Rename(s, digits))
  {
    if s != [] && !StartsCpu(s) {
      RenamedHasCpu(s[1..], digits);
      assert Rename(s, digits)[1..] == Rename(s[1..], digits);
    }
  }

  ghost predicate DistinctNames(sections: seq<Section>) {
    forall i, j :: 0 <= i < j < |sections| ==> sections[i].name != sections[j].name
  }

  /** Where a contributed section comes from. */
  ghost predicate ComesFrom(cpts: seq<Checkpoint>, i: nat, out: Section, s: Section)
    requires i < |cpts|
  {
    if HasCpu(s.name) then out.name == NewName(s.name, i, |cpts|)
    else i == |cpts| - 1 && out.name == s.name && s.name != "system" && s.name != "Globals"
  }

  lemma {:induction false} ContributionOrigin(cpts: seq<Checkpoint>, i: nat, sections: seq<Section>)
    requires i < |cpts| && DistinctNames(sections)
    ensures DistinctNames(Contribution(cpts, i, sections))
    ensures forall out :: out in Contribution(cpts, i, sections) ==>
              exists k :: 0 <= k < |sections| && ComesFrom(cpts, i, out, sections[k])
  {
    if sections != [] {
      var front, s := sections[..|sections| - 1], sections[|sections| - 1];
      ContributionOrigin(cpts, i, front);
      var a, all := Contribution(cpts, i, front), Contribution(cpts, i, sections);
      forall out | out in all ensures exists k :: 0 <= k < |sections| && ComesFrom(cpts, i, out, sections[k]) {
        if out in a {
          var k :| 0 <= k < |front| && ComesFrom(cpts, i, out, front[k]);
          assert ComesFrom(cpts, i, out, sections[k]);
        } else {
          assert ComesFrom(cpts, i, out, sections[|sections| - 1]);
        }
      }
      forall x | 0 <= x < |a| && |a| < |all| ensures all[x].name != all[|a|].name {
        assert all[x] in a && all[|a|] == all[|all| - 1];
        var k :| 0 <= k < |front| && ComesFrom(cpts, i, all[x], front[k]);
        assert front[k].name != s.name;
        OriginsDiffer(cpts, i, all[x], front[k], i, all[|a|], s);
      }
    }
  }

  lemma OriginsDiffer(cpts: seq<Checkpoint>, i: nat, x: Section, s: Section, j: nat, y: Section, t: Section)
    requires i < |cpts| && j < |cpts| && ComesFrom(cpts, i, x, s) && ComesFrom(cpts, j, y, t)
    requires i != j || s.name != t.name
    ensures x.name != y.name
  {
    RenamedHasCpu(s.name, Number(i, |cpts|));
    RenamedHasCpu(t.name, Number(j, |cpts|));
    if x.name == y.name && HasCpu(s.name) && HasCpu(t.name) {
      NamesNeverCollide(|cpts|, i, s.name, j, t.name);
    }
  }

  /** No section of the merged configuration overwrites another: if the names within each
      checkpoint differ, all merged names differ. */
  lemma {:induction false} MergedNamesDistinct(cpts: seq<Checkpoint>, n: nat)
    requires n <= |cpts| && forall i :: 0 <= i < |cpts| ==> DistinctNames(cpts[i].sections)
    ensures DistinctNames(Merged(cpts, n))
    ensures forall out :: out in Merged(cpts, n) ==>
              exists i, k :: 0 <= i < n && 0 <= k < |cpts[i].sections| && ComesFrom(cpts, i, out, cpts[i].sections[k])
  {
    if n > 0 {
      MergedNamesDistinct(cpts, n - 1);
      ContributionOrigin(cpts, n - 1, cpts[n - 1].sections);
      var a, b := Merged(cpts, n - 1), Contribution(cpts, n - 1, cpts[n - 1].sections);
      forall out | out in a + b
        ensures exists i, k :: 0 <= i < n && 0 <= k < |cpts[i].sections| && ComesFrom(cpts, i, out, cpts[i].sections[k])
      {
        if out in a {
          var i, k :| 0 <= i < n - 1 && 0 <= k < |cpts[i].sections| && ComesFrom(cpts, i, out, cpts[i].sections[k]);
        } else {
          var k :| 0 <= k < |cpts[n - 1].sections| && ComesFrom(cpts, n - 1, out, cpts[n - 1].sections[k]);
        }
      }
      forall x, y | 0 <= x < |a| && 0 <= y < |b| ensures a[x].name != b[y].name {
        assert a[x] in a && b[y] in b;
        var i, k :| 0 <= i < n - 1 && 0 <= k < |cpts[i].sections| && ComesFrom(cpts, i, a[x], cpts[i].sections[k]);
        var l :| 0 <= l < |cpts[n - 1].sections| && ComesFrom(cpts, n - 1, b[y], cpts[n - 1].sections[l]);
        OriginsDiffer(cpts, i, a[x], cpts[i].sections[k], n - 1, b[y], cpts[n - 1].sections[l]);
      }
    }
  }

  lemma {:induction false} CpuHasC(s: string)
    requires HasCpu(s)
    ensures 'c' in s
  {
    if StartsCpu(s) { assert s[0] == 'c'; } else { CpuHasC(s[1..]); }
  }

  lemma {:induction false} MergedIsPlain(cpts: seq<Checkpoint>, out: Section)
    requires forall i :: 0 <= i < |cpts| ==> DistinctNames(cpts[i].sections)
    requires out in Merged(cpts, |cpts|)
    ensures out.name != "system" && out.name != "Globals"
  {
    MergedNamesDistinct(cpts, |cpts|);
    var i, k :| 0 <= i < |cpts| && 0 <= k < |cpts[i].sections| && ComesFrom(cpts, i, out, cpts[i].sections[k]);
    var s := cpts[i].sections[k];
    if HasCpu(s.name) {
      RenamedHasCpu(s.name, Number(i, |cpts|));
      CpuHasC(out.name);
    }
  }

  lemma {:induction false} SetInNames(sections: seq<Section>, name: string, key: string, v: Value)
    ensures var out := SetIn(sections, name, key, v);
            |out| == |sections| && forall k :: 0 <= k < |out| ==> out[k].name == sections[k].name
  {
    if sections != [] && sections[0].name != name { SetInNames(sections[1..], name, key, v); }
  }

  /** All section names that are written differ, those of the totals included. */
  lemma WrittenNamesDistinct(cpts: seq<Checkpoint>, pad: nat)
    requires cpts != [] && forall i :: 0 <= i < |cpts| ==> DistinctNames(cpts[i].sections)
    ensures DistinctNames(Written(cpts, pad))
  {
    var n, size := |cpts|, Num((Base(cpts, |cpts|) + pad) * PAGE);
    MergedNamesDistinct(cpts, n);
    SetInNames(LastConfig(cpts), STORE, "range_size", size);
    var merged, body := Merged(cpts, n), Merged(cpts, n - 1) + SetIn(LastConfig(cpts), STORE, "range_size", size);
    assert |body| == |merged| && forall k :: 0 <= k < |body| ==> body[k].name == merged[k].name;
    forall k | 0 <= k < |body| ensures body[k].name != "system" && body[k].name != "Globals" {
      MergedIsPlain(cpts, merged[k]);
    }
    assert "system"[0] != "Globals"[0];
  }
}
