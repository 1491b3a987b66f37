/** The textual form of the instruction dependency trace: the printer of
    gem5/util/decode_inst_dep_trace.py and the parser of gem5/util/encode_inst_dep_trace.py. */
module TraceText {
  import opened Decimal
  import opened IntText
  import opened Text
  import opened Wrappers

  const LIMIT_32: nat := 0x1_0000_0000
  const LIMIT_64: nat := 0x1_0000_0000_0000_0000

  type Word32 = n: nat | n < LIMIT_32
  type Word64 = n: nat | n < LIMIT_64

  datatype Kind = INVALID | LOAD | STORE | COMP

  datatype Access = Access(pAddr: Option<Word64>, size: Option<Word32>, flags: Option<Word32>)

  /** A record of gem5/src/proto/inst_dep_record.proto. */
  datatype Record = Record(
    seqNum: Word64, pc: Option<Word64>, weight: Option<Word32>, kind: Kind, access: Access,
    compDelay: Word64, robDep: seq<Word64>, regDep: seq<Word64>,
    vAddr: Option<Word64>, asid: Option<Word32>)

  predicate Memory(k: Kind) {
    k.LOAD? || k.STORE?
  }

  function Name(k: Kind): string {
    match k
    case INVALID => "INVALID"
    case LOAD => "LOAD"
    case STORE => "STORE"
    case COMP => "COMP"
  }

  // --------------------------------------------------------------------- printing

  function Or(x: Option<nat>, default: nat): nat {
    if x.Some? then x.value else default
  }

  function Given(x: Option<nat>): seq<string> {
    if x.Some? then [Str(x.value)] else []
  }

  function Head(r: Record): seq<string> {
    [Str(r.seqNum), Str(Or(r.pc, 0)), Str(Or(r.weight, 1)), Name(r.kind)]
  }

  function Detail(r: Record): seq<string> {
    Given(r.access.pAddr) + Given(r.access.size) + Given(r.access.flags) + [Str(r.compDelay)]
  }

  function Numerals(deps: seq<nat>): seq<string> {
    seq(|deps|, k requires 0 <= k < |deps| => Str(deps[k]))
  }

  /** Dependencies, each with a comma in front. */
  function PrintDeps(deps: seq<nat>): string {
    Join([""] + Numerals(deps), ',')
  }

  function Parts(r: Record): seq<string> {
    [Join(Head(r) + Detail(r), ','), PrintDeps(r.robDep), PrintDeps(r.regDep)]
  }

  /** The printed line: three parts joined by colons, and a line end. */
  function Print(r: Record): string {
    Join(Parts(r), ':') + ['\n']
  }

  // ---------------------------------------------------------------------- parsing

  datatype Failure = Malformed | UnsupportedType | InvalidType

  datatype Result<T> = Ok(value: T) | Error(failure: Failure)

  /** An unsigned field takes no number below zero or too large for it. */
  function InRange(n: Option<int>, limit: nat): Option<nat> {
    if n.Some? && 0 <= n.value < limit then Some(n.value) else None
  }

  function LongField(s: string, limit: nat): Option<nat> {
    InRange(ReadLong(s), limit)
  }

  function IntField(s: string, limit: nat): Option<nat> {
    InRange(ReadInt(s), limit)
  }

  function ReadKind(s: string): Option<Kind> {
    if s == "INVALID" then Some(INVALID)
    else if s == "LOAD" then Some(LOAD)
    else if s == "STORE" then Some(STORE)
    else if s == "COMP" then Some(COMP)
    else None
  }

  /** The dependencies among the parts; empty parts are skipped. */
  function ReadDeps(parts: seq<string>): Option<seq<Word64>> {
    if parts == [] then Some([])
    else
      var front, last := ReadDeps(parts[..|parts| - 1]), parts[|parts| - 1];
      if front.None? then None
      else if last == "" then front
      else if LongField(last, LIMIT_64).None? then None
      else Some(front.value + [LongField(last, LIMIT_64).value])
  }

  /** A record with only the leading four fields set. */
  function ReadHead(f: seq<string>): Result<Record> {
    if |f| < 4 || LongField(f[0], LIMIT_64).None? || LongField(f[1], LIMIT_64).None?
       || LongField(f[2], LIMIT_32).None? then Error(Malformed)
    else if ReadKind(f[3]).None? then Error(UnsupportedType)
    else if ReadKind(f[3]).value.INVALID? then Error(InvalidType)
    else Ok(Record(LongField(f[0], LIMIT_64).value, Some(LongField(f[1], LIMIT_64).value),
                   Some(LongField(f[2], LIMIT_32).value), ReadKind(f[3]).value,
                   Access(None, None, None), 0, [], [], None, None))
  }

  /** The record with the fields behind the leading four; those beyond the ones needed are
      ignored. */
  function ReadDetail(r: Record, d: seq<string>): Result<Record> {
    if !Memory(r.kind) then
      if |d| < 1 || LongField(d[0], LIMIT_64).None? then Error(Malformed)
      else Ok(r.(compDelay := LongField(d[0], LIMIT_64).value))
    else if |d| < 4 || LongField(d[0], LIMIT_64).None? || IntField(d[1], LIMIT_32).None?
            || IntField(d[2], LIMIT_32).None? || LongField(d[3], LIMIT_64).None? then Error(Malformed)
    else Ok(r.(access := Access(Some(LongField(d[0], LIMIT_64).value), Some(IntField(d[1], LIMIT_32).value),
                                Some(IntField(d[2], LIMIT_32).value)),
               compDelay := LongField(d[3], LIMIT_64).value))
  }

  function ReadFields(f: seq<string>): Result<Record> {
    var head := ReadHead(f);
    if head.Error? then head else ReadDetail(head.value, f[4..])
  }

  function Parse(line: string): Result<Record> {
    var parts := Split(Strip(line), ':');
    if |parts| != 3 then Error(Malformed)
    else
      var r := ReadFields(Split(parts[0], ','));
      var rob, reg := ReadDeps(Split(Strip(parts[1]), ',')), ReadDeps(Split(parts[2], ','));
      if r.Error? then r
      else if rob.None? || reg.None? then Error(Malformed)
      else Ok(r.value.(robDep := rob.value, regDep := reg.value))
  }

  // ------------------------------------------------------------- the source's own loops

  lemma DepsGrow(deps: seq<nat>, k: nat)
    requires k < |deps|
    ensures PrintDeps(deps[..k + 1]) == PrintDeps(deps[..k]) + "," + Str(deps[k])
  {
    JoinAppend([""] + Numerals(deps[..k]), Str(deps[k]), ',');
    assert [""] + Numerals(deps[..k + 1]) == [""] + Numerals(deps[..k]) + [Str(deps[k])];
  }

  method WriteDeps(out: string, deps: seq<nat>) returns (after: string)
    ensures after == out + PrintDeps(deps)
  {
    after := out;
    assert Numerals(deps[..0]) == [];
    for k := 0 to |deps|
      invariant after == out + PrintDeps(deps[..k])
    {
      DepsGrow(deps, k);
      assert out + (PrintDeps(deps[..k]) + "," + Str(deps[k])) == out + PrintDeps(deps[..k]) + "," + Str(deps[k]);
      after := after + "," + Str(deps[k]);
    }
    assert deps[..|deps|] == deps;
  }

  /** A field that is written only when present. */
  method WriteGiven(out: string, x: Option<nat>, ghost parts: seq<string>) returns (after: string)
    requires |parts| >= 1 && out == Join(parts, ',')
    ensures after == Join(parts + Given(x), ',')
  {
    after := out;
    if x.Some? {
      JoinAppend(parts, Str(x.value), ',');
      after := after + "," + Str(x.value);
    } else {
      assert parts + Given(x) == parts;
    }
  }

  method WriteHead(r: Record) returns (out: string)
    ensures out == Join(Head(r), ',')
  {
    out := Str(r.seqNum);
    out := out + "," + (if r.pc.Some? then Str(r.pc.value) else "0");
    out := out + "," + (if r.weight.Some? then Str(r.weight.value) else "1");
    out := out + "," + Name(r.kind);
    ghost var h := Head(r);
    JoinAppend([h[0]], h[1], ',');
    JoinAppend([h[0], h[1]], h[2], ',');
    JoinAppend([h[0], h[1], h[2]], h[3], ',');
    assert [h[0]] + [h[1]] == [h[0], h[1]];
    assert [h[0], h[1]] + [h[2]] == [h[0], h[1], h[2]];
    assert [h[0], h[1], h[2]] + [h[3]] == h;
  }

  method WriteFields(r: Record) returns (out: string)
    ensures out == Join(Head(r) + Detail(r), ',')
  {
    out := WriteHead(r);
    ghost var p := Head(r);
    out := WriteGiven(out, r.access.pAddr, p);
    p := p + Given(r.access.pAddr);
    out := WriteGiven(out, r.access.size, p);
    p := p + Given(r.access.size);
    out := WriteGiven(out, r.access.flags, p);
    p := p + Given(r.access.flags);
    JoinAppend(p, Str(r.compDelay), ',');
    out := out + "," + Str(r.compDelay);
    assert p + [Str(r.compDelay)] == Head(r) + Detail(r);
  }

  /** One turn of the printing loop writes exactly the line of its record. */
  method WriteRecord(r: Record) returns (out: string)
    ensures out == Print(r)
  {
    out := WriteFields(r);
    ghost var parts := Parts(r);
    JoinAppend([parts[0]], parts[1], ':');
    JoinAppend([parts[0], parts[1]], parts[2], ':');
    assert [parts[0]] + [parts[1]] == [parts[0], parts[1]];
    assert [parts[0], parts[1]] + [parts[2]] == parts;
    out := WriteDeps(out + ":", r.robDep);
    out := WriteDeps(out + ":", r.regDep);
    out := out + "\n";
  }

  method ParseDeps(parts: seq<string>) returns (deps: Option<seq<Word64>>)
    ensures deps == ReadDeps(parts)
  {
    var found: seq<Word64> := [];
    for k := 0 to |parts|
      invariant ReadDeps(parts[..k]) == Some(found)
    {
      assert parts[..k + 1][..k] == parts[..k];
      if parts[k] != "" {
        var n := LongField(parts[k], LIMIT_64);
        if n.None? {
          NoneStays(parts, k + 1);
          return None;
        }
        found := found + [n.value];
      }
    }
    assert parts[..|parts|] == parts;
    return Some(found);
  }

  lemma {:induction false} NoneStays(parts: seq<string>, k: nat)
    requires k <= |parts| && ReadDeps(parts[..k]).None?
    ensures ReadDeps(parts).None?
    decreases |parts| - k
  {
    if k == |parts| {
      assert parts[..k] == parts;
    } else {
      assert parts[..k + 1][..k] == parts[..k];
      NoneStays(parts, k + 1);
    }
  }

  /** One turn of the parsing loop. */
  method ParseLine(line: string) returns (result: Result<Record>)
    ensures result == Parse(line)
  {
    var parts := Split(Strip(line), ':');
    if |parts| != 3 {
      return Error(Malformed);
    }
    result := ReadFields(Split(parts[0], ','));
    if result.Error? {
      return;
    }
    var rob := ParseDeps(Split(Strip(parts[1]), ','));
    if rob.None? {
      return Error(Malformed);
    }
    var reg := ParseDeps(Split(parts[2], ','));
    if reg.None? {
      return Error(Malformed);
    }
    result := Ok(result.value.(robDep := rob.value, regDep := reg.value));
  }

  // ------------------------------------------------------------------- the round trip

  predicate AllGiven(a: Access) {
    a.pAddr.Some? && a.size.Some? && a.flags.Some?
  }

  predicate NoneGiven(a: Access) {
    a.pAddr.None? && a.size.None? && a.flags.None?
  }

  /** A record the format can carry: a load or store with all memory fields, or a
      computation with none, and no field the format leaves out. */
  predicate Printable(r: Record) {
    && !r.kind.INVALID?
    && (if Memory(r.kind) then AllGiven(r.access) else NoneGiven(r.access))
    && r.vAddr.None? && r.asid.None?
  }

  /** Absent pc and weight are read back as their defaults. */
  function Defaulted(r: Record): Record {
    r.(pc := Some(Or(r.pc, 0)), weight := Some(Or(r.weight, 1)))
  }

  predicate Plain(s: string) {
    s != "" && ',' !in s && ':' !in s && forall k :: 0 <= k < |s| ==> !IsSpace(s[k])
  }

  predicate AllPlain(parts: seq<string>) {
    forall k :: 0 <= k < |parts| ==> Plain(parts[k])
  }

  lemma StrIsPlain(n: nat, limit: nat)
    ensures Plain(Str(n))
    ensures LongField(Str(n), limit) == IntField(Str(n), limit) == if n < limit then Some(n) else None
  {
    ValStr(n);
    ReadNumeral(Str(n));
    assert IsNumeral(Str(n));
  }

  lemma NumeralsArePlain(deps: seq<nat>)
    ensures AllPlain(Numerals(deps))
  {
    forall k | 0 <= k < |deps| ensures Plain(Numerals(deps)[k]) {
      StrIsPlain(deps[k], 0);
    }
  }

  lemma PlainAreWithout(parts: seq<string>)
    requires AllPlain(parts)
    ensures Without(parts, ',') && Without(parts, ':')
    ensures Without([""] + parts, ',') && Without([""] + parts, ':')
  {
  }

  lemma ReadOne(n: Word64)
    ensures Str(n) != "" && LongField(Str(n), LIMIT_64) == Some(n)
  {
    StrIsPlain(n, LIMIT_64);
  }

  lemma ReadDepsNext(parts: seq<string>, deps: seq<Word64>, n: Word64)
    requires ReadDeps(parts) == Some(deps)
    ensures ReadDeps(parts + [Str(n)]) == Some(deps + [n])
  {
    ReadOne(n);
    assert (parts + [Str(n)])[..|parts|] == parts;
  }

  lemma {:induction false} DepsRoundTrip(deps: seq<Word64>)
    ensures ReadDeps([""] + Numerals(deps)) == Some(deps)
  {
    var parts := [""] + Numerals(deps);
    if deps == [] {
      assert parts == [""];
      assert parts[..0] == [];
    } else {
      var front, last := deps[..|deps| - 1], deps[|deps| - 1];
      DepsRoundTrip(front);
      ReadDepsNext([""] + Numerals(front), front, last);
      assert parts == [""] + Numerals(front) + [Str(last)];
      assert deps == front + [last];
    }
  }

  lemma DepsSplit(deps: seq<Word64>)
    ensures ReadDeps(Split(PrintDeps(deps), ',')) == Some(deps)
    ensures ':' !in PrintDeps(deps)
  {
    NumeralsArePlain(deps);
    PlainAreWithout(Numerals(deps));
    SplitJoin([""] + Numerals(deps), ',');
    JoinWithout([""] + Numerals(deps), ',', ':');
    DepsRoundTrip(deps);
  }

  predicate NoOuterSpace(s: string) {
    s != "" && !IsSpace(s[0]) && !IsSpace(s[|s| - 1])
  }

  lemma {:induction false} JoinNoOuterSpace(parts: seq<string>)
    requires parts != [] && AllPlain(parts)
    ensures NoOuterSpace(Join(parts, ','))
  {
    assert Plain(parts[0]);
    if |parts| > 1 { JoinNoOuterSpace(parts[1..]); }
  }

  /** A printed dependency list is empty or has no white space at its ends. */
  lemma DepsEnds(deps: seq<nat>)
    ensures PrintDeps(deps) == "" || NoOuterSpace(PrintDeps(deps))
    ensures Strip(PrintDeps(deps)) == PrintDeps(deps)
  {
    var parts := [""] + Numerals(deps);
    if deps == [] {
      assert parts == [""];
    } else {
      assert parts[1..] == Numerals(deps);
      NumeralsArePlain(deps);
      JoinNoOuterSpace(Numerals(deps));
      assert PrintDeps(deps) == "," + Join(Numerals(deps), ',');
      StripLine(PrintDeps(deps));
    }
  }

  lemma GivenIsPlain(x: Option<nat>)
    ensures AllPlain(Given(x))
  {
    if x.Some? { StrIsPlain(x.value, 0); }
  }

  lemma PlainConcat(a: seq<string>, b: seq<string>)
    requires AllPlain(a) && AllPlain(b)
    ensures AllPlain(a + b)
  {
  }

  lemma HeadIsPlain(r: Record)
    ensures AllPlain(Head(r))
  {
    StrIsPlain(r.seqNum, 0);
    StrIsPlain(Or(r.pc, 0), 0);
    StrIsPlain(Or(r.weight, 1), 0);
    NameIsPlain(r.kind);
  }

  lemma NameIsPlain(k: Kind)
    ensures Plain(Name(k))
  {
  }

  lemma DetailIsPlain(r: Record)
    ensures AllPlain(Detail(r))
  {
    GivenIsPlain(r.access.pAddr);
    GivenIsPlain(r.access.size);
    GivenIsPlain(r.access.flags);
    StrIsPlain(r.compDelay, 0);
    var a, b, c := Given(r.access.pAddr), Given(r.access.size), Given(r.access.flags);
    PlainConcat(a, b);
    PlainConcat(a + b, c);
    PlainConcat(a + b + c, [Str(r.compDelay)]);
  }

  lemma FieldsSplit(r: Record)
    ensures Split(Join(Head(r) + Detail(r), ','), ',') == Head(r) + Detail(r)
    ensures ':' !in Join(Head(r) + Detail(r), ',') && NoOuterSpace(Join(Head(r) + Detail(r), ','))
  {
    HeadIsPlain(r);
    DetailIsPlain(r);
    PlainConcat(Head(r), Detail(r));
    PlainAreWithout(Head(r) + Detail(r));
    SplitJoin(Head(r) + Detail(r), ',');
    JoinWithout(Head(r) + Detail(r), ',', ':');
    JoinNoOuterSpace(Head(r) + Detail(r));
  }

  /** The three parts of a printed line are found again. */
  lemma LineSplits(r: Record)
    ensures Split(Strip(Print(r)), ':') == Parts(r)
  {
    FieldsSplit(r);
    DepsSplit(r.robDep);
    DepsSplit(r.regDep);
    SplitJoin(Parts(r), ':');
    LineEnds(r);
    StripLine(Join(Parts(r), ':'));
  }

  lemma LineEnds(r: Record)
    ensures NoOuterSpace(Join(Parts(r), ':'))
  {
    var p := Parts(r);
    FieldsSplit(r);
    DepsEnds(r.regDep);
    JoinAppend([p[0], p[1]], p[2], ':');
    assert [p[0], p[1]] + [p[2]] == p;
    assert Join(p, ':')[0] == p[0][0];
  }

  lemma NameRoundTrip(k: Kind)
    ensures ReadKind(Name(k)) == Some(k)
  {
    assert "LOAD"[0] != "INVALID"[0] && "STORE"[0] != "INVALID"[0] && "COMP"[0] != "INVALID"[0];
    assert "STORE"[0] != "LOAD"[0] && "COMP"[0] != "LOAD"[0] && "COMP"[0] != "STORE"[0];
  }

  lemma HeadRoundTrip(r: Record, d: seq<string>)
    ensures ReadHead(Head(r) + d) ==
            if r.kind.INVALID? then Error(InvalidType)
            else Ok(Record(r.seqNum, Some(Or(r.pc, 0)), Some(Or(r.weight, 1)), r.kind,
                           Access(None, None, None), 0, [], [], None, None))
  {
    NameRoundTrip(r.kind);
    StrIsPlain(r.seqNum, LIMIT_64);
    StrIsPlain(Or(r.pc, 0), LIMIT_64);
    StrIsPlain(Or(r.weight, 1), LIMIT_32);
    var f := Head(r) + d;
    assert f[0] == Head(r)[0] && f[1] == Head(r)[1] && f[2] == Head(r)[2] && f[3] == Head(r)[3];
  }

  /** A computation reads its first detail as the delay, so it must be the only one. */
  lemma CompRoundTrip(r: Record, blank: Record)
    requires !Memory(r.kind) && blank.kind == r.kind && blank.access == Access(None, None, None)
    ensures NoneGiven(r.access) ==> ReadDetail(blank, Detail(r)) == Ok(blank.(compDelay := r.compDelay))
    ensures ReadDetail(blank, Detail(r)).Ok? ==> ReadDetail(blank, Detail(r)).value.access == blank.access
  {
    StrIsPlain(r.compDelay, LIMIT_64);
  }

  lemma MemoryRoundTrip(r: Record, blank: Record)
    requires Memory(r.kind) && blank.kind == r.kind && AllGiven(r.access)
    ensures ReadDetail(blank, Detail(r)) == Ok(blank.(access := r.access, compDelay := r.compDelay))
  {
    StrIsPlain(r.access.pAddr.value, LIMIT_64);
    StrIsPlain(r.access.size.value, LIMIT_32);
    StrIsPlain(r.access.flags.value, LIMIT_32);
    StrIsPlain(r.compDelay, LIMIT_64);
  }

  /** A load or store with a memory field missing leaves too few details. */
  lemma MissingAccess(r: Record, blank: Record)
    requires Memory(r.kind) && blank.kind == r.kind && !AllGiven(r.access)
    ensures ReadDetail(blank, Detail(r)).Error?
  {
    assert |Detail(r)| < 4;
  }

  lemma FieldsRoundTrip(r: Record)
    ensures var f := ReadFields(Head(r) + Detail(r));
            (f.Ok? && Ok(f.value.(robDep := r.robDep, regDep := r.regDep)) == Ok(Defaulted(r))) <==> Printable(r)
  {
    HeadRoundTrip(r, Detail(r));
    assert (Head(r) + Detail(r))[4..] == Detail(r);
    if !r.kind.INVALID? {
      var blank := ReadHead(Head(r) + Detail(r)).value;
      if !Memory(r.kind) {
        CompRoundTrip(r, blank);
      } else if AllGiven(r.access) {
        MemoryRoundTrip(r, blank);
      } else {
        MissingAccess(r, blank);
      }
    }
  }

  /** A printed line is read by its fields; the dependencies always come back. */
  lemma ParsePrinted(r: Record)
    ensures var f := ReadFields(Head(r) + Detail(r));
            Parse(Print(r)) == if f.Error? then f else Ok(f.value.(robDep := r.robDep, regDep := r.regDep))
  {
    LineSplits(r);
    FieldsSplit(r);
    DepsSplit(r.robDep);
    DepsSplit(r.regDep);
    DepsEnds(r.robDep);
  }

  /** Parsing a printed line gives the record back, with defaults for pc and weight, if and
      only if the record is one the format can carry. */
  lemma TraceRoundTrip(r: Record)
    ensures Parse(Print(r)) == Ok(Defaulted(r)) <==> Printable(r)
  {
    ParsePrinted(r);
    FieldsRoundTrip(r);
  }

  /** A computation that carries an address is read back without it, and with the address in
      place of its delay. */
  lemma AddressBecomesDelay(r: Record)
    requires r.kind.COMP? && r.access.pAddr.Some?
    ensures Parse(Print(r)) ==
            Ok(Record(r.seqNum, Some(Or(r.pc, 0)), Some(Or(r.weight, 1)), COMP, Access(None, None, None),
                      r.access.pAddr.value, r.robDep, r.regDep, None, None))
  {
    ParsePrinted(r);
    HeadRoundTrip(r, Detail(r));
    assert (Head(r) + Detail(r))[4..] == Detail(r);
    StrIsPlain(r.access.pAddr.value, LIMIT_64);
    assert Detail(r)[0] == Str(r.access.pAddr.value);
  }

  // ------------------------------------------------------------------- whole files

  function PrintAll(rs: seq<Record>): string {
    if rs == [] then [] else Print(rs[0]) + PrintAll(rs[1..])
  }

  function ParseAll(lines: seq<string>): Result<seq<Record>> {
    if lines == [] then Ok([])
    else
      var first := Parse(lines[0]);
      if first.Error? then Error(first.failure)
      else
        var rest := ParseAll(lines[1..]);
        if rest.Error? then rest else Ok([first.value] + rest.value)
  }

  function DefaultedAll(rs: seq<Record>): seq<Record> {
    if rs == [] then [] else [Defaulted(rs[0])] + DefaultedAll(rs[1..])
  }

  lemma PlainHasNoLineEnd(parts: seq<string>)
    requires AllPlain(parts)
    ensures Without(parts, '\n') && Without([""] + parts, '\n')
  {
    forall k | 0 <= k < |parts| ensures '\n' !in parts[k] {
      assert Plain(parts[k]);
      assert IsSpace('\n');
    }
  }

  lemma OneLine(r: Record)
    ensures '\n' !in Join(Parts(r), ':')
  {
    HeadIsPlain(r);
    DetailIsPlain(r);
    PlainConcat(Head(r), Detail(r));
    NumeralsArePlain(r.robDep);
    NumeralsArePlain(r.regDep);
    PlainHasNoLineEnd(Head(r) + Detail(r));
    PlainHasNoLineEnd(Numerals(r.robDep));
    PlainHasNoLineEnd(Numerals(r.regDep));
    JoinWithout(Head(r) + Detail(r), ',', '\n');
    JoinWithout([""] + Numerals(r.robDep), ',', '\n');
    JoinWithout([""] + Numerals(r.regDep), ',', '\n');
    JoinWithout(Parts(r), ':', '\n');
  }

  ghost predicate AllPrintable(rs: seq<Record>) {
    forall k :: 0 <= k < |rs| ==> Printable(rs[k])
  }

  lemma PrintableStep(rs: seq<Record>)
    requires rs != []
    ensures AllPrintable(rs) <==> Printable(rs[0]) && AllPrintable(rs[1..])
  {
    assert forall k :: 0 < k < |rs| ==> rs[k] == rs[1..][k - 1];
  }

  lemma FirstLine(rs: seq<Record>)
    requires rs != []
    ensures var lines := Lines(PrintAll(rs));
            lines != [] && lines[0] == Print(rs[0]) && lines[1..] == Lines(PrintAll(rs[1..]))
  {
    OneLine(rs[0]);
    LinesFirst(Join(Parts(rs[0]), ':'), PrintAll(rs[1..]));
  }

  /** A whole file is read back, record by record and in order, if and only if every record
      is one the format can carry. */
  lemma {:induction false} FileRoundTrip(rs: seq<Record>)
    ensures ParseAll(Lines(PrintAll(rs))) == Ok(DefaultedAll(rs)) <==> AllPrintable(rs)
  {
    if rs != [] {
      var lines := Lines(PrintAll(rs));
      FirstLine(rs);
      TraceRoundTrip(rs[0]);
      FileRoundTrip(rs[1..]);
      PrintableStep(rs);
      SameResult(Parse(lines[0]), ParseAll(lines[1..]), rs);
    }
  }

  lemma SameResult(first: Result<Record>, rest: Result<seq<Record>>, rs: seq<Record>)
    requires rs != []
    ensures first.Ok? && rest.Ok? ==>
              ([first.value] + rest.value == DefaultedAll(rs)
               <==> first.value == Defaulted(rs[0]) && rest.value == DefaultedAll(rs[1..]))
  {
    if first.Ok? && rest.Ok? {
      assert ([first.value] + rest.value)[0] == first.value;
      assert ([first.value] + rest.value)[1..] == rest.value;
      assert DefaultedAll(rs)[0] == Defaulted(rs[0]);
      assert DefaultedAll(rs)[1..] == DefaultedAll(rs[1..]);
    }
  }

  // ------------------------------------------------------------------ the line in full

  /** The dependencies one after the other, each behind a comma. */
  function Listed(deps: seq<nat>): string {
    if deps == [] then "" else Listed(deps[..|deps| - 1]) + "," + Str(deps[|deps| - 1])
  }

  lemma {:induction false} PrintDepsIs(deps: seq<nat>)
    ensures PrintDeps(deps) == Listed(deps)
  {
    if deps == [] {
      assert [""] + Numerals(deps) == [""];
    } else {
      var front := deps[..|deps| - 1];
      PrintDepsIs(front);
      DepsGrow(deps, |front|);
      assert deps[..|front| + 1] == deps;
    }
  }

  lemma HeadText(r: Record)
    ensures Join(Head(r), ',') ==
            Str(r.seqNum) + "," + Str(Or(r.pc, 0)) + "," + Str(Or(r.weight, 1)) + "," + Name(r.kind)
  {
    var h := Head(r);
    JoinAppend([h[0]], h[1], ',');
    JoinAppend([h[0], h[1]], h[2], ',');
    JoinAppend([h[0], h[1], h[2]], h[3], ',');
    assert [h[0]] + [h[1]] == [h[0], h[1]];
    assert [h[0], h[1]] + [h[2]] == [h[0], h[1], h[2]];
    assert [h[0], h[1], h[2]] + [h[3]] == h;
  }

  /** A field with its comma, if it is there. */
  function Optional(x: Option<nat>): string {
    if x.Some? then "," + Str(x.value) else ""
  }

  lemma Regroup(a: string, b: string, c: string)
    ensures a + b + c == a + (b + c)
  {
  }

  lemma GivenText(parts: seq<string>, x: Option<nat>)
    requires |parts| >= 1
    ensures Join(parts + Given(x), ',') == Join(parts, ',') + Optional(x)
  {
    if x.Some? {
      JoinAppend(parts, Str(x.value), ',');
      Regroup(Join(parts, ','), ",", Str(x.value));
    } else {
      assert parts + Given(x) == parts;
    }
  }

  lemma FieldsText(r: Record)
    ensures Join(Head(r) + Detail(r), ',') ==
            Join(Head(r), ',') + Optional(r.access.pAddr) + Optional(r.access.size) + Optional(r.access.flags)
            + "," + Str(r.compDelay)
  {
    var p := Head(r);
    GivenText(p, r.access.pAddr);
    var q := p + Given(r.access.pAddr);
    GivenText(q, r.access.size);
    var s := q + Given(r.access.size);
    GivenText(s, r.access.flags);
    var t := s + Given(r.access.flags);
    JoinAppend(t, Str(r.compDelay), ',');
    assert t + [Str(r.compDelay)] == Head(r) + Detail(r);
  }

  /** The line of a record: sequence number, pc, weight, type, the memory fields that are there
      and the delay, with commas; then the order and the register dependencies, each list behind
      a colon. */
  lemma PrintedLine(r: Record)
    ensures Print(r) ==
            Str(r.seqNum) + "," + Str(Or(r.pc, 0)) + "," + Str(Or(r.weight, 1)) + "," + Name(r.kind)
            + Optional(r.access.pAddr) + Optional(r.access.size) + Optional(r.access.flags)
            + "," + Str(r.compDelay) + ":" + Listed(r.robDep) + ":" + Listed(r.regDep) + "\n"
  {
    var parts := Parts(r);
    JoinAppend([parts[0]], parts[1], ':');
    JoinAppend([parts[0], parts[1]], parts[2], ':');
    assert [parts[0]] + [parts[1]] == [parts[0], parts[1]];
    assert [parts[0], parts[1]] + [parts[2]] == parts;
    HeadText(r);
    FieldsText(r);
    PrintDepsIs(r.robDep);
    PrintDepsIs(r.regDep);
  }

  // --------------------------------------------------------- lines that nobody printed

  /** A line is rejected unless it has two colons. */
  lemma WrongColons(line: string)
    requires Count(Strip(line), ':') != 2
    ensures Parse(line) == Error(Malformed)
  {
    SplitCount(Strip(line), ':');
  }

  /** Fields beyond the ones needed are ignored. */
  lemma ExtraIgnored(f: seq<string>, extra: seq<string>)
    requires ReadFields(f).Ok?
    ensures ReadFields(f + extra) == ReadFields(f)
  {
    assert (f + extra)[4..] == f[4..] + extra;
  }

  /** Empty places in a list of dependencies are skipped. */
  lemma {:induction false} EmptySkipped(a: seq<string>, b: seq<string>)
    ensures ReadDeps(a + [""] + b) == ReadDeps(a + b)
  {
    if b == [] {
      assert (a + [""] + b)[..|a|] == a && a + b == a;
    } else {
      var front := b[..|b| - 1];
      assert (a + [""] + b)[..|a| + |b|] == a + [""] + front;
      assert (a + b)[..|a| + |b| - 1] == a + front;
      EmptySkipped(a, front);
    }
  }

  /** How many fields a line needs: eight for a load or store, five for a computation. */
  lemma FieldsNeeded(f: seq<string>)
    requires ReadFields(f).Ok?
    ensures |f| >= 5 && f[3] in ["LOAD", "STORE", "COMP"] && (f[3] != "COMP" ==> |f| >= 8)
  {
  }
}
