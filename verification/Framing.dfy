/** Length-prefixed messages: the variable-length integers and message framing of
    gem5/util/protolib.py. Section "Base 128 Varints" of the Protocol Buffers Encoding
    specification gives the byte layout: seven payload bits a byte, least significant group
    first, and the top bit set on every byte but the last. */
module Framing {
  import C = Counting
  import opened Wrappers

  type Byte = n: nat | n < 256
  type Bytes = seq<Byte>

  const LIMIT_32: int := 0x1_0000_0000
  const LIMIT_63: int := 0x8000_0000_0000_0000
  const LIMIT_64: int := 0x1_0000_0000_0000_0000
  const LIMIT_70: int := 0x40_0000_0000_0000_0000
  const MAX_BYTES: nat := 10

  // ---------------------------------------------------------------- the specification

  /** 128 to the power k. */
  function Pow(k: nat): (p: nat)
    ensures p >= 1
  {
    if k == 0 then 1 else 128 * Pow(k - 1)
  }

  /** The number whose base-128 digits, least significant first, are the payloads. */
  function Payload(s: Bytes): nat {
    if s == [] then 0 else s[0] % 128 + 128 * Payload(s[1..])
  }

  /** How many bytes at the front have their continuation bit set. */
  function Continued(s: Bytes): (k: nat)
    ensures k <= |s|
    ensures forall i :: 0 <= i < k ==> s[i] >= 128
    ensures k < |s| ==> s[k] < 128
  {
    if s == [] || s[0] < 128 then 0 else 1 + Continued(s[1..])
  }

  /** The 32-bit reading of a payload: too large a number wraps below zero. */
  function Clip(p: nat): (v: int)
    ensures -LIMIT_32 <= v < LIMIT_32 && (v - p) % LIMIT_32 == 0
    ensures v < 0 <==> p >= LIMIT_63
  {
    if p >= LIMIT_63 then p % LIMIT_32 - LIMIT_32 else p % LIMIT_32
  }

  datatype Varint = EndOfFile | TooManyBytes | Value(value: int, pos: nat)

  function ReadVarint(s: Bytes): Varint {
    var k := Continued(s);
    if k >= MAX_BYTES then TooManyBytes
    else if k == |s| then EndOfFile
    else Value(Clip(Payload(s[..k + 1])), k + 1)
  }

  function Consumed(s: Bytes): (n: nat)
    ensures n <= |s| && n <= MAX_BYTES
    ensures ReadVarint(s).Value? ==> n == ReadVarint(s).pos
    ensures ReadVarint(s).EndOfFile? ==> n == |s|
  {
    var k := Continued(s);
    if k >= MAX_BYTES then MAX_BYTES else if k == |s| then k else k + 1
  }

  function Encoded(v: nat): (s: Bytes)
    ensures |s| >= 1
  {
    if v < 128 then [v] else [128 + v % 128] + Encoded(v / 128)
  }

  /** What read(n) returns: all that is left if n is negative, and no more than is left. */
  function Chunk(s: Bytes, n: int): (c: Bytes)
    ensures |c| <= |s| && c == s[..|c|]
  {
    if n < 0 || n > |s| then s else s[..n]
  }

  /** The next message; none at the end, for a length of zero and for a bad length. */
  function Next(s: Bytes): Option<Bytes> {
    var v := ReadVarint(s);
    if v.Value? && v.value != 0 then Some(Chunk(s[v.pos..], v.value)) else None
  }

  function Rest(s: Bytes): (rest: Bytes)
    ensures |rest| <= |s| && (Next(s).Some? ==> |rest| < |s|)
  {
    var t := s[Consumed(s)..];
    if Next(s).Some? then t[|Next(s).value|..] else t
  }

  function ReadAll(s: Bytes): seq<Bytes>
    decreases |s|
  {
    if Next(s).None? then [] else [Next(s).value] + ReadAll(Rest(s))
  }

  function Frames(ms: seq<Bytes>): Bytes {
    if ms == [] then [] else Encoded(|ms[0]|) + ms[0] + Frames(ms[1..])
  }

  // ---------------------------------------------------------------------- the files

  class OutFile {
    var written: Bytes

    method Write(b: Bytes)
      modifies this
      ensures written == old(written) + b
    {
      written := written + b;
    }

    method EncodeVarint32(number: nat)
      modifies this
      ensures written == old(written) + Encoded(number)
    {
      var bits: nat := number % 128;
      var value: nat := number / 128;
      while value != 0
        invariant bits < 128
        invariant old(written) + Encoded(number) == written + Encoded(128 * value + bits)
      {
        ghost var rest := 128 * value + bits;
        assert Encoded(rest) == [128 + bits] + Encoded(value);
        assert written + Encoded(rest) == written + [128 + bits] + Encoded(value);
        Write([128 + bits]);
        bits := value % 128;
        value := value / 128;
      }
      Write([bits]);
    }

    method EncodeMessage(message: Bytes)
      modifies this
      ensures written == old(written) + Encoded(|message|) + message
    {
      EncodeVarint32(|message|);
      Write(message);
    }
  }

  class InFile {
    var left: Bytes

    method Read(n: int) returns (chunk: Bytes)
      modifies this
      ensures chunk == Chunk(old(left), n)
      ensures old(left) == chunk + left
    {
      chunk := if n < 0 || n > |left| then left else left[..n];
      left := left[|chunk|..];
    }

    method DecodeVarint32() returns (r: Varint)
      modifies this
      ensures r == ReadVarint(old(left))
      ensures left == old(left)[Consumed(old(left))..]
    {
      ghost var s := left;
      var result, shift, pos := 0, 0, 0;
      var weight := 1;
      while true
        invariant pos < MAX_BYTES && pos <= |s| && pos <= Continued(s)
        invariant left == s[pos..]
        invariant shift == 7 * pos && weight == Pow(pos)
        invariant result == Payload(s[..pos])
        decreases MAX_BYTES - pos
      {
        var c := Read(1);
        if |c| == 0 {
          return EndOfFile;
        }
        var b := c[0];
        NextByte(s, pos);
        result := result + b % 128 * weight;
        pos := pos + 1;
        if b < 128 {
          if result > LIMIT_63 - 1 {
            ClipWraps(result);
            return Value((result - LIMIT_64) % LIMIT_32 - LIMIT_32, pos);
          }
          return Value(result % LIMIT_32, pos);
        }
        shift := shift + 7;
        weight := 128 * weight;
        if shift >= 64 {
          return TooManyBytes;
        }
      }
    }

    method DecodeMessage() returns (message: Option<Bytes>)
      modifies this
      ensures message == Next(old(left)) && left == Rest(old(left))
    {
      var v := DecodeVarint32();
      if !v.Value? || v.value == 0 {
        return None;
      }
      var chunk := Read(v.value);
      return Some(chunk);
    }
  }

  lemma {:induction false} PayloadAppend(s: Bytes, b: Byte)
    ensures Payload(s + [b]) == Payload(s) + b % 128 * Pow(|s|)
  {
    if s == [] {
      assert ([b])[1..] == [];
    } else {
      PayloadAppend(s[1..], b);
      assert (s + [b])[1..] == s[1..] + [b];
      assert 128 * (b % 128 * Pow(|s| - 1)) == b % 128 * (128 * Pow(|s| - 1));
    }
  }

  lemma NextByte(s: Bytes, pos: nat)
    requires pos < |s| && pos <= Continued(s)
    ensures Payload(s[..pos + 1]) == Payload(s[..pos]) + s[pos] % 128 * Pow(pos)
    ensures s[pos] >= 128 ==> pos + 1 <= Continued(s)
    ensures s[pos] < 128 ==> pos == Continued(s)
  {
    assert s[..pos + 1] == s[..pos] + [s[pos]];
    PayloadAppend(s[..pos], s[pos]);
  }

  lemma ClipWraps(p: nat)
    requires p >= LIMIT_63
    ensures Clip(p) == (p - LIMIT_64) % LIMIT_32 - LIMIT_32
  {
  }

  // ------------------------------------------------------------------- round trips

  /** On any byte stream the reader takes at most ten bytes, and a value it returns is a
      32-bit reading of the payload bits it took. */
  lemma ReaderIsBounded(s: Bytes)
    ensures Consumed(s) <= 10 && Consumed(s) <= |s|
    ensures var v := ReadVarint(s);
            v.Value? ==> -LIMIT_32 <= v.value < LIMIT_32
                         && (v.value - Payload(s[..Consumed(s)])) % LIMIT_32 == 0
    ensures ReadVarint(s).TooManyBytes? <==> |s| >= 10 && forall i :: 0 <= i < 10 ==> s[i] >= 128
    ensures ReadVarint(s).EndOfFile? <==> |s| < 10 && forall i :: 0 <= i < |s| ==> s[i] >= 128
  {
  }

  lemma {:induction false} EncodedFacts(v: nat, t: Bytes)
    ensures Payload(Encoded(v)) == v
    ensures Continued(Encoded(v) + t) == |Encoded(v)| - 1
  {
    var s := Encoded(v);
    if v >= 128 {
      EncodedFacts(v / 128, t);
      assert s[1..] == Encoded(v / 128);
      assert (s + t)[1..] == s[1..] + t;
    } else {
      assert s[1..] == [];
    }
  }

  /** A number takes at most k bytes exactly when it is below 128 to the power k. */
  /** Byte i of an encoded number: the i-th group of seven bits, with the top bit set on every
      byte but the last. */
  lemma {:induction false} EncodedBytes(v: nat, i: nat)
    requires i < |Encoded(v)|
    ensures Encoded(v)[i] % 128 == v / Pow(i) % 128
    ensures Encoded(v)[i] >= 128 <==> i < |Encoded(v)| - 1
    decreases i
  {
    if i > 0 {
      EncodedBytes(v / 128, i - 1);
      DivTwice(v, Pow(i - 1));
    }
  }

  lemma DivTwice(v: nat, p: nat)
    requires p >= 1
    ensures v / 128 / p == v / (128 * p)
  {
    var q, r := v / 128, v % 128;
    var a, b := q / p, q % p;
    assert q == a * p + b && v == 128 * q + r;
    assert v == a * (128 * p) + (128 * b + r);
    C.QuotientIs(v, 128 * p, a, 128 * b + r);
  }

  /** The example of the encoding specification. */
  lemma ThreeHundred()
    ensures Encoded(300) == [172, 2]
  {
    assert Encoded(2) == [2];
  }

  lemma {:induction false} EncodedLength(v: nat, k: nat)
    requires k >= 1
    ensures |Encoded(v)| <= k <==> v < Pow(k)
    decreases k
  {
    if k == 1 {
      assert Pow(1) == 128 * Pow(0);
    } else if v >= 128 {
      EncodedLength(v / 128, k - 1);
      assert v < 128 * Pow(k - 1) <==> v / 128 < Pow(k - 1);
    }
  }

  lemma PowValues()
    ensures Pow(MAX_BYTES) == LIMIT_70
  {
    assert Pow(2) == 16384;
    assert Pow(4) == 268435456;
    assert Pow(6) == 4398046511104;
    assert Pow(8) == 72057594037927936;
    assert Pow(10) == 16384 * Pow(8);
  }

  /** Reading an encoded number gives its 32-bit reading, or fails if it is too long. */
  lemma ReadEncoded(v: nat, t: Bytes)
    ensures ReadVarint(Encoded(v) + t) == if v < LIMIT_70 then Value(Clip(v), |Encoded(v)|) else TooManyBytes
    ensures v < LIMIT_70 ==> (Encoded(v) + t)[Consumed(Encoded(v) + t)..] == t
  {
    EncodedFacts(v, t);
    EncodedLength(v, MAX_BYTES);
    PowValues();
    assert (Encoded(v) + t)[..|Encoded(v)|] == Encoded(v);
  }

  /** A number is read back exactly when it fits 32 bits. */
  lemma VarintRoundTrip(v: nat, t: Bytes)
    ensures ReadVarint(Encoded(v) + t) == Value(v, |Encoded(v)|) <==> v < LIMIT_32
  {
    ReadEncoded(v, t);
  }

  /** A message whose length survives: a nonempty one below 2^32 bytes, or a last one so long
      that its length reads as negative, which makes the reader take all that is left. */
  predicate Survives(ms: seq<Bytes>, k: nat)
    requires k < |ms|
  {
    var n := |ms[k]|;
    0 < n < LIMIT_32 || (k == |ms| - 1 && LIMIT_63 <= n < LIMIT_70)
  }

  predicate AllSurvive(ms: seq<Bytes>) {
    forall k :: 0 <= k < |ms| ==> Survives(ms, k)
  }

  lemma SurviveStep(ms: seq<Bytes>)
    requires ms != []
    ensures AllSurvive(ms) <==> Survives(ms, 0) && AllSurvive(ms[1..])
  {
    if Survives(ms, 0) && AllSurvive(ms[1..]) {
      forall k | 0 <= k < |ms| ensures Survives(ms, k) {
        if k > 0 { assert Survives(ms[1..], k - 1); }
      }
    }
    if AllSurvive(ms) {
      forall k | 0 <= k < |ms[1..]| ensures Survives(ms[1..], k) {
        assert Survives(ms, k + 1);
      }
    }
  }

  /** Reading behind an encoded length. */
  lemma AfterLength(n: nat, t: Bytes)
    ensures Next(Encoded(n) + t) == if n < LIMIT_70 && Clip(n) != 0 then Some(Chunk(t, Clip(n))) else None
    ensures n < LIMIT_70 && Clip(n) != 0 ==> Rest(Encoded(n) + t) == t[|Chunk(t, Clip(n))|..]
  {
    ReadEncoded(n, t);
    if n < LIMIT_70 {
      assert (Encoded(n) + t)[|Encoded(n)|..] == t;
    }
  }

  /** A file that ends inside a message yields what there is of it. */
  lemma CutShort(n: nat, t: Bytes)
    requires |t| < n < LIMIT_32
    ensures Next(Encoded(n) + t) == Some(t) && Rest(Encoded(n) + t) == []
  {
    ClipCases(n);
    AfterLength(n, t);
  }

  lemma ClipCases(n: nat)
    ensures n < LIMIT_32 ==> Clip(n) == n
    ensures LIMIT_32 <= n < LIMIT_63 ==> Clip(n) < n
  {
  }

  /** How the first frame is read. */
  lemma FirstFrame(m: Bytes, t: Bytes)
    ensures var s := Encoded(|m|) + m + t;
            && (|m| == 0 || |m| >= LIMIT_70 ==> Next(s).None?)
            && (0 < |m| < LIMIT_32 ==> Next(s) == Some(m) && Rest(s) == t)
            && (LIMIT_32 <= |m| < LIMIT_63 ==> Next(s).Some? ==> |Next(s).value| < |m|)
            && (LIMIT_63 <= |m| < LIMIT_70 ==> Next(s) == Some(m + t) && Rest(s) == [])
  {
    assert Encoded(|m|) + m + t == Encoded(|m|) + (m + t);
    AfterLength(|m|, m + t);
    ClipCases(|m|);
    assert (m + t)[..|m|] == m && (m + t)[|m|..] == t;
  }

  lemma ReadAllNone(s: Bytes)
    requires s == []
    ensures ReadAll(s) == []
  {
  }

  /** The messages are read back in order, and then the end is reported, if and only if every
      length survives. */
  lemma {:induction false} FramingRoundTrip(ms: seq<Bytes>)
    ensures ReadAll(Frames(ms)) == ms <==> AllSurvive(ms)
  {
    if ms != [] {
      var s, m, t := Frames(ms), ms[0], Frames(ms[1..]);
      SurviveStep(ms);
      FirstFrame(m, t);
      if 0 < |m| < LIMIT_32 {
        FramingRoundTrip(ms[1..]);
        HeadTail(m, ReadAll(t), ms);
      } else if LIMIT_63 <= |m| < LIMIT_70 {
        ReadAllNone(Rest(s));
        LastFrame(ms);
      } else if Next(s).Some? {
        assert ReadAll(s)[0] != m;
      }
    }
  }

  lemma HeadTail(m: Bytes, tail: seq<Bytes>, ms: seq<Bytes>)
    requires ms != [] && m == ms[0]
    ensures [m] + tail == ms <==> tail == ms[1..]
  {
    assert ([m] + tail)[1..] == tail;
  }

  lemma LastFrame(ms: seq<Bytes>)
    requires ms != []
    ensures [ms[0] + Frames(ms[1..])] == ms <==> |ms| == 1
  {
    if |ms| == 1 {
      assert ms[0] + Frames(ms[1..]) == ms[0];
    }
  }

  function UpToEmpty(ms: seq<Bytes>): seq<Bytes> {
    if ms == [] || ms[0] == [] then [] else [ms[0]] + UpToEmpty(ms[1..])
  }

  /** An empty message reads as the end: what follows it is lost. */
  lemma {:induction false} EmptyMessageEnds(ms: seq<Bytes>)
    requires forall k :: 0 <= k < |ms| ==> |ms[k]| < LIMIT_32
    ensures ReadAll(Frames(ms)) == UpToEmpty(ms)
  {
    if ms != [] {
      FirstFrame(ms[0], Frames(ms[1..]));
      EmptyMessageEnds(ms[1..]);
    }
  }

  /** A message behind an empty one is lost, and so is a message of 2^32 bytes. */
  lemma MessagesAreLost(long: Bytes)
    requires |long| == LIMIT_32
    ensures ReadAll(Frames([[], [1]])) == [] && ReadAll(Frames([long])) == []
  {
    EmptyMessageEnds([[], [1]]);
    assert Frames([long]) == Encoded(|long|) + (long + []);
    AfterLength(|long|, long + []);
  }
}
