/** The reorder window of gem5/util/o3-pipeview.py: instructions are queued as they retire,
    and whenever the queue passes `max_threshold` it is sorted and printed down to
    `min_threshold`; the rest is printed at the end of the trace. */
module WindowSort {
  import C = Counting

  /** An instruction record: its sequence number and the ticks the print filter looks at. */
  datatype Inst = Inst(sn: int, fetch: int, retire: int)

  /** The thresholds and the region of interest; a bound that is not positive is off. */
  datatype Window = Window(max: nat, min: nat, snStart: int, snStop: int,
                           tickStart: int, tickStop: int, onlyCommitted: bool)

  ghost predicate Valid(w: Window) {
    w.min <= w.max
  }

  // ---------------------------------------------------------------------- sorting

  /** Puts `x` behind every record whose number is not larger, as a stable sort does. */
  function Insert(x: Inst, s: seq<Inst>): (r: seq<Inst>)
    ensures |r| == |s| + 1
  {
    if s == [] || s[|s| - 1].sn <= x.sn then s + [x]
    else Insert(x, s[..|s| - 1]) + [s[|s| - 1]]
  }

  function SortBySn(s: seq<Inst>): (r: seq<Inst>)
    ensures |r| == |s|
  {
    if s == [] then [] else Insert(s[|s| - 1], SortBySn(s[..|s| - 1]))
  }

  ghost predicate Sorted(s: seq<Inst>) {
    forall i, j :: 0 <= i < j < |s| ==> s[i].sn <= s[j].sn
  }

  ghost predicate DistinctSn(s: seq<Inst>) {
    forall i, j :: 0 <= i < j < |s| ==> s[i].sn != s[j].sn
  }

  lemma {:induction false} InsertFacts(x: Inst, s: seq<Inst>)
    requires Sorted(s)
    ensures Sorted(Insert(x, s))
    ensures multiset(Insert(x, s)) == multiset(s) + multiset{x}
  {
    if s == [] || s[|s| - 1].sn <= x.sn {
    } else {
      var front, last := s[..|s| - 1], s[|s| - 1];
      InsertFacts(x, front);
      assert s == front + [last];
      var r := Insert(x, front);
      forall k | 0 <= k < |r| ensures r[k].sn <= last.sn {
        assert r[k] in multiset(r);
        assert r[k] == x || r[k] in front;
      }
    }
  }

  /** Sorting yields a sorted permutation. */
  lemma {:induction false} SortFacts(s: seq<Inst>)
    ensures Sorted(SortBySn(s))
    ensures multiset(SortBySn(s)) == multiset(s)
  {
    if s != [] {
      SortFacts(s[..|s| - 1]);
      InsertFacts(s[|s| - 1], SortBySn(s[..|s| - 1]));
      assert s == s[..|s| - 1] + [s[|s| - 1]];
    }
  }

  /** Insertion does not look at a prefix of records that are not larger. */
  lemma {:induction false} InsertAfter(x: Inst, p: seq<Inst>, s: seq<Inst>)
    requires forall k :: 0 <= k < |p| ==> p[k].sn <= x.sn
    ensures Insert(x, p + s) == p + Insert(x, s)
  {
    if s == [] {
      assert p + s == p;
    } else {
      var front, last := s[..|s| - 1], s[|s| - 1];
      assert (p + s)[..|p + s| - 1] == p + front;
      if last.sn > x.sn { InsertAfter(x, p, front); }
    }
  }

  /** A sorted sequence is left as it is. */
  lemma {:induction false} SortSorted(s: seq<Inst>)
    requires Sorted(s)
    ensures SortBySn(s) == s
  {
    if s != [] { SortSorted(s[..|s| - 1]); }
  }

  // ------------------------------------------------------------------------- counting

  /** How many records have a smaller number. */
  function Rank(s: seq<Inst>, sn: int): (r: nat)
    ensures r <= |s|
  {
    if s == [] then 0 else Rank(s[..|s| - 1], sn) + (if s[|s| - 1].sn < sn then 1 else 0)
  }

  lemma {:induction false} RankSplit(p: seq<Inst>, s: seq<Inst>, sn: int)
    ensures Rank(p + s, sn) == Rank(p, sn) + Rank(s, sn)
  {
    if s == [] {
      assert p + s == p;
    } else {
      assert (p + s)[..|p + s| - 1] == p + s[..|s| - 1];
      RankSplit(p, s[..|s| - 1], sn);
    }
  }

  function Below(x: Inst, sn: int): nat {
    if x.sn < sn then 1 else 0
  }

  lemma {:induction false} RankInsert(x: Inst, s: seq<Inst>, sn: int)
    ensures Rank(Insert(x, s), sn) == Rank(s, sn) + Below(x, sn)
  {
    if s == [] || s[|s| - 1].sn <= x.sn {
      assert (s + [x])[..|s|] == s;
    } else {
      var front, last := s[..|s| - 1], s[|s| - 1];
      RankInsert(x, front, sn);
      var r := Insert(x, front);
      assert (r + [last])[..|r|] == r;
    }
  }

  lemma {:induction false} RankSort(s: seq<Inst>, sn: int)
    ensures Rank(SortBySn(s), sn) == Rank(s, sn)
  {
    if s != [] {
      RankSort(s[..|s| - 1], sn);
      RankInsert(s[|s| - 1], SortBySn(s[..|s| - 1]), sn);
    }
  }

  /** In a sorted sequence exactly the first `Rank` records are smaller. */
  lemma {:induction false} RankSorted(s: seq<Inst>, sn: int, k: nat)
    requires Sorted(s) && k < |s|
    ensures k < Rank(s, sn) <==> s[k].sn < sn
  {
    var front := s[..|s| - 1];
    if s[|s| - 1].sn < sn {
      RankFull(s, sn);
    } else if k < |front| {
      RankSorted(front, sn, k);
    } else {
      RankSplit(front, [s[|s| - 1]], sn);
    }
  }

  lemma {:induction false} RankFull(s: seq<Inst>, sn: int)
    requires forall k :: 0 <= k < |s| ==> s[k].sn < sn
    ensures Rank(s, sn) == |s|
  {
    if s != [] { RankFull(s[..|s| - 1], sn); }
  }

  lemma {:induction false} RankZero(s: seq<Inst>, sn: int)
    requires forall k :: 0 <= k < |s| ==> s[k].sn >= sn
    ensures Rank(s, sn) == 0
  {
    if s != [] { RankZero(s[..|s| - 1], sn); }
  }

  // ------------------------------------------------------- what the window computes

  /** Records waiting and records taken out, in the order they were taken out. */
  datatype Buffer = Buffer(queue: seq<Inst>, popped: seq<Inst>)

  /** Sort, then take out from the front until at most `lower` are left. */
  function Flush(b: Buffer, lower: nat): Buffer {
    var s := SortBySn(b.queue);
    var n := if |s| > lower then |s| - lower else 0;
    Buffer(s[n..], b.popped + s[..n])
  }

  function Feed(w: Window, b: Buffer, inst: Inst): Buffer {
    var b' := b.(queue := b.queue + [inst]);
    if |b'.queue| > w.max then Flush(b', w.min) else b'
  }

  function FeedAll(w: Window, stream: seq<Inst>): Buffer {
    if stream == [] then Buffer([], [])
    else Feed(w, FeedAll(w, stream[..|stream| - 1]), stream[|stream| - 1])
  }

  /** Everything taken out over a whole trace, the flush at its end included. */
  function Output(w: Window, stream: seq<Inst>): seq<Inst> {
    Flush(FeedAll(w, stream), 0).popped
  }

  /** The number of records waiting after `a` arrivals. */
  function Backlog(w: Window, a: nat): nat {
    if a == 0 then 0
    else if Backlog(w, a - 1) + 1 > w.max then w.min
    else Backlog(w, a - 1) + 1
  }

  /** The arrivals that set off a flush. */
  predicate FlushAt(w: Window, a: nat) {
    a > 0 && Backlog(w, a - 1) + 1 > w.max
  }

  // ---------------------------------------------------------------- nothing is lost

  lemma {:induction false} FeedFacts(w: Window, stream: seq<Inst>)
    requires Valid(w)
    ensures var b := FeedAll(w, stream);
            && |b.queue| == Backlog(w, |stream|)
            && Contents(b) == multiset(stream)
  {
    if stream != [] {
      var front, last := stream[..|stream| - 1], stream[|stream| - 1];
      FeedFacts(w, front);
      assert stream == front + [last];
      FeedContents(w, FeedAll(w, front), last);
    }
  }

  function Contents(b: Buffer): multiset<Inst> {
    multiset(b.popped) + multiset(b.queue)
  }

  lemma FeedContents(w: Window, b: Buffer, x: Inst)
    ensures Contents(Feed(w, b, x)) == Contents(b) + multiset{x}
  {
    var b' := b.(queue := b.queue + [x]);
    if |b'.queue| > w.max { FlushFacts(b', w.min); }
  }

  lemma FlushFacts(b: Buffer, lower: nat)
    ensures Contents(Flush(b, lower)) == Contents(b)
  {
    var s := SortBySn(b.queue);
    SortFacts(b.queue);
    var n := if |s| > lower then |s| - lower else 0;
    assert s == s[..n] + s[n..];
  }

  /** Whatever the thresholds and the order of arrival, every queued record comes out of the
      window exactly once. */
  lemma OutputIsPermutation(w: Window, stream: seq<Inst>)
    requires Valid(w)
    ensures multiset(Output(w, stream)) == multiset(stream)
    ensures |Output(w, stream)| == |stream|
  {
    FeedFacts(w, stream);
    FlushFacts(FeedAll(w, stream), 0);
    assert |multiset(Output(w, stream))| == |multiset(stream)|;
  }

  // --------------------------------------------------------------- when it is sorted

  /** After every flush, no record that is still to come belongs among those taken out. */
  ghost predicate FlushSafe(w: Window, stream: seq<Inst>) {
    forall a: nat, j: nat :: FlushAt(w, a) && a <= j < |stream| ==> Rank(stream, stream[j].sn) >= a - w.min
  }

  /** The documented assumption: no record arrives more than `n` places after its rank. */
  ghost predicate Displaced(stream: seq<Inst>, n: nat) {
    forall j :: 0 <= j < |stream| ==> j - Rank(stream, stream[j].sn) <= n
  }

  /** The window has taken out a prefix of the sorted stream and holds the rest. */
  ghost predicate InOrder(b: Buffer, stream: seq<Inst>) {
    b.popped + SortBySn(b.queue) == SortBySn(stream)
  }

  lemma FlushInOrder(b: Buffer, lower: nat, stream: seq<Inst>)
    requires InOrder(b, stream)
    ensures InOrder(Flush(b, lower), stream)
  {
    var s := SortBySn(b.queue);
    SortFacts(b.queue);
    var n := if |s| > lower then |s| - lower else 0;
    assert Sorted(s[n..]);
    SortSorted(s[n..]);
    AppendSplit(b.popped, s, n);
  }

  lemma AppendSplit(p: seq<Inst>, s: seq<Inst>, n: nat)
    requires n <= |s|
    ensures (p + s[..n]) + s[n..] == p + s
  {
  }

  /** An arrival that is not smaller than anything taken out keeps the order. */
  lemma FeedInOrder(w: Window, b: Buffer, stream: seq<Inst>, x: Inst)
    requires InOrder(b, stream)
    requires NotLarger(b.popped, x)
    ensures InOrder(Feed(w, b, x), stream + [x])
  {
    var b' := b.(queue := b.queue + [x]);
    assert (stream + [x])[..|stream|] == stream;
    assert b'.queue[..|b.queue|] == b.queue;
    InsertAfter(x, b.popped, SortBySn(b.queue));
    if |b'.queue| > w.max { FlushInOrder(b', w.min, stream + [x]); }
  }

  /** The smallest of the records from position `a` on. */
  lemma {:induction false} SmallestFrom(s: seq<Inst>, a: nat) returns (m: nat)
    requires a < |s|
    ensures a <= m < |s| && forall j :: a <= j < |s| ==> s[m].sn <= s[j].sn
    decreases |s| - a
  {
    m := a;
    if a + 1 < |s| {
      var m' := SmallestFrom(s, a + 1);
      if s[m'].sn < s[a].sn { m := m'; }
    }
  }

  /** If no later record ranks below `n`, every later record is larger than the first `n` of
      the sorted earlier ones. */
  lemma LaterIsLarger(stream: seq<Inst>, a: nat, n: nat, j: nat, k: nat)
    requires a <= j < |stream| && k < n <= a
    requires forall i :: a <= i < |stream| ==> Rank(stream, stream[i].sn) >= n
    ensures SortBySn(stream[..a])[k].sn < stream[j].sn
  {
    var m := SmallestFrom(stream, a);
    RankAmongEarly(stream, a, m);
    SmallestOfSorted(stream[..a], stream[m].sn, k);
  }

  /** Everything smaller than the smallest later record is earlier. */
  lemma RankAmongEarly(stream: seq<Inst>, a: nat, m: nat)
    requires a <= m < |stream| && forall j :: a <= j < |stream| ==> stream[m].sn <= stream[j].sn
    ensures Rank(stream[..a], stream[m].sn) == Rank(stream, stream[m].sn)
  {
    assert stream[..a] + stream[a..] == stream;
    RankSplit(stream[..a], stream[a..], stream[m].sn);
    RankZero(stream[a..], stream[m].sn);
  }

  lemma SmallestOfSorted(s: seq<Inst>, sn: int, k: nat)
    requires k < Rank(s, sn)
    ensures SortBySn(s)[k].sn < sn
  {
    RankSort(s, sn);
    SortFacts(s);
    RankSorted(SortBySn(s), sn, k);
  }

  /** The number of records taken out after `a` arrivals is what the last flush left. */
  lemma {:induction false} LastFlush(w: Window, stream: seq<Inst>, a: nat) returns (f: nat)
    requires Valid(w) && a <= |stream|
    ensures var p := FeedAll(w, stream[..a]).popped;
            p == [] || (f <= a && FlushAt(w, f) && |p| == f - w.min && w.min <= f
                        && p == FeedAll(w, stream[..f]).popped)
  {
    f := 0;
    if a > 0 {
      assert stream[..a][..a - 1] == stream[..a - 1];
      FeedFacts(w, stream[..a - 1]);
      FeedFacts(w, stream[..a]);
      if FlushAt(w, a) {
        f := a;
        assert |FeedAll(w, stream[..a]).popped| + w.min == a by {
          var b := FeedAll(w, stream[..a]);
          assert |Contents(b)| == |multiset(stream[..a])|;
        }
      } else {
        f := LastFlush(w, stream, a - 1);
      }
    }
  }

  /** What a flush took out is smaller than every record that comes after it. */
  lemma PoppedIsSmaller(w: Window, stream: seq<Inst>, f: nat, j: nat)
    requires Valid(w) && FlushSafe(w, stream) && FlushAt(w, f) && f <= j < |stream|
    requires InOrder(FeedAll(w, stream[..f]), stream[..f])
    requires |FeedAll(w, stream[..f]).popped| == f - w.min
    ensures NotLarger(FeedAll(w, stream[..f]).popped, stream[j])
  {
    var b := FeedAll(w, stream[..f]);
    forall k | 0 <= k < |b.popped| ensures b.popped[k].sn <= stream[j].sn {
      assert b.popped[k] == (b.popped + SortBySn(b.queue))[k];
      LaterIsLarger(stream, f, f - w.min, j, k);
    }
  }

  ghost predicate NotLarger(s: seq<Inst>, x: Inst) {
    forall k :: 0 <= k < |s| ==> s[k].sn <= x.sn
  }

  lemma FeedNext(w: Window, stream: seq<Inst>, a: nat)
    requires a < |stream|
    ensures FeedAll(w, stream[..a + 1]) == Feed(w, FeedAll(w, stream[..a]), stream[a])
    ensures stream[..a + 1] == stream[..a] + [stream[a]]
  {
    var t := stream[..a + 1];
    assert t[..|t| - 1] == stream[..a] && t[|t| - 1] == stream[a];
    FeedUnfolds(w, t);
  }

  lemma FeedUnfolds(w: Window, t: seq<Inst>)
    requires t != []
    ensures FeedAll(w, t) == Feed(w, FeedAll(w, t[..|t| - 1]), t[|t| - 1])
  {
  }

  /** Along a flush-safe stream the window always holds the tail of the sorted prefix. */
  lemma {:induction false} SafePrefix(w: Window, stream: seq<Inst>, a: nat)
    requires Valid(w) && FlushSafe(w, stream) && a <= |stream|
    ensures InOrder(FeedAll(w, stream[..a]), stream[..a])
  {
    if a > 0 {
      SafePrefix(w, stream, a - 1);
      var f := LastFlush(w, stream, a - 1);
      if FeedAll(w, stream[..a - 1]).popped != [] {
        SafePrefix(w, stream, f);
        PoppedIsSmaller(w, stream, f, a - 1);
      }
      NextInOrder(w, stream, a - 1);
    }
  }

  lemma NextInOrder(w: Window, stream: seq<Inst>, a: nat)
    requires a < |stream| && InOrder(FeedAll(w, stream[..a]), stream[..a])
    requires NotLarger(FeedAll(w, stream[..a]).popped, stream[a])
    ensures InOrder(FeedAll(w, stream[..a + 1]), stream[..a + 1])
  {
    FeedInOrder(w, FeedAll(w, stream[..a]), stream[..a], stream[a]);
    FeedNext(w, stream, a);
  }

  /** What was taken out stays at the front of the output. */
  lemma {:induction false} PoppedStays(w: Window, stream: seq<Inst>, a: nat)
    requires a <= |stream|
    ensures FeedAll(w, stream[..a]).popped <= Output(w, stream)
    decreases |stream| - a
  {
    if a == |stream| {
      assert stream[..a] == stream;
    } else {
      PoppedStays(w, stream, a + 1);
      assert stream[..a + 1][..a] == stream[..a];
      assert FeedAll(w, stream[..a]).popped <= FeedAll(w, stream[..a + 1]).popped;
    }
  }

  /** In a sorted output of distinct numbers, the rank of a record is its place. */
  lemma RankIsPlace(w: Window, stream: seq<Inst>, i: nat)
    requires Valid(w) && DistinctSn(stream) && Sorted(Output(w, stream)) && i < |Output(w, stream)|
    ensures Rank(stream, Output(w, stream)[i].sn) == i
  {
    var out := Output(w, stream);
    var sn := out[i].sn;
    OutputIsPermutation(w, stream);
    RankPermutation(out, stream, sn);
    RankSorted(out, sn, i);
    if i > 0 {
      RankSorted(out, sn, i - 1);
      DistinctPermutation(out, stream, i - 1, i);
    }
  }

  /** Equal multisets give equal ranks. */
  lemma {:induction false} RankPermutation(s: seq<Inst>, t: seq<Inst>, sn: int)
    requires multiset(s) == multiset(t)
    ensures Rank(s, sn) == Rank(t, sn)
  {
    if s == [] {
      assert |multiset(t)| == 0;
    } else {
      var front, x := s[..|s| - 1], s[|s| - 1];
      assert s == front + [x];
      assert x in multiset(t);
      var k :| 0 <= k < |t| && t[k] == x;
      RemoveAt(t, k, sn);
      assert multiset(front) == multiset(s) - multiset{x};
      assert multiset(t[..k] + t[k + 1..]) == multiset(t) - multiset{x};
      RankPermutation(front, t[..k] + t[k + 1..], sn);
    }
  }

  lemma RemoveAt(t: seq<Inst>, k: nat, sn: int)
    requires k < |t|
    ensures multiset(t) == multiset(t[..k] + t[k + 1..]) + multiset{t[k]}
    ensures Rank(t, sn) == Rank(t[..k] + t[k + 1..], sn) + (if t[k].sn < sn then 1 else 0)
  {
    var one, rest := [t[k]], t[k + 1..];
    assert t == t[..k] + (one + rest);
    RankSplit(t[..k], one + rest, sn);
    RankSplit(one, rest, sn);
    RankSplit(t[..k], rest, sn);
  }

  /** A permutation of records with distinct numbers has distinct numbers. */
  lemma DistinctPermutation(s: seq<Inst>, t: seq<Inst>, i: nat, j: nat)
    requires multiset(s) == multiset(t) && DistinctSn(t) && i < j < |s|
    ensures s[i].sn != s[j].sn
  {
    if s[i].sn == s[j].sn {
      assert s[i] in multiset(t) && s[j] in multiset(t);
      var a :| 0 <= a < |t| && t[a] == s[i];
      var b :| 0 <= b < |t| && t[b] == s[j];
      assert a == b;
      assert s[i] == s[j] == t[a];
      CountTwice(s, i, j);
      CountOnce(t, a);
    }
  }

  lemma CountTwice(s: seq<Inst>, i: nat, j: nat)
    requires i < j < |s| && s[i] == s[j]
    ensures multiset(s)[s[i]] >= 2
  {
    assert s == s[..i] + [s[i]] + s[i + 1..j] + [s[j]] + s[j + 1..];
  }

  lemma CountOnce(t: seq<Inst>, a: nat)
    requires DistinctSn(t) && a < |t|
    ensures multiset(t)[t[a]] == 1
  {
    assert t == t[..a] + [t[a]] + t[a + 1..];
    assert t[a] !in t[..a] && t[a] !in t[a + 1..];
  }

  lemma PlaceOf(w: Window, stream: seq<Inst>, j: nat) returns (i: nat)
    requires Valid(w) && DistinctSn(stream) && Sorted(Output(w, stream)) && j < |stream|
    ensures i < |Output(w, stream)| && Output(w, stream)[i] == stream[j]
    ensures Rank(stream, stream[j].sn) == i
  {
    OutputIsPermutation(w, stream);
    assert stream[j] in multiset(Output(w, stream));
    i :| 0 <= i < |Output(w, stream)| && Output(w, stream)[i] == stream[j];
    RankIsPlace(w, stream, i);
  }

  lemma BehindPrefix(p: seq<Inst>, out: seq<Inst>, x: Inst)
    requires p <= out && forall k :: 0 <= k < |p| ==> p[k] != x
    ensures forall i :: 0 <= i < |out| && out[i] == x ==> i >= |p|
  {
    forall i | 0 <= i < |p| ensures out[i] != x {
      assert p[i] == out[i];
    }
  }

  lemma SortedMeansSafe(w: Window, stream: seq<Inst>, a: nat, j: nat)
    requires Valid(w) && DistinctSn(stream) && Sorted(Output(w, stream))
    requires FlushAt(w, a) && a <= j < |stream|
    ensures Rank(stream, stream[j].sn) >= a - w.min
  {
    var i := PlaceOf(w, stream, j);
    PoppedStays(w, stream, a);
    NotYetTaken(w, stream, a, j);
    BehindPrefix(FeedAll(w, stream[..a]).popped, Output(w, stream), stream[j]);
  }

  /** A flush leaves `min` records, and what comes later is not among those taken out. */
  lemma NotYetTaken(w: Window, stream: seq<Inst>, a: nat, j: nat)
    requires Valid(w) && DistinctSn(stream) && FlushAt(w, a) && a <= j < |stream|
    ensures |FeedAll(w, stream[..a]).popped| == a - w.min
    ensures forall k :: 0 <= k < a - w.min ==> FeedAll(w, stream[..a]).popped[k] != stream[j]
  {
    var b := FeedAll(w, stream[..a]);
    FeedFacts(w, stream[..a]);
    assert |Contents(b)| == |multiset(stream[..a])|;
    forall k | 0 <= k < |b.popped| ensures b.popped[k] != stream[j] {
      assert b.popped[k] in multiset(b.popped);
      assert b.popped[k] in multiset(stream[..a]);
      var i :| 0 <= i < a && stream[..a][i] == b.popped[k];
      assert stream[i].sn != stream[j].sn;
    }
  }

  /** For records with distinct numbers, the whole output is in order if and only if the
      stream is flush-safe, and it then is the sorted stream. */
  lemma SortedIff(w: Window, stream: seq<Inst>)
    requires Valid(w) && DistinctSn(stream)
    ensures Sorted(Output(w, stream)) <==> FlushSafe(w, stream)
    ensures FlushSafe(w, stream) ==> Output(w, stream) == SortBySn(stream)
  {
    if FlushSafe(w, stream) {
      SafeOutput(w, stream);
    }
    if Sorted(Output(w, stream)) {
      forall a: nat, j: nat | FlushAt(w, a) && a <= j < |stream| ensures Rank(stream, stream[j].sn) >= a - w.min {
        SortedMeansSafe(w, stream, a, j);
      }
    }
  }

  lemma SafeOutput(w: Window, stream: seq<Inst>)
    requires Valid(w) && FlushSafe(w, stream)
    ensures Output(w, stream) == SortBySn(stream) && Sorted(Output(w, stream))
  {
    var b := FeedAll(w, stream);
    SafePrefix(w, stream, |stream|);
    assert stream[..|stream|] == stream;
    FlushInOrder(b, 0, stream);
    assert Flush(b, 0).queue == [];
    SortFacts(stream);
  }

  /** The documented assumption is enough for any thresholds with min <= max. */
  lemma DisplacementSuffices(w: Window, stream: seq<Inst>)
    requires Valid(w) && Displaced(stream, w.min)
    ensures Output(w, stream) == SortBySn(stream) && Sorted(Output(w, stream))
  {
    SafeOutput(w, stream);
  }

  lemma {:induction false} BacklogFull(w: Window, a: nat)
    requires w.min == w.max && a >= w.max
    ensures Backlog(w, a) == w.max
    decreases a
  {
    if a > w.max {
      BacklogFull(w, a - 1);
    } else {
      BacklogRises(w, a);
    }
  }

  lemma {:induction false} BacklogRises(w: Window, a: nat)
    requires a <= w.max
    ensures Backlog(w, a) == a
  {
    if a > 0 { BacklogRises(w, a - 1); }
  }

  lemma {:induction false} BacklogCycles(w: Window, a: nat, k: nat)
    requires Valid(w) && a > w.max && a == w.max + 1 + k
    ensures Backlog(w, a) == w.min + k % (w.max - w.min + 1)
    decreases k
  {
    var n := w.max - w.min + 1;
    if k == 0 {
      BacklogRises(w, w.max);
    } else {
      BacklogCycles(w, a - 1, k - 1);
      RemainderNext(k - 1, n);
    }
  }

  lemma RemainderNext(k: nat, n: nat)
    requires n > 0
    ensures (k + 1) % n == if k % n == n - 1 then 0 else k % n + 1
  {
    assert k == k / n * n + k % n;
    if k % n == n - 1 {
      assert k + 1 == (k / n + 1) * n;
      C.QuotientIs(k + 1, n, k / n + 1, 0);
    } else {
      C.QuotientIs(k + 1, n, k / n, k % n + 1);
    }
  }

  /** The queue is flushed by arrival max + 1 and then by every (max - min + 1)-th one. */
  lemma FlushTimes(w: Window, a: nat)
    requires Valid(w)
    ensures FlushAt(w, a) <==> a > w.max && (a - w.max - 1) % (w.max - w.min + 1) == 0
  {
    if a > w.max + 1 {
      BacklogCycles(w, a - 1, a - w.max - 2);
      RemainderNext(a - w.max - 2, w.max - w.min + 1);
    } else if a > 0 {
      BacklogRises(w, a - 1);
    }
  }

  /** It is also necessary as soon as printing stops where sorting started: with equal
      thresholds the output is in order exactly when the assumption holds. */
  lemma DisplacementIff(w: Window, stream: seq<Inst>)
    requires w.min == w.max && DistinctSn(stream)
    ensures Sorted(Output(w, stream)) <==> Displaced(stream, w.min)
  {
    SortedIff(w, stream);
    if FlushSafe(w, stream) {
      forall j | 0 <= j < |stream| ensures j - Rank(stream, stream[j].sn) <= w.min {
        if j > w.max {
          BacklogFull(w, j - 1);
          assert FlushAt(w, j);
        }
      }
    }
  }

  // -------------------------------------------------------------------- the print filter

  /** Inside the region of interest, and committed if only those are wanted. */
  predicate Wanted(w: Window, x: Inst) {
    && !(w.snStart > 0 && x.sn < w.snStart)
    && !(w.snStop > 0 && x.sn > w.snStop)
    && !(w.tickStart > 0 && x.fetch < w.tickStart)
    && !(w.tickStop > 0 && x.fetch > w.tickStop)
    && !(w.onlyCommitted && x.retire == 0)
  }

  function Printed(w: Window, s: seq<Inst>): seq<Inst> {
    if s == [] then []
    else Printed(w, s[..|s| - 1]) + (if Wanted(w, s[|s| - 1]) then [s[|s| - 1]] else [])
  }

  function Skipped(w: Window, s: seq<Inst>): seq<Inst> {
    if s == [] then []
    else Skipped(w, s[..|s| - 1]) + (if Wanted(w, s[|s| - 1]) then [] else [s[|s| - 1]])
  }

  lemma {:induction false} PrintedAppend(w: Window, s: seq<Inst>, t: seq<Inst>)
    ensures Printed(w, s + t) == Printed(w, s) + Printed(w, t)
  {
    if t == [] {
      assert s + t == s;
    } else {
      assert (s + t)[..|s + t| - 1] == s + t[..|t| - 1];
      PrintedAppend(w, s, t[..|t| - 1]);
    }
  }

  /** Filtering splits the records in two. */
  lemma {:induction false} FilterSplits(w: Window, s: seq<Inst>)
    ensures multiset(Printed(w, s)) + multiset(Skipped(w, s)) == multiset(s)
  {
    if s != [] {
      FilterSplits(w, s[..|s| - 1]);
      assert s == s[..|s| - 1] + [s[|s| - 1]];
    }
  }

  /** Exactly the wanted records are printed, in their order. */
  lemma {:induction false} FilterKeeps(w: Window, s: seq<Inst>)
    ensures forall x :: x in Printed(w, s) <==> x in s && Wanted(w, x)
  {
    if s != [] {
      FilterKeeps(w, s[..|s| - 1]);
      assert s == s[..|s| - 1] + [s[|s| - 1]];
    }
  }

  lemma {:induction false} FilterSorted(w: Window, s: seq<Inst>)
    requires Sorted(s)
    ensures Sorted(Printed(w, s))
  {
    if s != [] {
      var front, x := s[..|s| - 1], s[|s| - 1];
      FilterSorted(w, front);
      FilterKeeps(w, front);
      var p := Printed(w, front);
      forall k | 0 <= k < |p| ensures p[k].sn <= x.sn {
        assert p[k] in front;
      }
    }
  }

  /** Over a whole trace every queued record is printed exactly once or filtered exactly once,
      and under the documented assumption the printed ones come in increasing order. */
  lemma PrintedTrace(w: Window, stream: seq<Inst>)
    requires Valid(w)
    ensures multiset(Printed(w, Output(w, stream))) + multiset(Skipped(w, Output(w, stream))) == multiset(stream)
    ensures forall x :: x in Printed(w, Output(w, stream)) <==> x in stream && Wanted(w, x)
    ensures Displaced(stream, w.min) ==> Sorted(Printed(w, Output(w, stream)))
  {
    var out := Output(w, stream);
    OutputIsPermutation(w, stream);
    assert forall x :: x in out <==> x in multiset(out);
    FilterSplits(w, out);
    FilterKeeps(w, out);
    if Displaced(stream, w.min) {
      DisplacementSuffices(w, stream);
      FilterSorted(w, out);
    }
  }

  /** Inside two inclusive bounds, of which a bound that is not positive is off. */
  ghost predicate Within(x: int, low: int, high: int) {
    (low > 0 ==> low <= x) && (high > 0 ==> x <= high)
  }

  /** What is printed of a trace: the records with a sequence number and a fetch tick inside the
      bounds and, if only those are wanted, with a retire tick. */
  lemma RegionIff(w: Window, stream: seq<Inst>, x: Inst)
    requires Valid(w)
    ensures x in Printed(w, Output(w, stream)) <==>
            && x in stream && Within(x.sn, w.snStart, w.snStop) && Within(x.fetch, w.tickStart, w.tickStop)
            && (w.onlyCommitted ==> x.retire != 0)
  {
    PrintedTrace(w, stream);
  }

  /** With every bound off nothing is dropped, and the order is that of the queue. */
  lemma {:induction false} NoRegion(w: Window, s: seq<Inst>)
    requires w.snStart <= 0 && w.snStop <= 0 && w.tickStart <= 0 && w.tickStop <= 0 && !w.onlyCommitted
    ensures Printed(w, s) == s
  {
    if s != [] { NoRegion(w, s[..|s| - 1]); }
  }

  lemma TakeOne(before: seq<Inst>, s: seq<Inst>, n: nat)
    requires n < |s|
    ensures s[n..][0] == s[n] && s[n..][1..] == s[n + 1..]
    ensures (before + s[..n]) + [s[n]] == before + s[..n + 1]
  {
  }

  // ------------------------------------------------------------------------ the viewer

  /** The global print queue and the output file. `popped` is history: everything taken out
      of the queue. */
  class Viewer {
    const w: Window
    var queue: seq<Inst>
    var printed: seq<Inst>
    ghost var popped: seq<Inst>

    ghost predicate Consistent()
      reads this
    {
      Valid(w) && printed == Printed(w, popped)
    }

    constructor (w: Window)
      requires Valid(w)
      ensures Consistent() && this.w == w && queue == [] && popped == []
    {
      this.w := w;
      queue, printed, popped := [], [], [];
    }

    /** Appends a record and flushes down to `min` when the queue passes `max`. */
    method QueueInst(inst: Inst)
      requires Consistent()
      modifies this
      ensures Consistent() && Buffer(queue, popped) == Feed(w, old(Buffer(queue, popped)), inst)
    {
      queue := queue + [inst];
      if |queue| > w.max {
        PrintInsts(w.min);
      }
    }

    /** Sorts the queue and prints its front until at most `lower` records are left. */
    method PrintInsts(lower: nat)
      requires Consistent()
      modifies this
      ensures Consistent() && Buffer(queue, popped) == Flush(old(Buffer(queue, popped)), lower)
    {
      ghost var before := popped;
      queue := SortBySn(queue);
      ghost var s := queue;
      ghost var n := 0;
      while |queue| > lower
        invariant Consistent() && n <= |s| && queue == s[n..] && popped == before + s[..n]
        invariant n == 0 || n <= |s| - lower
      {
        TakeOne(before, s, n);
        var item := queue[0];
        queue := queue[1..];
        PrintItem(item);
        n := n + 1;
      }
    }

    /** Prints one record taken out of the queue unless it is filtered. */
    method PrintItem(item: Inst)
      requires Consistent()
      modifies this`printed, this`popped
      ensures Consistent() && popped == old(popped) + [item]
      ensures printed == old(printed) + if Wanted(w, item) then [item] else []
    {
      PrintedAppend(w, popped, [item]);
      popped := popped + [item];
      if w.snStart > 0 && item.sn < w.snStart { return; }
      if w.snStop > 0 && item.sn > w.snStop { return; }
      if w.tickStart > 0 && item.fetch < w.tickStart { return; }
      if w.tickStop > 0 && item.fetch > w.tickStop { return; }
      if w.onlyCommitted && item.retire == 0 { return; }
      printed := printed + [item];
    }

    /** A whole trace: every retired instruction is queued, and the end of the file flushes
        what is left. */
    method ProcessTrace(stream: seq<Inst>)
      requires Consistent() && queue == [] && popped == []
      modifies this
      ensures Consistent() && queue == []
      ensures popped == Output(w, stream)
      ensures printed == Printed(w, Output(w, stream))
    {
      for a := 0 to |stream|
        invariant Consistent() && Buffer(queue, popped) == FeedAll(w, stream[..a])
      {
        FeedNext(w, stream, a);
        QueueInst(stream[a]);
      }
      assert stream[..|stream|] == stream;
      PrintInsts(0);
    }
  }
}
