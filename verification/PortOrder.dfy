/** The sorted order of connections, and why the outcome of binding does not depend on the
    order in which the connections were gathered. */
module PortOrder {
  import opened Counting
  import opened NameOrder
  import opened PortBinding

  // ------------------------------------------------------------------ the order of ports

  /** By object, then by port, then by index. */
  ghost predicate PortBefore(a: Port, b: Port) {
    || Before(a.obj, b.obj)
    || (a.obj == b.obj && Before(a.port, b.port))
    || (a.obj == b.obj && a.port == b.port && a.index < b.index)
  }

  lemma CompareFacts(a: Port, b: Port)
    ensures Compare(a, b) < 0 <==> PortBefore(a, b)
    ensures Compare(a, b) > 0 <==> PortBefore(b, a)
    ensures Compare(a, b) == 0 <==> a == b
  {
    CompareIff(a.obj, b.obj);
    CompareIff(a.port, b.port);
    BeforeIsTotal(a.obj, b.obj);
    BeforeIsTotal(a.port, b.port);
  }

  lemma PortTransitive(a: Port, b: Port, c: Port)
    requires PortBefore(a, b) && PortBefore(b, c)
    ensures PortBefore(a, c)
  {
    if Before(a.obj, b.obj) && Before(b.obj, c.obj) {
      BeforeTransitive(a.obj, b.obj, c.obj);
    } else if a.obj == b.obj == c.obj && Before(a.port, b.port) && Before(b.port, c.port) {
      BeforeTransitive(a.port, b.port, c.port);
    }
  }

  /** By the near end, then by the far end. */
  ghost predicate ConnBefore(c: Conn, d: Conn) {
    PortBefore(c.0, d.0) || (c.0 == d.0 && PortBefore(c.1, d.1))
  }

  /** The order of the sort is a total order: by object, port and index of the near end and
      then of the far end. */
  lemma LessEqIff(c: Conn, d: Conn)
    ensures LessEq(c, d) <==> c == d || ConnBefore(c, d)
    ensures LessEq(c, d) || LessEq(d, c)
    ensures LessEq(c, d) && LessEq(d, c) ==> c == d
  {
    CompareFacts(c.0, d.0);
    CompareFacts(c.1, d.1);
    CompareFacts(d.0, c.0);
    CompareFacts(d.1, c.1);
  }

  lemma LessEqTransitive(c: Conn, d: Conn, e: Conn)
    requires LessEq(c, d) && LessEq(d, e)
    ensures LessEq(c, e)
  {
    LessEqIff(c, d);
    LessEqIff(d, e);
    LessEqIff(c, e);
    if PortBefore(c.0, d.0) && PortBefore(d.0, e.0) { PortTransitive(c.0, d.0, e.0); }
    if PortBefore(c.1, d.1) && PortBefore(d.1, e.1) { PortTransitive(c.1, d.1, e.1); }
  }

  // ---------------------------------------------------------------------------- the sort

  ghost predicate Sorted(s: seq<Conn>) {
    forall i, j :: 0 <= i < j < |s| ==> LessEq(s[i], s[j])
  }

  lemma {:induction false} InsertSorted(c: Conn, s: seq<Conn>)
    requires Sorted(s)
    ensures Sorted(Insert(c, s))
  {
    if s != [] {
      var front, last := s[..|s| - 1], s[|s| - 1];
      LessEqIff(last, c);
      if LessEq(last, c) {
        forall i | 0 <= i < |s| ensures LessEq(s[i], c) {
          if i < |s| - 1 { LessEqTransitive(s[i], last, c); }
        }
      } else {
        InsertSorted(c, front);
        InsertPermutes(c, front);
        var r := Insert(c, front);
        forall i | 0 <= i < |r| ensures LessEq(r[i], last) {
          assert r[i] in multiset(r);
          assert r[i] == c || r[i] in front;
        }
      }
    }
  }

  /** The pass sees the connections in order. */
  lemma {:induction false} SortIsSorted(s: seq<Conn>)
    ensures Sorted(SortConns(s))
  {
    if s != [] {
      SortIsSorted(s[..|s| - 1]);
      InsertSorted(s[|s| - 1], SortConns(s[..|s| - 1]));
    }
  }

  lemma LastIsLargest(a: seq<Conn>, b: seq<Conn>)
    requires Sorted(a) && Sorted(b) && multiset(a) == multiset(b) && a != []
    ensures b != [] && a[|a| - 1] == b[|b| - 1]
  {
    var x := a[|a| - 1];
    assert x in multiset(b);
    var y := b[|b| - 1];
    assert y in multiset(a);
    var i :| 0 <= i < |b| && b[i] == x;
    var j :| 0 <= j < |a| && a[j] == y;
    LessEqIff(x, y);
    LessEqIff(y, x);
  }

  lemma LastApart(a: seq<Conn>)
    requires a != []
    ensures multiset(a) == multiset(a[..|a| - 1]) + multiset{a[|a| - 1]}
  {
    assert a == a[..|a| - 1] + [a[|a| - 1]];
  }

  lemma WithoutLast(a: seq<Conn>, b: seq<Conn>, x: Conn)
    requires a != [] && b != [] && a[|a| - 1] == b[|b| - 1] == x && multiset(a) == multiset(b)
    ensures multiset(a[..|a| - 1]) == multiset(b[..|b| - 1])
  {
    LastApart(a);
    LastApart(b);
    assert multiset(a) - multiset{x} == multiset(a[..|a| - 1]);
  }

  lemma FrontSorted(a: seq<Conn>)
    requires Sorted(a) && a != []
    ensures Sorted(a[..|a| - 1])
  {
  }

  /** There is one sorted list of the same connections only. */
  lemma {:induction false} SortedIsUnique(a: seq<Conn>, b: seq<Conn>)
    requires Sorted(a) && Sorted(b) && multiset(a) == multiset(b)
    ensures a == b
    decreases |a|
  {
    if a == [] {
      assert |multiset(b)| == 0;
    } else {
      LastIsLargest(a, b);
      var x := a[|a| - 1];
      WithoutLast(a, b, x);
      FrontSorted(a);
      FrontSorted(b);
      SortedIsUnique(a[..|a| - 1], b[..|b| - 1]);
      assert a == a[..|a| - 1] + [x] && b == b[..|b| - 1] + [x];
    }
  }

  lemma SameStarts(a: seq<Conn>, b: seq<Conn>)
    requires multiset(a) == multiset(b)
    ensures |a| == |b| && Starts(a) == Starts(b)
  {
    assert |multiset(a)| == |a| && |multiset(b)| == |b|;
    forall k ensures k in Starts(a) <==> k in Starts(b) {
      if k in Starts(a) {
        var j :| 0 <= j < |a| && KeyOf(a[j].0) == k;
        assert a[j] in multiset(b);
        var i :| 0 <= i < |b| && b[i] == a[j];
      }
      if k in Starts(b) {
        var j :| 0 <= j < |b| && KeyOf(b[j].0) == k;
        assert b[j] in multiset(a);
        var i :| 0 <= i < |a| && a[i] == b[j];
      }
    }
  }

  /** The order in which connections were gathered does not matter: neither for the bindings
      nor for the two errors. */
  lemma OrderDoesNotMatter(a: seq<Conn>, b: seq<Conn>)
    requires multiset(a) == multiset(b)
    ensures SortConns(a) == SortConns(b) && Outcome(a) == Outcome(b)
    ensures Fails(SortConns(a), Starts(a)) <==> Fails(SortConns(b), Starts(b))
  {
    SortPermutes(a);
    SortPermutes(b);
    SortIsSorted(a);
    SortIsSorted(b);
    SortedIsUnique(SortConns(a), SortConns(b));
    SameStarts(a, b);
  }

  // -------------------------------------------------------- the example in the comments

  function A(index: nat): Port { Port("a", "b", index) }

  function D(index: nat): Port { Port("d", "f", index) }

  const EG: Port := Port("e", "g", 0)

  const FH: Port := Port("f", "h", 0)

  /** The three connections, in both directions and in order. */
  function Documented(): seq<Conn> {
    [(A(0), D(1)), (A(1), EG), (D(0), FH), (D(1), A(0)), (EG, A(1)), (FH, D(0))]
  }

  lemma OneBefore(x: char, y: char)
    requires x < y
    ensures Before([x], [y])
  {
    assert DiffersAt([x], [y], 0);
  }

  lemma NextIsLess(c: Conn, d: Conn)
    requires ConnBefore(c, d)
    ensures LessEq(c, d)
  {
    LessEqIff(c, d);
  }

  lemma DocumentedIsSorted()
    ensures SortConns(Documented()) == Documented()
  {
    var t := Documented();
    OneBefore('a', 'd');
    OneBefore('d', 'e');
    OneBefore('e', 'f');
    NextIsLess(t[0], t[1]);
    NextIsLess(t[1], t[2]);
    NextIsLess(t[2], t[3]);
    NextIsLess(t[3], t[4]);
    NextIsLess(t[4], t[5]);
    SortSorted(t);
  }

  /** What the pass makes of them. */
  function Bindable(): seq<Conn> {
    [(D(0), FH), (D(1), A(0)), (EG, A(1))]
  }

  /** The pass goes on with an entry whose ends find these counters. */
  lemma PickNext(list: seq<Conn>, i: nat, made: seq<Conn>, near: nat, far: nat)
    requires i < |list| && Pick(list[..i]) == made
    requires Bound(made, KeyOf(list[i].0)) == near && Bound(made, KeyOf(list[i].1)) == far
    ensures Pick(list[..i + 1]) ==
            if near == list[i].0.index && far == list[i].1.index then made + [list[i]] else made
  {
    assert list[..i + 1][..i] == list[..i];
  }

  lemma BoundOne(c: Conn, k: Key)
    ensures Bound([c], k) == Uses(c, k)
  {
    assert [c][..0] == [];
  }

  lemma BoundTwo(c: Conn, d: Conn, k: Key)
    ensures Bound([c, d], k) == Uses(c, k) + Uses(d, k)
  {
    assert [c, d][..1] == [c];
    BoundOne(c, k);
  }

  lemma BoundThree(c: Conn, d: Conn, e: Conn, k: Key)
    ensures Bound([c, d, e], k) == Uses(c, k) + Uses(d, k) + Uses(e, k)
  {
    assert [c, d, e][..2] == [c, d];
    BoundTwo(c, d, k);
  }

  lemma ObjectsDiffer()
    ensures "a" != "d" && "a" != "e" && "a" != "f" && "d" != "e" && "d" != "f" && "e" != "f"
  {
    assert "a"[0] == 'a' && "d"[0] == 'd' && "e"[0] == 'e' && "f"[0] == 'f';
  }

  lemma FirstPicks()
    ensures Pick(Documented()[..3]) == [(D(0), FH)]
  {
    var t := Documented();
    assert t[..0] == [];
    PickNext(t, 0, [], 0, 0);
    PickNext(t, 1, [], 0, 0);
    PickNext(t, 2, [], 0, 0);
    assert [] + [t[2]] == [(D(0), FH)];
  }

  lemma SecondPick()
    ensures Pick(Documented()[..4]) == [(D(0), FH), (D(1), A(0))]
  {
    var t, c := Documented(), (D(0), FH);
    FirstPicks();
    ObjectsDiffer();
    BoundOne(c, KeyOf(D(1)));
    BoundOne(c, KeyOf(A(0)));
    PickNext(t, 3, [c], 1, 0);
    assert [c] + [t[3]] == [c, (D(1), A(0))];
  }

  lemma ThirdPick()
    ensures Pick(Documented()[..5]) == Bindable()
  {
    var t, c, d := Documented(), (D(0), FH), (D(1), A(0));
    SecondPick();
    ObjectsDiffer();
    BoundTwo(c, d, KeyOf(EG));
    BoundTwo(c, d, KeyOf(A(1)));
    PickNext(t, 4, [c, d], 0, 1);
    assert [c, d] + [t[4]] == Bindable();
  }

  lemma DocumentedPick()
    ensures Pick(Documented()) == Bindable()
  {
    var t, m := Documented(), Bindable();
    ThirdPick();
    ObjectsDiffer();
    BoundThree(m[0], m[1], m[2], KeyOf(FH));
    BoundThree(m[0], m[1], m[2], KeyOf(D(0)));
    assert m == [m[0], m[1], m[2]];
    PickNext(t, 5, m, 1, 2);
    assert t[..6] == t;
  }

  /** Gathered in whatever order, these connections are all made. */
  lemma DocumentedIsBound(gathered: seq<Conn>)
    requires multiset(gathered) == multiset(Documented())
    ensures Outcome(gathered) == Bindings(Bindable())
  {
    OrderDoesNotMatter(gathered, Documented());
    DocumentedIsSorted();
    DocumentedPick();
  }
}
