/** What the count at the end of the port-binding pass guarantees. */
module PortBindingTheorems {
  import opened Counting
  import opened PortBinding
  import opened Sequences

  // ------------------------------------------------- connections made in index order

  /** Every connection was next in line at both of its ports when it was made. */
  ghost predicate InTurn(made: seq<Conn>) {
    made == [] || (InTurn(Front(made)) && Fits(Front(made), Last(made)))
  }

  /** Both ends of every connection. */
  function Ends(made: seq<Conn>): (r: seq<Port>)
    ensures |r| == 2 * |made|
  {
    if made == [] then [] else Ends(Front(made)) + [Last(made).0, Last(made).1]
  }

  lemma {:induction false} PickInTurn(list: seq<Conn>)
    ensures InTurn(Pick(list))
    ensures forall c :: c in Pick(list) ==> c in list
  {
    if list != [] {
      PickInTurn(Front(list));
      var made, c := Pick(Front(list)), Last(list);
      assert Front(made + [c]) == made;
      assert list == Front(list) + [c];
    }
  }

  lemma {:induction false} EndsMembers(made: seq<Conn>, e: Port)
    ensures e in Ends(made) <==> exists c :: c in made && (c.0 == e || c.1 == e)
  {
    if made != [] {
      EndsMembers(Front(made), e);
      var front, last := Front(made), Last(made);
      assert made == front + [last];
      assert last in made;
      if exists c :: c in made && (c.0 == e || c.1 == e) {
        var c :| c in made && (c.0 == e || c.1 == e);
        if c != last { assert c in front; }
      }
    }
  }

  /** An end that is bound lies below its port's index counter. */
  lemma {:induction false} EndsBelow(made: seq<Conn>, e: Port)
    requires InTurn(made) && e in Ends(made)
    ensures e.index < Bound(made, KeyOf(e))
  {
    if e in Ends(Front(made)) { EndsBelow(Front(made), e); }
  }

  /** No end is bound twice. */
  lemma {:induction false} EndsDistinct(made: seq<Conn>)
    requires InTurn(made) && NoSelf(made)
    ensures Distinct(Ends(made))
  {
    if made != [] {
      var front, last := Front(made), Last(made);
      assert made == front + [last];
      assert last in made && forall c :: c in front ==> c in made;
      EndsDistinct(front);
      if last.0 in Ends(front) { EndsBelow(front, last.0); }
      if last.1 in Ends(front) { EndsBelow(front, last.1); }
    }
  }

  /** The ends bound at a port are exactly those with the indices 0 up to its counter. */
  lemma {:induction false} EndsFull(made: seq<Conn>, k: Key, i: nat)
    requires InTurn(made) && NoSelf(made)
    ensures Port(k.0, k.1, i) in Ends(made) <==> i < Bound(made, k)
  {
    var e := Port(k.0, k.1, i);
    if e in Ends(made) {
      EndsBelow(made, e);
    }
    if made != [] {
      var front, last := Front(made), Last(made);
      assert made == front + [last];
      assert last in made && forall c :: c in front ==> c in made;
      EndsFull(front, k, i);
      if Bound(front, k) <= i < Bound(made, k) {
        assert last.0 == e || last.1 == e by { LastEnd(front, last, k, i); }
      }
    }
  }

  lemma LastEnd(front: seq<Conn>, c: Conn, k: Key, i: nat)
    requires Fits(front, c) && c.0 != c.1
    requires Bound(front, k) <= i < Bound(front, k) + Uses(c, k)
    ensures c.0 == Port(k.0, k.1, i) || c.1 == Port(k.0, k.1, i)
  {
    assert KeyOf(c.0) == KeyOf(c.1) && c.0.index == c.1.index ==> c.0 == c.1;
  }

  // ------------------------------------------------------------- the count is enough

  ghost predicate Completes(list: seq<Conn>, made: seq<Conn>) {
    forall c :: c in list ==> c in made || Swap(c) in made
  }

  /** Every connection is made in exactly one direction, exactly once. */
  ghost predicate OncePerPair(list: seq<Conn>, made: seq<Conn>) {
    forall c :: c in list ==> multiset(made)[c] + multiset(made)[Swap(c)] == 1
  }

  /** Some entry starts at the end `e`. */
  ghost predicate StartsAt(list: seq<Conn>, e: Port) {
    exists c :: c in list && c.0 == e
  }

  lemma FromsMembers(list: seq<Conn>, e: Port)
    ensures e in Froms(list) <==> StartsAt(list, e)
  {
    if e in Froms(list) {
      var i :| 0 <= i < |list| && Froms(list)[i] == e;
      assert list[i] in list;
    }
    if StartsAt(list, e) {
      var c :| c in list && c.0 == e;
      var i :| 0 <= i < |list| && list[i] == c;
      assert Froms(list)[i] == e;
    }
  }

  /** Whatever is made uses listed ends only. */
  lemma EndsListed(list: seq<Conn>, made: seq<Conn>, e: Port)
    requires SwapClosed(list) && (forall c :: c in made ==> c in list) && e in Ends(made)
    ensures e in Froms(list)
  {
    EndsMembers(made, e);
    var c :| c in made && (c.0 == e || c.1 == e);
    FromsMembers(list, e);
    assert Swap(c) in list;
    assert Swap(c).0 == c.1;
  }

  lemma {:induction false} SetCard<T>(s: seq<T>)
    ensures |set x | x in s| <= |s|
    ensures |set x | x in s| == |s| ==> Distinct(s)
  {
    if s == [] {
      assert (set x | x in s) == {};
    } else {
      var front, last := s[..|s| - 1], s[|s| - 1];
      SetCard(front);
      assert s == front + [last];
      assert (set x | x in s) == (set x | x in front) + {last};
    }
  }

  ghost function Values<T(!new)>(s: seq<T>): set<T> {
    set x | x in s
  }

  /** Half of the entries made: then every end is listed once and every listed end is bound. */
  lemma HalfBindsAllEnds(list: seq<Conn>, made: seq<Conn>)
    requires SwapClosed(list) && NoSelf(list) && InTurn(made) && (forall c :: c in made ==> c in list)
    requires 2 * |made| == |list|
    ensures UniqueEnds(list)
    ensures Values(Ends(made)) == Values(Froms(list))
  {
    EndsDistinct(made);
    DistinctCard(Ends(made));
    SetCard(Froms(list));
    assert Values(Ends(made)) == set e | e in Ends(made);
    assert Values(Froms(list)) == set e | e in Froms(list);
    forall e | e in Ends(made) ensures e in Froms(list) { EndsListed(list, made, e); }
    SubsetCard(Values(Ends(made)), Values(Froms(list)));
    SubsetCardEqual(Values(Ends(made)), Values(Froms(list)));
  }

  /** Two entries that start at the same end are the same entry. */
  lemma SameFrom(list: seq<Conn>, c: Conn, d: Conn)
    requires UniqueEnds(list) && c in list && d in list && c.0 == d.0
    ensures c == d
  {
    var i :| 0 <= i < |list| && list[i] == c;
    var j :| 0 <= j < |list| && list[j] == d;
    assert Froms(list)[i] == Froms(list)[j];
  }

  /** A connection one of whose ends is bound has been made. */
  lemma BoundEndIsMade(list: seq<Conn>, made: seq<Conn>, c: Conn)
    requires SwapClosed(list) && UniqueEnds(list) && (forall d :: d in made ==> d in list) && c in list
    requires c.0 in Ends(made) || c.1 in Ends(made)
    ensures c in made || Swap(c) in made
  {
    var e := if c.0 in Ends(made) then c.0 else c.1;
    EndsMembers(made, e);
    var d :| d in made && (d.0 == e || d.1 == e);
    assert d in list && Swap(d) in list && Swap(c) in list;
    assert Swap(Swap(d)) == d && Swap(Swap(c)) == c;
    var from := if d.0 == e then d else Swap(d);
    SameFrom(list, if e == c.0 then c else Swap(c), from);
  }

  lemma AtMostOnce(made: seq<Conn>, c: Conn)
    requires InTurn(made) && NoSelf(made)
    ensures multiset(made)[c] + multiset(made)[Swap(c)] <= 1
    decreases made
  {
    if made != [] {
      var front, last := Front(made), Last(made);
      assert made == front + [last];
      assert last in made && forall d :: d in front ==> d in made;
      AtMostOnce(front, c);
      if last == c || last == Swap(c) {
        assert c !in front && Swap(c) !in front by {
          forall d | d in front ensures d != c && d != Swap(c) {
            EndsMembers(front, last.0);
            if last.0 in Ends(front) { EndsBelow(front, last.0); }
          }
        }
      }
    }
  }

  /** The check is sound: if a swap-closed list without self-connections passes the count,
      every connection is made exactly once in exactly one direction, the listed ends are
      unique, and the ends of each port are bound in index order without a gap. */
  lemma CountIsEnough(list: seq<Conn>)
    requires SwapClosed(list) && NoSelf(list) && 2 * |Pick(list)| == |list|
    ensures OncePerPair(list, Pick(list))
    ensures UniqueEnds(list) && InTurn(Pick(list))
    ensures forall k: Key, i: nat :: Port(k.0, k.1, i) in Froms(list) <==> i < Bound(Pick(list), k)
  {
    var made := Pick(list);
    PickInTurn(list);
    HalfBindsAllEnds(list, made);
    forall c | c in list ensures multiset(made)[c] + multiset(made)[Swap(c)] == 1 {
      FromsMembers(list, c.0);
      assert c.0 in Values(Froms(list));
      BoundEndIsMade(list, made, c);
      AtMostOnce(made, c);
    }
    forall k: Key, i: nat ensures Port(k.0, k.1, i) in Froms(list) <==> i < Bound(made, k) {
      EndsFull(made, k, i);
      assert Port(k.0, k.1, i) in Values(Froms(list)) <==> Port(k.0, k.1, i) in Values(Ends(made));
    }
  }

  /** The same for bind_ports on the list as it was gathered: when it does not raise, every
      connection is made exactly once in exactly one direction, and each port receives the
      indices 0, 1, 2, ... in this order. */
  lemma BindPortsIsSound(connections: seq<Conn>)
    requires SwapClosed(connections) && NoSelf(connections) && Outcome(connections).Bindings?
    ensures OncePerPair(connections, Outcome(connections).made)
    ensures InTurn(Outcome(connections).made)
    ensures forall k: Key, i: nat ::
              StartsAt(connections, Port(k.0, k.1, i)) <==> i < Bound(Outcome(connections).made, k)
  {
    var list := SortConns(connections);
    SortPermutes(connections);
    assert SwapClosed(list) && NoSelf(list);
    CountIsEnough(list);
    forall k: Key, i: nat ensures StartsAt(connections, Port(k.0, k.1, i)) <==> i < Bound(Pick(list), k) {
      var e := Port(k.0, k.1, i);
      FromsMembers(list, e);
      assert StartsAt(connections, e) <==> StartsAt(list, e) by {
        if StartsAt(connections, e) { var c :| c in connections && c.0 == e; assert c in list; }
        if StartsAt(list, e) { var c :| c in list && c.0 == e; assert c in connections; }
      }
    }
  }

  // -------------------------------------------------------------- self-connections

  lemma {:induction false} SelfEndTwice(made: seq<Conn>, c: Conn)
    requires c in made && c.0 == c.1
    ensures !Distinct(Ends(made))
  {
    if Last(made) == c {
      assert Ends(made)[|Ends(made)| - 2] == Ends(made)[|Ends(made)| - 1];
    } else {
      assert made == Front(made) + [Last(made)];
      SelfEndTwice(Front(made), c);
      var e := Ends(Front(made));
      var i, j :| 0 <= i < j < |e| && e[i] == e[j];
      assert Ends(made)[i] == Ends(made)[j];
    }
  }

  /** A port connected to itself is counted as two ends but listed as one entry. So, among
      the lists that pass the count, the check is right exactly for those without a
      self-connection. */
  lemma SelfConnectionIff(list: seq<Conn>)
    requires SwapClosed(list) && UniqueEnds(list) && 2 * |Pick(list)| == |list|
    ensures Completes(list, Pick(list)) <==> NoSelf(list)
  {
    var made := Pick(list);
    PickInTurn(list);
    if NoSelf(list) {
      CountIsEnough(list);
      forall c | c in list ensures c in made || Swap(c) in made {
        assert c in multiset(made) || Swap(c) in multiset(made);
      }
    } else if Completes(list, made) {
      var c :| c in list && c.0 == c.1;
      assert Swap(c) == c;
      SelfEndTwice(made, c);
      AllEndsBound(list, made);
      SetCard(Ends(made));
      DistinctCard(Froms(list));
      assert false;
    }
  }

  lemma AllEndsBound(list: seq<Conn>, made: seq<Conn>)
    requires Completes(list, made)
    ensures Values(Froms(list)) <= Values(Ends(made))
    ensures |Values(Froms(list))| <= |Values(Ends(made))|
  {
    forall e | e in Froms(list) ensures e in Ends(made) {
      FromsMembers(list, e);
      EndsMembers(made, e);
      var c :| c in list && c.0 == e;
      assert Swap(c).1 == e;
    }
    SubsetCard(Values(Froms(list)), Values(Ends(made)));
  }

  /** And such lists do pass: two ends of one port, each connected to itself, of which the
      pass makes only the first. */
  lemma SelfConnectionSlipsThrough()
    ensures var list := [(P('a', 0), P('a', 0)), (P('a', 1), P('a', 1))];
            && SwapClosed(list) && UniqueEnds(list) && 2 * |Pick(list)| == |list|
            && !Completes(list, Pick(list))
  {
    var list := [(P('a', 0), P('a', 0)), (P('a', 1), P('a', 1))];
    assert list[..1][..0] == [];
    assert Pick(list[..1]) == [list[0]];
    assert [list[0]][..0] == [];
    assert Pick(list) == [list[0]];
    assert Froms(list) == [P('a', 0), P('a', 1)];
    assert list[1] in list && list[1] != list[0] && Swap(list[1]) == list[1];
  }

  // ------------------------------------------------------- what one pass can achieve

  ghost predicate Subseq(sel: seq<Conn>, list: seq<Conn>) {
    sel == [] ||
    (list != [] &&
     ((Last(sel) == Last(list) && Subseq(Front(sel), Front(list))) || Subseq(sel, Front(list))))
  }

  lemma {:induction false} SubseqMembers(sel: seq<Conn>, list: seq<Conn>)
    requires Subseq(sel, list)
    ensures forall c :: c in sel ==> c in list
  {
    if sel != [] {
      assert list == Front(list) + [Last(list)];
      if Last(sel) == Last(list) && Subseq(Front(sel), Front(list)) {
        SubseqMembers(Front(sel), Front(list));
        assert sel == Front(sel) + [Last(sel)];
      } else {
        SubseqMembers(sel, Front(list));
      }
    }
  }

  lemma {:induction false} PickIsSubseq(list: seq<Conn>)
    ensures Subseq(Pick(list), list)
  {
    if list != [] {
      PickIsSubseq(Front(list));
      assert Front(Pick(Front(list)) + [Last(list)]) == Pick(Front(list));
    }
  }

  /** If the connections before it in some one-pass selection are made, the next one is
      bindable or made already. */
  lemma NextIsBindable(all: seq<Conn>, sel: seq<Conn>, made: seq<Conn>, c: Conn)
    requires SwapClosed(all) && NoSelf(all) && UniqueEnds(all) && c in all
    requires InTurn(sel) && (forall d :: d in sel ==> d in all) && Fits(sel, c)
    requires InTurn(made) && (forall d :: d in made ==> d in all)
    requires Completes(sel, made)
    ensures c in made || Swap(c) in made || Fits(made, c)
  {
    if c.0 in Ends(made) || c.1 in Ends(made) {
      BoundEndIsMade(all, made, c);
    } else {
      EndIsNext(all, sel, made, c.0);
      EndIsNext(all, sel, made, c.1);
    }
  }

  lemma EndIsNext(all: seq<Conn>, sel: seq<Conn>, made: seq<Conn>, e: Port)
    requires NoSelf(all) && (forall d :: d in sel ==> d in all) && (forall d :: d in made ==> d in all)
    requires InTurn(sel) && InTurn(made) && Completes(sel, made)
    requires Bound(sel, KeyOf(e)) == e.index && e !in Ends(made)
    ensures Bound(made, KeyOf(e)) == e.index
  {
    var k := KeyOf(e);
    EndsFull(made, k, e.index);
    if e.index > 0 {
      var below := Port(k.0, k.1, e.index - 1);
      EndsFull(sel, k, e.index - 1);
      EndsMembers(sel, below);
      var c :| c in sel && (c.0 == below || c.1 == below);
      EndsMembers(made, below);
      assert Swap(c).0 == below || Swap(c).1 == below;
      EndsFull(made, k, e.index - 1);
    }
  }

  /** Whatever selection works in one pass, the greedy pass makes those connections too. */
  lemma {:induction false} GreedyKeepsUp(all: seq<Conn>, list: seq<Conn>, sel: seq<Conn>)
    requires SwapClosed(all) && NoSelf(all) && UniqueEnds(all) && (forall c :: c in list ==> c in all)
    requires Subseq(sel, list) && InTurn(sel)
    ensures Completes(sel, Pick(list))
  {
    if sel != [] {
      var front, last := Front(list), Last(list);
      assert list == front + [last];
      PickInTurn(front);
      if Last(sel) == last && Subseq(Front(sel), front) {
        GreedyKeepsUp(all, front, Front(sel));
        SubseqMembers(Front(sel), front);
        NextIsBindable(all, Front(sel), Pick(front), last);
        assert sel == Front(sel) + [last];
      } else {
        GreedyKeepsUp(all, front, sel);
      }
    }
  }

  /** The pass succeeds if and only if some choice of entries, taken in list order, makes
      every connection with every index in turn. */
  lemma GreedyIsOptimal(list: seq<Conn>)
    requires SwapClosed(list) && NoSelf(list) && UniqueEnds(list)
    ensures 2 * |Pick(list)| == |list| <==>
            exists sel :: Subseq(sel, list) && InTurn(sel) && Completes(list, sel)
  {
    var made := Pick(list);
    PickInTurn(list);
    if 2 * |made| == |list| {
      CountIsEnough(list);
      PickIsSubseq(list);
      forall c | c in list ensures c in made || Swap(c) in made {
        assert c in multiset(made) || Swap(c) in multiset(made);
      }
    }
    if exists sel :: Subseq(sel, list) && InTurn(sel) && Completes(list, sel) {
      var sel :| Subseq(sel, list) && InTurn(sel) && Completes(list, sel);
      GreedyKeepsUp(list, list, sel);
      CompleteMeansHalf(list, sel, made);
    }
  }

  lemma CompleteMeansHalf(list: seq<Conn>, sel: seq<Conn>, made: seq<Conn>)
    requires SwapClosed(list) && NoSelf(list) && UniqueEnds(list)
    requires InTurn(made) && (forall c :: c in made ==> c in list)
    requires Completes(list, sel) && Completes(sel, made)
    ensures 2 * |made| == |list|
  {
    forall c | c in list ensures c in made || Swap(c) in made {
      assert Swap(Swap(c)) == c;
    }
    AllEndsBound(list, made);
    EndsDistinct(made);
    DistinctCard(Ends(made));
    DistinctCard(Froms(list));
    forall e | e in Ends(made) ensures e in Froms(list) { EndsListed(list, made, e); }
    SubsetCard(Values(Ends(made)), Values(Froms(list)));
  }

  // ---------------------------------------------------------- what one pass can miss

  function P(name: char, index: nat): Port {
    Port([name], "p", index)
  }

  /** Three connections listed in both directions, in sorted order. */
  function Tangle(): seq<Conn> {
    [(P('a', 0), P('z', 1)), (P('a', 1), P('b', 0)), (P('b', 0), P('a', 1)),
     (P('y', 0), P('z', 0)), (P('z', 0), P('y', 0)), (P('z', 1), P('a', 0))]
  }

  /** An order of the three that respects every index. */
  function Untangled(): seq<Conn> {
    [(P('y', 0), P('z', 0)), (P('a', 0), P('z', 1)), (P('a', 1), P('b', 0))]
  }

  lemma BoundNext(made: seq<Conn>, c: Conn, k: Key)
    ensures Bound(made + [c], k) == Bound(made, k) + Uses(c, k)
  {
    assert (made + [c])[..|made|] == made;
  }

  lemma InTurnNext(made: seq<Conn>, c: Conn)
    requires InTurn(made) && Fits(made, c)
    ensures InTurn(made + [c])
  {
    assert Front(made + [c]) == made;
  }

  lemma UntangledInTurn()
    ensures InTurn(Untangled())
  {
    var u := Untangled();
    var u0: seq<Conn> := [];
    var u1, u2 := u0 + [u[0]], u0 + [u[0]] + [u[1]];
    assert ['a'][0] != ['b'][0] && ['a'][0] != ['y'][0] && ['a'][0] != ['z'][0];
    InTurnNext(u0, u[0]);
    BoundNext(u0, u[0], KeyOf(u[1].0));
    BoundNext(u0, u[0], KeyOf(u[1].1));
    InTurnNext(u1, u[1]);
    BoundNext(u0, u[0], KeyOf(u[2].0));
    BoundNext(u1, u[1], KeyOf(u[2].0));
    BoundNext(u0, u[0], KeyOf(u[2].1));
    BoundNext(u1, u[1], KeyOf(u[2].1));
    InTurnNext(u2, u[2]);
    assert u2 + [u[2]] == u;
  }

  lemma TangleIsMissed()
    ensures Pick(Tangle()) == [(P('y', 0), P('z', 0)), (P('z', 1), P('a', 0))]
  {
    var t := Tangle();
    var one := [(P('y', 0), P('z', 0))];
    assert t[..1][..0] == [] && t[..2][..1] == t[..1] && t[..3][..2] == t[..2];
    assert Pick(t[..1]) == [];
    assert Pick(t[..2]) == [];
    assert Pick(t[..3]) == [];
    assert t[..4][..3] == t[..3];
    assert Pick(t[..4]) == one;
    assert one[..0] == [];
    assert t[..5][..4] == t[..4];
    assert Pick(t[..5]) == one;
    assert t[..6][..5] == t[..5] && t[..6] == t;
  }

  lemma TangleIsSorted()
    ensures SortConns(Tangle()) == Tangle()
  {
    var t := Tangle();
    assert LessEq(t[0], t[1]) && LessEq(t[1], t[2]) && LessEq(t[2], t[3]) && LessEq(t[3], t[4]) && LessEq(t[4], t[5]);
    SortSorted(t);
  }

  lemma TangleIsListed()
    ensures SwapClosed(Tangle()) && NoSelf(Tangle())
  {
    var t := Tangle();
    assert t[0] == Swap(t[5]) && t[1] == Swap(t[2]) && t[3] == Swap(t[4]);
    assert ['a'][0] != ['b'][0] && ['a'][0] != ['z'][0] && ['y'][0] != ['z'][0];
  }

  lemma TangleIsUnique()
    ensures UniqueEnds(Tangle())
  {
    var f := Froms(Tangle());
    assert ['a'][0] != ['b'][0] && ['a'][0] != ['y'][0] && ['a'][0] != ['z'][0];
    assert ['b'][0] != ['y'][0] && ['b'][0] != ['z'][0] && ['y'][0] != ['z'][0];
    assert f == [P('a', 0), P('a', 1), P('b', 0), P('y', 0), P('z', 0), P('z', 1)];
  }

  lemma UntangledCompletes()
    ensures Completes(Tangle(), Untangled())
  {
    var t, u := Tangle(), Untangled();
    assert u[0] == t[3] && u[1] == t[0] && u[2] == t[1];
    assert Swap(t[2]) == u[2] && Swap(t[4]) == u[0] && Swap(t[5]) == u[1];
  }

  /** Sorting does not make one direction of every connection bindable: here the pass raises
      its error although an order that respects every index exists. */
  lemma SortingIsNotEnough()
    ensures SwapClosed(Tangle()) && NoSelf(Tangle()) && UniqueEnds(Tangle())
    ensures Outcome(Tangle()) == Raised(CannotBeOrdered)
    ensures InTurn(Untangled()) && Completes(Tangle(), Untangled())
  {
    TangleIsSorted();
    TangleIsListed();
    TangleIsUnique();
    TangleIsMissed();
    UntangledInTurn();
    UntangledCompletes();
  }
}
