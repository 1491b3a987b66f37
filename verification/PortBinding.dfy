/** The port-binding pass of gem5/configs/example/read_config.py: connections are listed in
    both directions, sorted, and bound greedily in one pass; the only check is that half of
    the entries were bound. */
module PortBinding {
  import opened Counting
  import opened NameOrder

  /** One end of a connection: an object, one of its ports, and the index in that port. */
  datatype Port = Port(obj: string, port: string, index: nat)

  type Key = (string, string)
  type Conn = (Port, Port)

  function KeyOf(p: Port): Key {
    (p.obj, p.port)
  }

  function Swap(c: Conn): Conn {
    (c.1, c.0)
  }

  // ------------------------------------------------------------------- the sorted order

  function CompareInt(a: int, b: int): int {
    if a < b then -1 else if a > b then 1 else 0
  }

  function Compare(a: Port, b: Port): int {
    var byObj := CompareName(a.obj, b.obj);
    var byPort := CompareName(a.port, b.port);
    if byObj != 0 then byObj else if byPort != 0 then byPort else CompareInt(a.index, b.index)
  }

  predicate LessEq(c: Conn, d: Conn) {
    var first := Compare(c.0, d.0);
    if first != 0 then first < 0 else Compare(c.1, d.1) <= 0
  }

  function Insert(c: Conn, s: seq<Conn>): seq<Conn> {
    if s == [] || LessEq(s[|s| - 1], c) then s + [c]
    else Insert(c, s[..|s| - 1]) + [s[|s| - 1]]
  }

  function SortConns(s: seq<Conn>): seq<Conn> {
    if s == [] then [] else Insert(s[|s| - 1], SortConns(s[..|s| - 1]))
  }

  lemma {:induction false} InsertPermutes(c: Conn, s: seq<Conn>)
    ensures multiset(Insert(c, s)) == multiset(s) + multiset{c}
    ensures |Insert(c, s)| == |s| + 1
  {
    if s != [] && !LessEq(s[|s| - 1], c) {
      InsertPermutes(c, s[..|s| - 1]);
      assert s == s[..|s| - 1] + [s[|s| - 1]];
    }
  }

  lemma {:induction false} SortPermutes(s: seq<Conn>)
    ensures multiset(SortConns(s)) == multiset(s)
    ensures |SortConns(s)| == |s|
    ensures forall c :: c in SortConns(s) <==> c in s
  {
    if s != [] {
      SortPermutes(s[..|s| - 1]);
      InsertPermutes(s[|s| - 1], SortConns(s[..|s| - 1]));
      assert s == s[..|s| - 1] + [s[|s| - 1]];
    }
    assert forall c :: c in SortConns(s) <==> c in multiset(SortConns(s));
  }

  /** A list that is in order already is left alone. */
  lemma {:induction false} SortSorted(s: seq<Conn>)
    requires forall i :: 0 < i < |s| ==> LessEq(s[i - 1], s[i])
    ensures SortConns(s) == s
  {
    if s != [] {
      SortSorted(s[..|s| - 1]);
      assert s == s[..|s| - 1] + [s[|s| - 1]];
    }
  }

  // ------------------------------------------------------------------ the greedy pass

  function Uses(c: Conn, k: Key): nat {
    (if KeyOf(c.0) == k then 1 else 0) + (if KeyOf(c.1) == k then 1 else 0)
  }

  /** How often a port has been bound. */
  function Bound(made: seq<Conn>, k: Key): nat {
    if made == [] then 0 else Bound(made[..|made| - 1], k) + Uses(made[|made| - 1], k)
  }

  /** Both ends are next in line at their ports. */
  predicate Fits(made: seq<Conn>, c: Conn) {
    Bound(made, KeyOf(c.0)) == c.0.index && Bound(made, KeyOf(c.1)) == c.1.index
  }

  /** The connections the pass over `list` makes. */
  function Pick(list: seq<Conn>): seq<Conn> {
    if list == [] then []
    else
      var made := Pick(list[..|list| - 1]);
      if Fits(made, list[|list| - 1]) then made + [list[|list| - 1]] else made
  }

  datatype BindError = MissingPort(key: Key) | CannotBeOrdered

  datatype BindResult = Bindings(made: seq<Conn>) | Raised(error: BindError)

  ghost predicate SwapClosed(list: seq<Conn>) {
    forall c :: c in list ==> Swap(c) in list
  }

  ghost predicate NoSelf(list: seq<Conn>) {
    forall c :: c in list ==> c.0 != c.1
  }

  function Froms(list: seq<Conn>): seq<Port> {
    seq(|list|, i requires 0 <= i < |list| => list[i].0)
  }

  /** Every connection end is listed once; gathering the ports of all objects gives this. */
  ghost predicate UniqueEnds(list: seq<Conn>) {
    Distinct(Froms(list))
  }

  ghost predicate Tracks(indices: map<Key, nat>, made: seq<Conn>) {
    forall k :: k in indices ==> indices[k] == Bound(made, k)
  }

  lemma TracksNext(indices: map<Key, nat>, made: seq<Conn>, c: Conn)
    requires Tracks(indices, made) && KeyOf(c.0) in indices && KeyOf(c.1) in indices
    ensures var one := indices[KeyOf(c.0) := indices[KeyOf(c.0)] + 1];
            Tracks(one[KeyOf(c.1) := one[KeyOf(c.1)] + 1], made + [c])
  {
    assert (made + [c])[..|made|] == made;
  }

  ghost predicate HasKey(list: seq<Conn>, k: Key) {
    exists j :: 0 <= j < |list| && KeyOf(list[j].0) == k
  }

  /** The ports that a connection starts from. */
  ghost function Starts(list: seq<Conn>): set<Key> {
    set j | 0 <= j < |list| :: KeyOf(list[j].0)
  }

  /** The pass comes to entry `i`, finds its near end next in line, and then asks for the
      index of a far end that has none. */
  ghost predicate FailsAt(list: seq<Conn>, keys: set<Key>, i: nat) {
    && i < |list| && KeyOf(list[i].1) !in keys
    && Bound(Pick(list[..i]), KeyOf(list[i].0)) == list[i].0.index
  }

  ghost predicate Fails(list: seq<Conn>, keys: set<Key>) {
    exists i: nat :: FailsAt(list, keys, i)
  }

  /** A zero for every port that a connection starts from. */
  method ZeroIndices(connections: seq<Conn>) returns (indices: map<Key, nat>)
    ensures indices.Keys == Starts(connections)
    ensures forall k :: k in indices <==> HasKey(connections, k)
    ensures Tracks(indices, [])
  {
    indices := map[];
    for i := 0 to |connections|
      invariant forall k :: k in indices <==> exists j :: 0 <= j < i && KeyOf(connections[j].0) == k
      invariant Tracks(indices, [])
    {
      indices := indices[KeyOf(connections[i].0) := 0];
    }
  }

  /** The pass itself: it makes the connections of `Pick`, unless a far end has no index. */
  method MakeConnections(list: seq<Conn>, zeros: map<Key, nat>) returns (r: BindResult)
    requires Tracks(zeros, []) && forall c :: c in list ==> KeyOf(c.0) in zeros
    ensures r.Bindings? ==> r.made == Pick(list)
    ensures r.Raised? <==> Fails(list, zeros.Keys)
    ensures r.Raised? ==> exists i: nat ::
              FailsAt(list, zeros.Keys, i) && r.error == MissingPort(KeyOf(list[i].1))
  {
    var indices, made := zeros, [];
    for i := 0 to |list|
      invariant made == Pick(list[..i])
      invariant indices.Keys == zeros.Keys && Tracks(indices, made)
      invariant forall j: nat :: j < i ==> !FailsAt(list, zeros.Keys, j)
    {
      var c := list[i];
      assert c in list;
      assert list[..i + 1][..i] == list[..i];
      if indices[KeyOf(c.0)] == c.0.index {
        if KeyOf(c.1) !in indices {
          assert FailsAt(list, zeros.Keys, i);
          return Raised(MissingPort(KeyOf(c.1)));
        }
        if indices[KeyOf(c.1)] == c.1.index {
          TracksNext(indices, made, c);
          made := made + [c];
          indices := indices[KeyOf(c.0) := indices[KeyOf(c.0)] + 1];
          indices := indices[KeyOf(c.1) := indices[KeyOf(c.1)] + 1];
        }
      }
    }
    assert list[..|list|] == list;
    return Bindings(made);
  }

  /** bind_ports up to the assignment of the simulator objects. It fails on a missing port
      exactly when the pass over the sorted list comes to one, which a swap-closed list rules
      out. Otherwise the pass makes `Pick` of the sorted list, and the other error is raised
      exactly when the count is not half of the entries. */
  method BindPorts(connections: seq<Conn>) returns (r: BindResult)
    ensures SwapClosed(connections) ==> !Fails(SortConns(connections), Starts(connections))
    ensures if Fails(SortConns(connections), Starts(connections)) then r.Raised? && r.error.MissingPort?
            else r == Outcome(connections)
  {
    var indices := ZeroIndices(connections);
    var list := SortConns(connections);
    SortPermutes(connections);
    forall c | c in list ensures KeyOf(c.0) in indices && (SwapClosed(connections) ==> KeyOf(c.1) in indices) {
      EndIsListed(connections, c);
    }
    r := MakeConnections(list, indices);
    if r.Bindings? && |r.made| * 2 != |connections| {
      r := Raised(CannotBeOrdered);
    }
  }

  function Outcome(connections: seq<Conn>): BindResult {
    var made := Pick(SortConns(connections));
    if 2 * |made| == |connections| then Bindings(made) else Raised(CannotBeOrdered)
  }

  lemma EndIsListed(list: seq<Conn>, c: Conn)
    requires c in list
    ensures HasKey(list, KeyOf(c.0))
    ensures SwapClosed(list) ==> HasKey(list, KeyOf(c.1))
  {
    var i :| 0 <= i < |list| && list[i] == c;
    assert KeyOf(list[i].0) == KeyOf(c.0);
    if SwapClosed(list) {
      assert Swap(c) in list;
      var j :| 0 <= j < |list| && list[j] == Swap(c);
      assert KeyOf(list[j].0) == KeyOf(c.1);
    }
  }

  // ------------------------------------------------------------- gathering connections

  /** The entries of one port: its peers in index order. */
  function FromPort(obj: string, port: string, peers: seq<Port>): seq<Conn> {
    seq(|peers|, i requires 0 <= i < |peers| => (Port(obj, port, i), peers[i]))
  }

  function FromObject(obj: string, ports: seq<(string, seq<Port>)>): seq<Conn> {
    if ports == [] then []
    else FromObject(obj, ports[..|ports| - 1]) + FromPort(obj, ports[|ports| - 1].0, ports[|ports| - 1].1)
  }

  /** The entries of all objects, one after the other. */
  function FromObjects(objects: seq<(string, seq<(string, seq<Port>)>)>): seq<Conn> {
    if objects == [] then []
    else FromObjects(objects[..|objects| - 1]) + FromObject(objects[|objects| - 1].0, objects[|objects| - 1].1)
  }

  /** The entry joins an end of the `p`-th port to the peer with the index of that end. */
  ghost predicate Joins(obj: string, ports: seq<(string, seq<Port>)>, p: nat, c: Conn) {
    && p < |ports| && c.0.obj == obj && c.0.port == ports[p].0
    && c.0.index < |ports[p].1| && c.1 == ports[p].1[c.0.index]
  }

  lemma PortHolds(obj: string, port: string, peers: seq<Port>, c: Conn)
    ensures c in FromPort(obj, port, peers) <==>
            c.0.obj == obj && c.0.port == port && c.0.index < |peers| && c.1 == peers[c.0.index]
  {
    if c.0.obj == obj && c.0.port == port && c.0.index < |peers| && c.1 == peers[c.0.index] {
      assert FromPort(obj, port, peers)[c.0.index] == c;
    }
  }

  lemma {:induction false} ObjectHolds(obj: string, ports: seq<(string, seq<Port>)>, c: Conn)
    ensures c in FromObject(obj, ports) <==> exists p: nat :: Joins(obj, ports, p, c)
  {
    if ports != [] {
      var front, last := ports[..|ports| - 1], ports[|ports| - 1];
      ObjectHolds(obj, front, c);
      PortHolds(obj, last.0, last.1, c);
      assert c in FromPort(obj, last.0, last.1) <==> Joins(obj, ports, |front|, c);
      assert forall p: nat :: p < |front| ==> (Joins(obj, front, p, c) <==> Joins(obj, ports, p, c));
    }
  }

  ghost predicate JoinsOne(objects: seq<(string, seq<(string, seq<Port>)>)>, o: nat, c: Conn) {
    o < |objects| && exists p: nat :: Joins(objects[o].0, objects[o].1, p, c)
  }

  /** Exactly one entry for every end of every port of every object, to the peer listed at
      that index. */
  lemma {:induction false} GatheredIff(objects: seq<(string, seq<(string, seq<Port>)>)>, c: Conn)
    ensures c in FromObjects(objects) <==> exists o: nat :: JoinsOne(objects, o, c)
  {
    if objects != [] {
      var front, last := objects[..|objects| - 1], objects[|objects| - 1];
      GatheredIff(front, c);
      ObjectHolds(last.0, last.1, c);
      assert JoinsOne(objects, |front|, c) <==> c in FromObject(last.0, last.1);
      assert forall o: nat :: o < |front| ==> (JoinsOne(front, o, c) <==> JoinsOne(objects, o, c));
    }
  }

  method GatherPortConnections(obj: string, ports: seq<(string, seq<Port>)>) returns (parsed: seq<Conn>)
    ensures parsed == FromObject(obj, ports)
    ensures forall c :: c in parsed <==> exists p: nat :: Joins(obj, ports, p, c)
  {
    parsed := [];
    for p := 0 to |ports|
      invariant parsed == FromObject(obj, ports[..p])
    {
      var (name, peers) := ports[p];
      var before := parsed;
      for index := 0 to |peers|
        invariant parsed == before + FromPort(obj, name, peers)[..index]
      {
        parsed := parsed + [(Port(obj, name, index), peers[index])];
      }
      assert ports[..p + 1][..p] == ports[..p];
    }
    assert ports[..|ports|] == ports;
    forall c ensures c in parsed <==> exists p: nat :: Joins(obj, ports, p, c) { ObjectHolds(obj, ports, c); }
  }

  lemma FromsAppend(a: seq<Conn>, b: seq<Conn>)
    requires UniqueEnds(a) && UniqueEnds(b)
    requires forall c, d :: c in a && d in b ==> c.0 != d.0
    ensures UniqueEnds(a + b)
  {
    forall i, j | 0 <= i < j < |a + b| ensures Froms(a + b)[i] != Froms(a + b)[j] {
      if j < |a| {
        assert Froms(a)[i] != Froms(a)[j];
      } else if i < |a| {
        assert (a + b)[i] in a && (a + b)[j] in b;
      } else {
        assert Froms(b)[i - |a|] != Froms(b)[j - |a|];
      }
    }
  }

  /** Ports of an object have different names, so the entries of an object start at
      different ends. */
  lemma {:induction false} ObjectEndsUnique(obj: string, ports: seq<(string, seq<Port>)>)
    requires forall i, j :: 0 <= i < j < |ports| ==> ports[i].0 != ports[j].0
    ensures UniqueEnds(FromObject(obj, ports))
    ensures forall c :: c in FromObject(obj, ports) ==>
              c.0.obj == obj && exists i :: 0 <= i < |ports| && ports[i].0 == c.0.port
  {
    if ports != [] {
      var front, last := ports[..|ports| - 1], ports[|ports| - 1];
      ObjectEndsUnique(obj, front);
      var a, b := FromObject(obj, front), FromPort(obj, last.0, last.1);
      forall c: Conn | c in a + b
        ensures c.0.obj == obj && exists i :: 0 <= i < |ports| && ports[i].0 == c.0.port
      {
        if c in a {
          var i :| 0 <= i < |front| && front[i].0 == c.0.port;
          assert ports[i].0 == c.0.port;
        } else {
          assert ports[|ports| - 1].0 == c.0.port;
        }
      }
      FromsAppend(a, b);
    }
  }

  /** So does the list gathered from objects with different names: it satisfies `UniqueEnds`. */
  lemma {:induction false} GatheredEndsUnique(objects: seq<(string, seq<(string, seq<Port>)>)>)
    requires forall i, j :: 0 <= i < j < |objects| ==> objects[i].0 != objects[j].0
    requires forall o :: 0 <= o < |objects| ==>
               forall i, j :: 0 <= i < j < |objects[o].1| ==> objects[o].1[i].0 != objects[o].1[j].0
    ensures UniqueEnds(FromObjects(objects))
    ensures forall c :: c in FromObjects(objects) ==> exists i :: 0 <= i < |objects| && objects[i].0 == c.0.obj
  {
    if objects != [] {
      var front, last := objects[..|objects| - 1], objects[|objects| - 1];
      GatheredEndsUnique(front);
      ObjectEndsUnique(last.0, last.1);
      var a, b := FromObjects(front), FromObject(last.0, last.1);
      forall c: Conn | c in a + b ensures exists i :: 0 <= i < |objects| && objects[i].0 == c.0.obj {
        if c in a {
          var i :| 0 <= i < |front| && front[i].0 == c.0.obj;
          assert objects[i].0 == c.0.obj;
        } else {
          assert objects[|objects| - 1].0 == c.0.obj;
        }
      }
      FromsAppend(a, b);
    }
  }
}
