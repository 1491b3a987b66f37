/** The order in which the scripts compare names: character by character, a prefix first. */
module NameOrder {

  /** Lexicographic comparison of names: -1, 0 or 1. */
  function CompareName(a: string, b: string): int {
    if a == [] && b == [] then 0
    else if a == [] then -1
    else if b == [] then 1
    else if a[0] < b[0] then -1
    else if b[0] < a[0] then 1
    else CompareName(a[1..], b[1..])
  }

  /** The names agree up to `k`, where `a` ends or has the smaller character. */
  ghost predicate DiffersAt(a: string, b: string, k: nat) {
    && k <= |a| && k < |b| && a[..k] == b[..k]
    && (k < |a| ==> a[k] < b[k])
  }

  ghost predicate Before(a: string, b: string) {
    exists k: nat :: DiffersAt(a, b, k)
  }

  lemma DiffersLater(a: string, b: string, k: nat)
    requires a != [] && b != [] && a[0] == b[0]
    ensures DiffersAt(a, b, k + 1) <==> DiffersAt(a[1..], b[1..], k)
  {
    if k < |a| && k < |b| {
      assert a[..k + 1] == [a[0]] + a[1..][..k] && b[..k + 1] == [b[0]] + b[1..][..k];
    }
  }

  lemma BeforeRest(a: string, b: string)
    requires a != [] && b != [] && a[0] == b[0]
    ensures Before(a, b) <==> Before(a[1..], b[1..])
  {
    if Before(a, b) {
      var k: nat :| DiffersAt(a, b, k);
      DiffersLater(a, b, k - 1);
    }
    if Before(a[1..], b[1..]) {
      var k: nat :| DiffersAt(a[1..], b[1..], k);
      DiffersLater(a, b, k);
    }
  }

  lemma FirstDecides(a: string, b: string)
    requires b != [] && (a == [] || a[0] < b[0])
    ensures Before(a, b) && !Before(b, a) && a != b
  {
    assert DiffersAt(a, b, 0);
    forall k: nat ensures !DiffersAt(b, a, k) {
      if 0 < k < |a| && k <= |b| { assert a[..k][0] == a[0] && b[..k][0] == b[0]; }
    }
  }

  /** The comparison is that order. */
  lemma {:induction false} CompareIff(a: string, b: string)
    ensures -1 <= CompareName(a, b) <= 1
    ensures CompareName(a, b) < 0 <==> Before(a, b)
    ensures CompareName(a, b) > 0 <==> Before(b, a)
    ensures CompareName(a, b) == 0 <==> a == b
  {
    if a == [] && b == [] {
      assert !Before(a, b);
    } else if a == [] || (b != [] && a[0] < b[0]) {
      FirstDecides(a, b);
    } else if b == [] || b[0] < a[0] {
      FirstDecides(b, a);
    } else {
      CompareIff(a[1..], b[1..]);
      BeforeRest(a, b);
      BeforeRest(b, a);
      assert a == [a[0]] + a[1..] && b == [b[0]] + b[1..];
    }
  }

  lemma BeforeTransitive(a: string, b: string, c: string)
    requires Before(a, b) && Before(b, c)
    ensures Before(a, c)
  {
    var j: nat :| DiffersAt(a, b, j);
    var k: nat :| DiffersAt(b, c, k);
    var m := if j < k then j else k;
    assert a[..m] == a[..j][..m] && b[..m] == b[..j][..m] == b[..k][..m] && c[..m] == c[..k][..m];
    if j < k { assert b[..k][j] == c[..k][j]; }
    if k < j { assert a[..j][k] == b[..j][k]; }
    assert DiffersAt(a, c, m);
  }

  /** Two different names are ordered one way only. */
  lemma BeforeIsTotal(a: string, b: string)
    ensures !(Before(a, b) && Before(b, a))
    ensures Before(a, b) || Before(b, a) || a == b
    ensures !Before(a, a)
  {
    CompareIff(a, b);
    CompareIff(a, a);
  }
}
