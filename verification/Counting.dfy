/** Pigeonhole facts about sequences of integers, shared by several modules. */
module Counting {

  ghost predicate Distinct<T>(s: seq<T>) {
    forall i, j :: 0 <= i < j < |s| ==> s[i] != s[j]
  }

  /** The set of values of a sequence without repetitions is as large as the sequence. */
  lemma {:induction false} DistinctCard<T>(s: seq<T>)
    requires Distinct(s)
    ensures |set x | x in s| == |s|
  {
    if s == [] {
      assert (set x | x in s) == {};
    } else {
      var head, rest := s[0], s[1..];
      DistinctCard(rest);
      assert (set x | x in s) == {head} + (set x | x in rest);
      assert head !in rest;
    }
  }

  /** The integers from 0 up to `n`. */
  function Below(n: nat): (r: set<int>)
    ensures forall x :: x in r <==> 0 <= x < n
  {
    if n == 0 then {} else Below(n - 1) + {n - 1}
  }

  lemma {:induction false} BelowCard(n: nat)
    ensures |Below(n)| == n
  {
    if n > 0 {
      BelowCard(n - 1);
    }
  }

  lemma SubsetCard<T>(a: set<T>, b: set<T>)
    requires a <= b
    ensures |a| <= |b|
  {
    assert b == a + (b - a);
  }

  /** A subset that is as large as the whole set is the whole set. */
  lemma SubsetCardEqual<T>(a: set<T>, b: set<T>)
    requires a <= b && |a| == |b|
    ensures a == b
  {
    assert b == a + (b - a);
    assert |b| == |a| + |b - a|;
  }

  /** Distinct values below `n`, none of them in `holes`, are at most `n - |holes|` many. */
  lemma DistinctBelow(s: seq<int>, n: nat, holes: set<int>)
    requires Distinct(s)
    requires forall x :: x in s ==> 0 <= x < n && x !in holes
    requires holes <= Below(n)
    ensures |s| + |holes| <= n
  {
    DistinctCard(s);
    BelowCard(n);
    var values := set x | x in s;
    SubsetCard(values + holes, Below(n));
  }

  /** Multiplication by a natural number is monotone. */
  lemma {:induction false} MulLe(a: int, b: int, n: nat)
    requires a <= b
    ensures a * n <= b * n
    decreases b - a
  {
    if a < b {
      MulLe(a, b - 1, n);
      assert b * n == (b - 1) * n + n;
    }
  }

  /** Different multiples of `n` are at least `n` apart. */
  lemma MultiplesApart(n: nat, a: int, b: int)
    ensures a < b ==> a * n + n <= b * n
  {
    if a < b {
      MulLe(a + 1, b, n);
      assert (a + 1) * n == a * n + n;
    }
  }

  /** Quotient and remainder are determined. */
  lemma DivisionIsUnique(n: nat, q: int, r: int, x: int, y: int)
    requires 0 <= r < n && 0 <= y < n && q * n + r == x * n + y
    ensures q == x && r == y
  {
    MultiplesApart(n, q, x);
    MultiplesApart(n, x, q);
  }

  lemma QuotientIs(x: int, n: nat, q: int, r: int)
    requires x == q * n + r && 0 <= r < n
    ensures x / n == q && x % n == r
  {
    assert x == x / n * n + x % n;
    DivisionIsUnique(n, x / n, x % n, q, r);
  }
}
