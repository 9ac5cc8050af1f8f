/**
  Finite sums over sets of keys. The scheduler plugins accumulate over Go maps, whose
  iteration order is arbitrary; these sums are what such a loop computes whatever the order.
 */
module Sums {

  ghost function Sum<K>(s: set<K>, f: K -> int): int
  {
    if s == {} then 0 else
      var k :| k in s;
      f(k) + Sum(s - {k}, f)
  }

  /** Any element may be taken out first: the sum does not depend on the order. */
  lemma {:induction false} SumTake<K>(s: set<K>, k: K, f: K -> int)
    requires k in s
    ensures Sum(s, f) == f(k) + Sum(s - {k}, f)
    decreases |s|
  {
    var c :| c in s && Sum(s, f) == f(c) + Sum(s - {c}, f);
    if c != k {
      SumTake(s - {c}, k, f);
      SumTake(s - {k}, c, f);
      assert s - {c} - {k} == s - {k} - {c};
    }
  }

  lemma {:induction false} SumSame<K>(s: set<K>, f: K -> int, g: K -> int)
    requires forall k :: k in s ==> f(k) == g(k)
    ensures Sum(s, f) == Sum(s, g)
    decreases |s|
  {
    if s != {} {
      var k :| k in s;
      SumTake(s, k, f);
      SumTake(s, k, g);
      SumSame(s - {k}, f, g);
    }
  }

  lemma {:induction false} SumAtMost<K>(s: set<K>, f: K -> int, g: K -> int)
    requires forall k :: k in s ==> f(k) <= g(k)
    ensures Sum(s, f) <= Sum(s, g)
    decreases |s|
  {
    if s != {} {
      var k :| k in s;
      SumTake(s, k, f);
      SumTake(s, k, g);
      SumAtMost(s - {k}, f, g);
    }
  }

  lemma {:induction false} SumNonNegative<K>(s: set<K>, f: K -> int)
    requires forall k :: k in s ==> 0 <= f(k)
    ensures 0 <= Sum(s, f)
    decreases |s|
  {
    if s != {} {
      var k :| k in s;
      SumTake(s, k, f);
      SumNonNegative(s - {k}, f);
    }
  }

  lemma {:induction false} SumUnion<K>(s: set<K>, t: set<K>, f: K -> int)
    requires s !! t
    ensures Sum(s + t, f) == Sum(s, f) + Sum(t, f)
    decreases |s|
  {
    if s == {} {
      assert s + t == t;
    } else {
      var k :| k in s;
      SumTake(s + t, k, f);
      SumTake(s, k, f);
      assert s + t - {k} == (s - {k}) + t;
      SumUnion(s - {k}, t, f);
    }
  }

  /** A larger set of non-negative terms sums to at least as much. */
  lemma SumSubset<K>(s: set<K>, t: set<K>, f: K -> int)
    requires s <= t
    requires forall k :: k in t ==> 0 <= f(k)
    ensures Sum(s, f) <= Sum(t, f)
  {
    SumUnion(s, t - s, f);
    assert s + (t - s) == t;
    SumNonNegative(t - s, f);
  }

  ghost predicate IsBelow(i: int, n: nat)
  {
    0 <= i < n
  }

  /** The first `n` indices. */
  ghost function Indices(n: nat): set<int>
  {
    set i | 0 <= i < n && IsBelow(i, n)
  }

  lemma IndicesGrow(n: nat)
    ensures Indices(0) == {} && Indices(n + 1) - {n} == Indices(n) && n in Indices(n + 1) && n !in Indices(n)
    ensures forall i :: i in Indices(n) <==> 0 <= i < n
  {
    forall i ensures i in Indices(n) <==> 0 <= i < n {
      assert IsBelow(i, n) <==> 0 <= i < n;
    }
    var m := n + 1;
    forall i ensures i in Indices(m) <==> 0 <= i < m {
      assert IsBelow(i, m) <==> 0 <= i < m;
    }
  }
}
