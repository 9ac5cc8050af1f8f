/**
  Reprieving pods one by one. A choice over a list of candidates is a mask: which of them are
  put back. The loop puts a candidate back whenever the choice made so far stays acceptable
  with it; when acceptability survives putting back less, that greedy choice is the best one
  in lexicographic order.
 */
module Reprieve {
  import opened Pods

  /** The choice the loop makes among the first `n` candidates. */
  ghost function Greedy(n: nat, ok: seq<bool> -> bool): (m: seq<bool>)
    ensures |m| == n
  {
    if n == 0 then [] else
      var m := Greedy(n - 1, ok);
      m + [ok(m + [true])]
  }

  /** `a` puts back only what `b` does. */
  ghost predicate PutsBackLess(a: seq<bool>, b: seq<bool>)
  {
    |a| <= |b| && forall i :: 0 <= i < |a| && a[i] ==> b[i]
  }

  ghost predicate Hereditary(ok: seq<bool> -> bool)
  {
    forall a, b :: PutsBackLess(a, b) && ok(b) ==> ok(a)
  }

  /** `a` is `b`, or puts back the first candidate on which they differ. */
  ghost predicate AtLeastAsGood(a: seq<bool>, b: seq<bool>)
    requires |a| == |b|
  {
    a == b || exists i :: 0 <= i < |a| && a[..i] == b[..i] && a[i] && !b[i]
  }

  lemma {:induction false} GreedyPrefix(n: nat, k: nat, ok: seq<bool> -> bool)
    requires k <= n
    ensures Greedy(n, ok)[..k] == Greedy(k, ok)
    decreases n
  {
    if k < n {
      GreedyPrefix(n - 1, k, ok);
      assert Greedy(n, ok)[..n - 1] == Greedy(n - 1, ok);
      assert Greedy(n, ok)[..k] == Greedy(n, ok)[..n - 1][..k];
    } else {
      assert Greedy(n, ok)[..n] == Greedy(n, ok);
    }
  }

  /** A choice that wins on a prefix wins. */
  lemma BetterOnPrefix(a: seq<bool>, b: seq<bool>, k: nat)
    requires |a| == |b| && k <= |a|
    requires a[..k] != b[..k] && AtLeastAsGood(a[..k], b[..k])
    ensures AtLeastAsGood(a, b)
  {
    var i :| 0 <= i < k && a[..k][..i] == b[..k][..i] && a[..k][i] && !b[..k][i];
    assert a[..k][..i] == a[..i] && b[..k][..i] == b[..i];
  }

  /** No acceptable choice is lexicographically better than the greedy one. */
  lemma {:induction false} GreedyIsBest(n: nat, ok: seq<bool> -> bool, m: seq<bool>)
    requires |m| == n && ok(m) && Hereditary(ok)
    ensures AtLeastAsGood(Greedy(n, ok), m)
  {
    if n > 0 {
      var full, m' := Greedy(n, ok), m[..n - 1];
      assert PutsBackLess(m', m);
      GreedyIsBest(n - 1, ok, m');
      GreedyPrefix(n, n - 1, ok);
      if full[..n - 1] == m' {
        assert m == m' + [m[n - 1]];
        assert full == m' + [ok(m' + [true])];
        if full[n - 1] && !m[n - 1] {
          assert full[..n - 1] == m[..n - 1];
        }
      } else {
        BetterOnPrefix(full, m, n - 1);
      }
    }
  }

  /** Putting back one more candidate than the greedy choice is never acceptable. */
  lemma GreedyIsMaximal(n: nat, ok: seq<bool> -> bool, i: nat)
    requires i < n && !Greedy(n, ok)[i] && Hereditary(ok)
    ensures !ok(Greedy(n, ok)[i := true])
  {
    var g := Greedy(n, ok);
    GreedyPrefix(n, i, ok);
    GreedyPrefix(n, i + 1, ok);
    assert g[..i + 1][i] == g[i];
    assert PutsBackLess(Greedy(i, ok) + [true], g[i := true]) by {
      assert g[..i] == Greedy(i, ok);
    }
  }

  // ----- masks over pods

  /** The candidates a mask puts back. */
  ghost function Kept(order: seq<Pod>, m: seq<bool>): set<Pod>
  {
    set i | 0 <= i < |order| && i < |m| && m[i] :: order[i]
  }

  /** The candidates a mask leaves out, in order. */
  function LeftOut(order: seq<Pod>, m: seq<bool>): seq<Pod>
    requires |m| <= |order|
  {
    if m == [] then [] else
      var before := LeftOut(order, m[..|m| - 1]);
      if m[|m| - 1] then before else before + [order[|m| - 1]]
  }

  lemma NothingChosenYet(order: seq<Pod>, ok: seq<bool> -> bool, base: set<Pod>)
    ensures Greedy(0, ok) == [] && LeftOut(order, []) == [] && base + Kept(order, []) == base
  {
    assert Kept(order, []) == {};
  }

  lemma KeptExtends(order: seq<Pod>, m: seq<bool>, b: bool)
    requires |m| < |order|
    ensures Kept(order, m + [b]) == Kept(order, m) + if b then {order[|m|]} else {}
  {
    var m' := m + [b];
    forall p | p in Kept(order, m) ensures p in Kept(order, m') {
      var i :| 0 <= i < |order| && i < |m| && m[i] && order[i] == p;
      assert m'[i];
    }
    if b {
      assert m'[|m|];
    }
  }

  lemma LeftOutExtends(order: seq<Pod>, m: seq<bool>, b: bool)
    requires |m| < |order|
    ensures LeftOut(order, m + [b]) == if b then LeftOut(order, m) else LeftOut(order, m) + [order[|m|]]
  {
    assert (m + [b])[..|m|] == m;
  }

  lemma KeptLess(order: seq<Pod>, a: seq<bool>, b: seq<bool>)
    requires PutsBackLess(a, b)
    ensures Kept(order, a) <= Kept(order, b)
  {
  }

  /** Every candidate is either put back or left out, and never both. */
  lemma {:induction false} KeptOrLeftOut(order: seq<Pod>, m: seq<bool>)
    requires |m| <= |order| && Distinct(order)
    ensures Kept(order, m) + Elements(LeftOut(order, m)) == Elements(order[..|m|])
    ensures Kept(order, m) !! Elements(LeftOut(order, m))
    ensures Distinct(LeftOut(order, m))
  {
    if m != [] {
      var n, b := |m| - 1, m[|m| - 1];
      var m' := m[..n];
      assert m == m' + [b];
      KeptOrLeftOut(order, m');
      KeptExtends(order, m', b);
      LeftOutExtends(order, m', b);
      assert order[..|m|] == order[..n] + [order[n]];
      assert order[n] !in Elements(order[..n]);
    } else {
      assert order[..0] == [];
    }
  }

  /** Leaving out keeps the order. */
  lemma {:induction false} LeftOutSorted(order: seq<Pod>, m: seq<bool>)
    requires |m| <= |order| && Sorted(order)
    ensures Sorted(LeftOut(order, m))
    ensures forall i, j :: 0 <= i < |LeftOut(order, m)| && |m| <= j < |order| ==>
              !MoreImportant(order[j], LeftOut(order, m)[i])
  {
    if m != [] {
      LeftOutSorted(order, m[..|m| - 1]);
    }
  }

  /** A set of candidates as a choice. */
  ghost function MaskOf(order: seq<Pod>, s: set<Pod>): (m: seq<bool>)
    ensures |m| == |order|
  {
    seq(|order|, i requires 0 <= i < |order| => order[i] in s)
  }

  lemma KeptMaskOf(order: seq<Pod>, s: set<Pod>)
    requires s <= Elements(order)
    ensures Kept(order, MaskOf(order, s)) == s
  {
    forall p | p in s ensures p in Kept(order, MaskOf(order, s)) {
      assert p in Elements(order);
      var i :| 0 <= i < |order| && order[i] == p;
      assert MaskOf(order, s)[i];
    }
  }

  lemma MaskOfKept(order: seq<Pod>, m: seq<bool>, base: set<Pod>)
    requires |m| == |order| && Distinct(order) && base !! Elements(order)
    ensures MaskOf(order, base + Kept(order, m)) == m
  {
    forall i | 0 <= i < |order| ensures (order[i] in base + Kept(order, m)) == m[i] {
      assert order[i] in Elements(order);
    }
  }

  lemma KeptOneMore(order: seq<Pod>, m: seq<bool>, i: nat)
    requires i < |m| <= |order|
    ensures Kept(order, m[i := true]) == Kept(order, m) + {order[i]}
  {
    var m' := m[i := true];
    forall p | p in Kept(order, m) + {order[i]} ensures p in Kept(order, m') {
      if p == order[i] {
        assert m'[i];
      } else {
        var j :| 0 <= j < |order| && j < |m| && m[j] && order[j] == p;
        assert m'[j];
      }
    }
  }

  /** What a choice leaves out among the first `k` candidates. */
  lemma {:induction false} LeftOutPrefix(order: seq<Pod>, m: seq<bool>, k: nat)
    requires |m| <= |order| && Distinct(order) && k <= |m|
    ensures Elements(LeftOut(order, m[..k])) == Elements(LeftOut(order, m)) * Elements(order[..k])
    decreases |m| - k
  {
    hide LeftOut, Kept;
    var here := Elements(LeftOut(order, m[..k]));
    KeptOrLeftOut(order, m[..k]);
    assert here <= Elements(order[..k]);
    if k == |m| {
      assert m[..k] == m;
    } else {
      LeftOutPrefix(order, m, k + 1);
      assert m[..k + 1] == m[..k] + [m[k]];
      LeftOutExtends(order, m[..k], m[k]);
      assert order[..k + 1] == order[..k] + [order[k]];
      assert order[k] !in Elements(order[..k]);
      assert Elements(order[..k + 1]) == Elements(order[..k]) + {order[k]};
      assert Elements(LeftOut(order, m[..k + 1])) == here + if m[k] then {} else {order[k]};
    }
  }

  /** Put back one left-out candidate; its place in the order. */
  lemma LeftOutAt(order: seq<Pod>, m: seq<bool>, v: Pod) returns (i: nat)
    requires |m| == |order| && Distinct(order) && v in LeftOut(order, m)
    ensures i < |order| && order[i] == v && !m[i]
  {
    KeptOrLeftOut(order, m);
    assert order[..|m|] == order;
    assert v in Elements(LeftOut(order, m));
    i :| 0 <= i < |order| && order[i] == v;
  }
}
