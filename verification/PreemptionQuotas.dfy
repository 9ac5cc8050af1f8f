/**
  The quotas of a preemption dry run. After the candidates have been taken out, every turn of
  the reprieve loop adds pods to the snapshot and takes them out again; what matters of the
  snapshot is always the quotas after the first pass plus the set of pods put back so far.
 */
module PreemptionQuotas {
  import opened Pods
  import opened QuotaModel
  import opened Sums

  /** What a pod adds to the use of a namespace. */
  ghost function RequestTo(n: string, d: Dim): Pod -> int
  {
    (p: Pod) => if p.namespace == n then Get(p.request, d) else 0
  }

  /** The use of a namespace with a set of pods put back. */
  ghost function UsedWith(qs: Quotas, back: set<Pod>, n: string, d: Dim): int
  {
    UsedIn(qs, d)(n) + Sum(back, RequestTo(n, d))
  }

  ghost function UsedInWith(qs: Quotas, back: set<Pod>, d: Dim): string -> int
  {
    n => UsedWith(qs, back, n, d)
  }

  ghost function TotalUsedWith(qs: Quotas, back: set<Pod>, d: Dim): int
  {
    Sum(qs.Keys, UsedInWith(qs, back, d))
  }

  /** The pods have keys, one each. */
  ghost predicate HaveKeys(pool: set<Pod>)
  {
    (forall p :: p in pool ==> p.uid != "") && forall p, q :: p in pool && q in pool && p.uid == q.uid ==> p == q
  }

  /** `now` is `qs` with the pods of `back` accounted, and no other pod of `pool`. */
  ghost predicate Tracks(now: Quotas, qs: Quotas, back: set<Pod>, pool: set<Pod>)
  {
    && now.Keys == qs.Keys
    && (forall n :: n in qs ==> now[n].min == qs[n].min && now[n].max == qs[n].max)
    && (forall n, d :: n in qs ==> Get(now[n].used, d) == UsedWith(qs, back, n, d))
    && (forall p :: p in pool && p.namespace in qs ==> (p.uid in now[p.namespace].pods <==> p in back))
  }

  lemma SumWithOneMore(back: set<Pod>, p: Pod, n: string, d: Dim)
    requires p !in back
    ensures Sum(back + {p}, RequestTo(n, d)) == Sum(back, RequestTo(n, d)) + RequestTo(n, d)(p)
  {
    SumTake(back + {p}, p, RequestTo(n, d));
    assert back + {p} - {p} == back;
  }

  lemma TracksNothing(qs: Quotas, pool: set<Pod>)
    requires forall p :: p in pool && p.namespace in qs ==> p.uid !in qs[p.namespace].pods
    ensures Tracks(qs, qs, {}, pool)
  {
  }

  lemma TracksAdd(now: Quotas, qs: Quotas, back: set<Pod>, pool: set<Pod>, p: Pod)
    requires Tracks(now, qs, back, pool) && HaveKeys(pool) && p in pool && p !in back
    ensures Tracks(AddTo(now, p), qs, back + {p}, pool)
  {
    hide Plus;
    var now' := AddTo(now, p);
    forall n, d | n in qs ensures Get(now'[n].used, d) == UsedWith(qs, back + {p}, n, d) {
      SumWithOneMore(back, p, n, d);
    }
    forall x | x in pool && x.namespace in qs ensures x.uid in now'[x.namespace].pods <==> x in back + {p} {
      assert x.uid in now[x.namespace].pods <==> x in back;
    }
  }

  lemma TracksRemove(now: Quotas, qs: Quotas, back: set<Pod>, pool: set<Pod>, p: Pod)
    requires Tracks(now, qs, back + {p}, pool) && HaveKeys(pool) && p in pool && p !in back
    ensures Tracks(RemoveFrom(now, p), qs, back, pool)
  {
    hide Minus;
    var now' := RemoveFrom(now, p);
    forall n, d | n in qs ensures Get(now'[n].used, d) == UsedWith(qs, back, n, d) {
      SumWithOneMore(back, p, n, d);
    }
    forall x | x in pool && x.namespace in qs ensures x.uid in now'[x.namespace].pods <==> x in back {
      assert x.uid in now[x.namespace].pods <==> x in back + {p};
    }
  }

  // ----- the quota test

  ghost predicate OverMaxIn(qs: Quotas, back: set<Pod>, n: string, request: Resource, d: Dim)
    requires n in qs
  {
    IsChecked(request, d) && Get(request, d) + UsedWith(qs, back, n, d) > Limit(qs[n].max, d, UPPER_BOUND_OF_MAX)
  }

  ghost predicate OverTotalIn(qs: Quotas, back: set<Pod>, request: Resource, d: Dim)
  {
    TotalUsedWith(qs, back, d) + Get(request, d) > TotalMin(qs, d)
  }

  /**
    With `back` put back, the quota of `n` with `inQuota` on top is over its max, or all quotas
    with `overall` on top are over their joint min.
   */
  ghost predicate OverQuota(qs: Quotas, back: set<Pod>, n: string, inQuota: Resource, overall: Resource)
    requires n in qs
  {
    (exists d :: OverMaxIn(qs, back, n, inQuota, d)) || (exists d :: OverTotalIn(qs, back, overall, d))
  }

  /** The test on the snapshot is the test on the set of pods put back. */
  lemma TracksTest(now: Quotas, qs: Quotas, back: set<Pod>, pool: set<Pod>, n: string, inQuota: Resource,
      overall: Resource)
    requires Tracks(now, qs, back, pool) && n in qs
    ensures (UsedOverMaxWith(now[n], inQuota) || AggregatedOverMin(now, overall)) <==>
        OverQuota(qs, back, n, inQuota, overall)
  {
    ExceedsSomewhere(inQuota, now[n].used, now[n].max, UPPER_BOUND_OF_MAX);
    forall d ensures ExceedsIn(inQuota, now[n].used, now[n].max, UPPER_BOUND_OF_MAX, d) <==>
        OverMaxIn(qs, back, n, inQuota, d) {
    }
    forall d ensures TotalUsed(now, d) + Get(overall, d) > TotalMin(now, d) <==> OverTotalIn(qs, back, overall, d) {
      SumSame(qs.Keys, UsedIn(now, d), UsedInWith(qs, back, d));
      SumSame(qs.Keys, MinIn(now, d), MinIn(qs, d));
    }
  }

  ghost predicate AllNonNegative(pods: set<Pod>)
  {
    forall p :: p in pods ==> NonNegative(p.request)
  }

  lemma UseGrows(qs: Quotas, a: set<Pod>, b: set<Pod>, n: string, d: Dim)
    requires a <= b && AllNonNegative(b)
    ensures UsedWith(qs, a, n, d) <= UsedWith(qs, b, n, d)
  {
    SumSubset(a, b, RequestTo(n, d));
  }

  /** More pods put back, or more on top, is over whatever less is over. */
  lemma OverQuotaIsMonotone(
    qs: Quotas, a: set<Pod>, b: set<Pod>, n: string, inA: Resource, overA: Resource, inB: Resource, overB: Resource)
    requires n in qs && a <= b && AllNonNegative(b)
    requires inA.scalars.Keys <= inB.scalars.Keys
    requires forall d :: Get(inA, d) <= Get(inB, d) && Get(overA, d) <= Get(overB, d)
    requires OverQuota(qs, a, n, inA, overA)
    ensures OverQuota(qs, b, n, inB, overB)
  {
    if d :| OverMaxIn(qs, a, n, inA, d) {
      UseGrows(qs, a, b, n, d);
      assert OverMaxIn(qs, b, n, inB, d);
    } else {
      var d :| OverTotalIn(qs, a, overA, d);
      forall m | m in qs ensures UsedInWith(qs, a, d)(m) <= UsedInWith(qs, b, d)(m) {
        UseGrows(qs, a, b, m, d);
      }
      SumAtMost(qs.Keys, UsedInWith(qs, a, d), UsedInWith(qs, b, d));
      assert OverTotalIn(qs, b, overB, d);
    }
  }
}
