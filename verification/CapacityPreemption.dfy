/**
  Victim selection of the capacity plugin: candidates are chosen by quota, taken off the node
  and out of the quota snapshot, and put back one by one while the preemptor still fits and
  the quotas still hold.
 */
module CapacityPreemption {
  import opened Pods
  import opened Sums
  import opened DisruptionBudgets
  import opened Reprieve
  import opened VictimSelection
  import opened QuotaModel
  import opened QuotaSafety
  import opened PreemptionQuotas
  import opened ElasticQuotas

  /** The preemptor, what PreFilter left for it, and whether it fits a node with the given pods. */
  datatype Setting = Setting(pod: Pod, state: PreFilterState, fits: set<Pod> -> bool)

  // ----- the first pass

  /**
    A preemptor within its quota's min takes back what other quotas borrowed; one beyond it may
    only displace less important pods of its own quota; one without a quota only pods without one.
   */
  predicate Picks(qs: Quotas, pod: Pod, moreThanMin: bool, p: Pod)
  {
    if pod.namespace !in qs then
      p.namespace !in qs && p.priority < pod.priority
    else
      && p.namespace in qs
      && if moreThanMin then p.namespace == pod.namespace && p.priority < pod.priority
         else p.namespace != pod.namespace && UsedOverMin(qs[p.namespace])
  }

  /** The snapshot after the pass over `walk`; what is picked depends on what was picked before. */
  function PassQuotas(qs: Quotas, pod: Pod, moreThanMin: bool, walk: seq<Pod>): Quotas
  {
    if walk == [] then qs else
      var before, p := PassQuotas(qs, pod, moreThanMin, walk[..|walk| - 1]), walk[|walk| - 1];
      if Picks(before, pod, moreThanMin, p) then RemoveFrom(before, p) else before
  }

  function Picked(qs: Quotas, pod: Pod, moreThanMin: bool, walk: seq<Pod>): seq<Pod>
  {
    if walk == [] then [] else
      var before, p := PassQuotas(qs, pod, moreThanMin, walk[..|walk| - 1]), walk[|walk| - 1];
      var sofar := Picked(qs, pod, moreThanMin, walk[..|walk| - 1]);
      if Picks(before, pod, moreThanMin, p) then sofar + [p] else sofar
  }

  ghost predicate SameLimits(a: Quotas, b: Quotas)
  {
    a.Keys == b.Keys && forall n :: n in a ==> a[n].min == b[n].min && a[n].max == b[n].max
  }

  lemma {:induction false} PassKeepsLimits(qs: Quotas, pod: Pod, moreThanMin: bool, walk: seq<Pod>)
    ensures SameLimits(qs, PassQuotas(qs, pod, moreThanMin, walk))
  {
    if walk != [] {
      PassKeepsLimits(qs, pod, moreThanMin, walk[..|walk| - 1]);
    }
  }

  /** The pods are distinct pods of the pool and accounted nowhere. */
  ghost predicate AreOut(candidates: seq<Pod>, qs: Quotas, pool: set<Pod>)
  {
    && Distinct(candidates) && Elements(candidates) <= pool
    && forall p :: p in candidates && p.namespace in qs ==> p.uid !in qs[p.namespace].pods
  }

  lemma OneMoreOut(candidates: seq<Pod>, qs: Quotas, pool: set<Pod>, p: Pod)
    requires AreOut(candidates, qs, pool) && p !in pool && HaveKeys(pool + {p})
    ensures AreOut(candidates + [p], RemoveFrom(qs, p), pool + {p})
  {
    hide Minus;
    forall q | q in candidates + [p] ensures q in pool + {p} {
      if q != p {
        assert q in Elements(candidates);
      }
    }
    assert p !in Elements(candidates);
  }

  lemma OutOfMore(candidates: seq<Pod>, qs: Quotas, pool: set<Pod>, more: set<Pod>)
    requires AreOut(candidates, qs, pool) && pool <= more
    ensures AreOut(candidates, qs, more)
  {
  }

  /** The last pod of a walk is not one of those before it. */
  lemma LastOfWalk(walk: seq<Pod>)
    requires walk != [] && Distinct(walk)
    ensures var rest, last := walk[..|walk| - 1], walk[|walk| - 1];
      Distinct(rest) && last !in Elements(rest) && Elements(walk) == Elements(rest) + {last}
  {
    var rest, last := walk[..|walk| - 1], walk[|walk| - 1];
    assert walk == rest + [last];
  }

  /** Picked pods come from the walk, each once, and are no longer accounted anywhere. */
  lemma {:induction false} PickedAreOut(qs: Quotas, pod: Pod, moreThanMin: bool, walk: seq<Pod>)
    requires Distinct(walk) && HaveKeys(Elements(walk))
    ensures AreOut(Picked(qs, pod, moreThanMin, walk), PassQuotas(qs, pod, moreThanMin, walk), Elements(walk))
  {
    hide AreOut, Picks, RemoveFrom, Distinct, HaveKeys;
    if walk == [] {
      NoneOut(qs, Elements(walk));
    } else {
      var rest, last := walk[..|walk| - 1], walk[|walk| - 1];
      LastOfWalk(walk);
      SubsetHasKeys(Elements(rest), Elements(walk));
      PickedAreOut(qs, pod, moreThanMin, rest);
      var sofar, before := Picked(qs, pod, moreThanMin, rest), PassQuotas(qs, pod, moreThanMin, rest);
      OneMoreOut(sofar, before, Elements(rest), last);
      OutOfMore(sofar, before, Elements(rest), Elements(walk));
    }
  }

  lemma NoneOut(qs: Quotas, pool: set<Pod>)
    ensures AreOut([], qs, pool)
  {
  }

  lemma SubsetHasKeys(part: set<Pod>, pool: set<Pod>)
    requires HaveKeys(pool) && part <= pool
    ensures HaveKeys(part)
  {
  }

  /** The last pod of namespace `n` in the list. */
  ghost function LastOf(pods: seq<Pod>, n: string): Pod
    requires exists p :: p in pods && p.namespace == n
  {
    var last := pods[|pods| - 1];
    if last.namespace == n then last else
      assert pods == pods[..|pods| - 1] + [last];
      LastOf(pods[..|pods| - 1], n)
  }

  lemma {:induction false} LastOfIn(pods: seq<Pod>, n: string)
    requires exists p :: p in pods && p.namespace == n
    ensures LastOf(pods, n) in pods && LastOf(pods, n).namespace == n
  {
    var last := pods[|pods| - 1];
    assert pods == pods[..|pods| - 1] + [last];
    if last.namespace != n {
      LastOfIn(pods[..|pods| - 1], n);
    }
  }

  /** With the pod accounted on top, the quota is over its min in some dimension. */
  ghost predicate OverMinWith(q: Quota, p: Pod)
  {
    exists d :: Get(q.used, d) + Get(p.request, d) > Get(q.min, d)
  }

  lemma PickingLeavesOneOver(q: Quota, p: Pod)
    requires UsedOverMin(q) && NonNegative(q.min) && NonNegative(p.request)
    ensures OverMinWith(WithoutPod(q, p), p)
  {
    OverMinSomewhere(q);
    var d :| Get(q.used, d) > Get(q.min, d);
    assert Get(WithoutPod(q, p).used, d) + Get(p.request, d) > Get(q.min, d);
  }

  /** After the pass, every other quota that lost pods would be over its min with the last of them back. */
  lemma {:induction false} PassTakesOnePastMin(qs: Quotas, pod: Pod, walk: seq<Pod>, n: string)
    requires pod.namespace in qs && MinsNonNegative(qs) && AllNonNegative(Elements(walk))
    requires exists p :: p in Picked(qs, pod, false, walk) && p.namespace == n
    ensures n in PassQuotas(qs, pod, false, walk)
    ensures OverMinWith(PassQuotas(qs, pod, false, walk)[n], LastOf(Picked(qs, pod, false, walk), n))
  {
    hide UsedOverMin, Minus;
    var rest, last := walk[..|walk| - 1], walk[|walk| - 1];
    var before, sofar := PassQuotas(qs, pod, false, rest), Picked(qs, pod, false, rest);
    PassKeepsLimits(qs, pod, false, rest);
    if Picks(before, pod, false, last) && last.namespace == n {
      assert last in Elements(walk);
      PickingLeavesOneOver(before[n], last);
      assert (sofar + [last])[|sofar|] == last;
    } else {
      var p :| p in Picked(qs, pod, false, walk) && p.namespace == n;
      assert p in sofar;
      assert Elements(rest) <= Elements(walk);
      PassTakesOnePastMin(qs, pod, rest, n);
      assert (sofar + [last])[..|sofar|] == sofar;
    }
  }

  // ----- who the candidates are, in plain words

  ghost function AsksFor(d: Dim): Pod -> int
  {
    (p: Pod) => Get(p.request, d)
  }

  /** The pods of namespace `n` among `gone` that the quota counts. */
  ghost function CountedAmong(gone: set<Pod>, q: Quota, n: string): set<Pod>
  {
    set p | p in gone && p.namespace == n && p.uid in q.pods
  }

  /** Without those pods the quota is still used beyond its min in some dimension. */
  ghost predicate OverMinWithout(q: Quota, n: string, gone: set<Pod>)
  {
    exists d :: Get(q.used, d) - Sum(CountedAmong(gone, q, n), AsksFor(d)) > Get(q.min, d)
  }

  /** The quota, with the request on top, is used beyond its min in some dimension the request names. */
  ghost predicate WouldExceedMin(q: Quota, request: Resource)
  {
    exists d: Dim :: (d.Scalar? ==> d.name in request.scalars) && Get(q.used, d) + Get(request, d) > Get(q.min, d)
  }

  /**
    A preemptor without a quota takes exactly the less important pods without one. One that would
    exceed its own min takes exactly the less important pods of its namespace. Any other takes, pod by
    pod along the walk, exactly the pods of other quotas that are over min without those taken before.
   */
  ghost predicate AreCandidates(qs: Quotas, s: Setting, walk: seq<Pod>, candidates: seq<Pod>)
  {
    && (forall p :: p in candidates ==> p in walk)
    && forall i :: 0 <= i < |walk| ==>
         var p := walk[i];
         p in candidates <==>
           if s.pod.namespace !in qs then
             p.namespace !in qs && p.priority < s.pod.priority
           else if WouldExceedMin(qs[s.pod.namespace], s.state.inQuota) then
             p.namespace == s.pod.namespace && p.priority < s.pod.priority
           else
             && p.namespace in qs && p.namespace != s.pod.namespace
             && OverMinWithout(qs[p.namespace], p.namespace, Elements(walk[..i]) * Elements(candidates))
  }

  /** What the pass leaves of a quota: the pods picked from it are gone, with what they asked for. */
  ghost predicate IsWithout(q: Quota, before: Quota, n: string, gone: set<Pod>)
  {
    && q.min == before.min
    && (forall d :: Get(q.used, d) == Get(before.used, d) - Sum(CountedAmong(gone, before, n), AsksFor(d)))
    && (forall uid :: uid in q.pods <==>
          uid in before.pods && forall p :: p in CountedAmong(gone, before, n) ==> p.uid != uid)
  }

  lemma WithoutOneMore(q: Quota, before: Quota, n: string, gone: set<Pod>, p: Pod)
    requires IsWithout(q, before, n, gone) && HaveKeys(gone + {p}) && p !in gone && p.namespace == n
    ensures IsWithout(WithoutPod(q, p), before, n, gone + {p})
  {
    hide Minus;
    var counted, more := CountedAmong(gone, before, n), CountedAmong(gone + {p}, before, n);
    assert p.uid in q.pods <==> p.uid in before.pods by {
      assert forall x :: x in counted ==> x.uid != p.uid;
    }
    if p.uid in before.pods {
      assert more == counted + {p} && more - {p} == counted;
      forall d {
        SumTake(more, p, AsksFor(d));
      }
    } else {
      assert more == counted;
    }
  }

  lemma WithoutAnother(q: Quota, before: Quota, n: string, gone: set<Pod>, p: Pod)
    requires IsWithout(q, before, n, gone) && p.namespace != n
    ensures IsWithout(q, before, n, gone + {p})
  {
    assert CountedAmong(gone + {p}, before, n) == CountedAmong(gone, before, n);
  }

  lemma {:induction false} PassLeaves(qs: Quotas, pod: Pod, moreThanMin: bool, walk: seq<Pod>, n: string)
    requires Distinct(walk) && HaveKeys(Elements(walk)) && n in qs
    ensures n in PassQuotas(qs, pod, moreThanMin, walk)
    ensures IsWithout(PassQuotas(qs, pod, moreThanMin, walk)[n], qs[n], n, Elements(Picked(qs, pod, moreThanMin, walk)))
  {
    hide IsWithout, Picks, WithoutPod, HaveKeys, Distinct;
    if walk == [] {
      WithoutNone(qs[n], n);
    } else {
      var rest, last := walk[..|walk| - 1], walk[|walk| - 1];
      LastOfWalk(walk);
      SubsetHasKeys(Elements(rest), Elements(walk));
      PassLeaves(qs, pod, moreThanMin, rest, n);
      PickNext(qs, pod, moreThanMin, walk, |rest|);
      assert walk[..|rest| + 1] == walk;
      PickedAreOut(qs, pod, moreThanMin, rest);
      var sofar, before := Picked(qs, pod, moreThanMin, rest), PassQuotas(qs, pod, moreThanMin, rest);
      SubsetHasKeys(Elements(sofar) + {last}, Elements(walk));
      if Picks(before, pod, moreThanMin, last) {
        if last.namespace == n {
          WithoutOneMore(before[n], qs[n], n, Elements(sofar), last);
        } else {
          WithoutAnother(before[n], qs[n], n, Elements(sofar), last);
        }
      }
    }
  }

  lemma WithoutNone(q: Quota, n: string)
    ensures IsWithout(q, q, n, Elements([]))
  {
    assert CountedAmong(Elements([]), q, n) == {};
  }

  /** What is picked does not depend on the pods that come later. */
  lemma {:induction false} PickedPrefix(qs: Quotas, pod: Pod, moreThanMin: bool, walk: seq<Pod>, i: nat)
    requires Distinct(walk) && HaveKeys(Elements(walk)) && i <= |walk|
    ensures Elements(Picked(qs, pod, moreThanMin, walk[..i]))
         == Elements(walk[..i]) * Elements(Picked(qs, pod, moreThanMin, walk))
    decreases |walk|
  {
    hide Picks, HaveKeys, Distinct, PassQuotas, Picked;
    if i == |walk| {
      assert walk[..i] == walk;
      PickedAreOut(qs, pod, moreThanMin, walk);
    } else {
      var rest, last := walk[..|walk| - 1], walk[|walk| - 1];
      LastOfWalk(walk);
      SubsetHasKeys(Elements(rest), Elements(walk));
      PickedPrefix(qs, pod, moreThanMin, rest, i);
      assert rest[..i] == walk[..i] && walk[..|rest| + 1] == walk;
      PickNext(qs, pod, moreThanMin, walk, |rest|);
      assert last !in Elements(walk[..i]);
    }
  }

  /** The pods the pass picks are the candidates in plain words. */
  lemma PickedAreCandidates(qs: Quotas, s: Setting, walk: seq<Pod>)
    requires MinsNonNegative(qs) && Distinct(walk) && HaveKeys(Elements(walk))
    ensures AreCandidates(qs, s, walk, FirstPassOf(qs, s, walk).candidates)
  {
    hide Picked, PassQuotas, HaveKeys, Distinct, OverMinWithout, WouldExceedMin, UsedOverMinWith, MinsNonNegative;
    var moreThanMin := s.pod.namespace in qs && UsedOverMinWith(qs[s.pod.namespace], s.state.inQuota);
    var candidates := Picked(qs, s.pod, moreThanMin, walk);
    if s.pod.namespace in qs {
      WouldExceedMeans(qs[s.pod.namespace], s.state.inQuota);
    }
    PickedAreOut(qs, s.pod, moreThanMin, walk);
    forall p | p in candidates ensures p in walk {
      assert p in Elements(candidates);
    }
    forall i | 0 <= i < |walk|
      ensures walk[i] in candidates <==>
        Picks(PassQuotas(qs, s.pod, moreThanMin, walk[..i]), s.pod, moreThanMin, walk[i])
      ensures walk[i].namespace in qs ==>
        (walk[i].namespace in PassQuotas(qs, s.pod, moreThanMin, walk[..i])
         && (UsedOverMin(PassQuotas(qs, s.pod, moreThanMin, walk[..i])[walk[i].namespace]) <==>
             OverMinWithout(qs[walk[i].namespace], walk[i].namespace, Elements(walk[..i]) * Elements(candidates))))
    {
      PickedOrNot(qs, s.pod, moreThanMin, walk, i);
    }
    PassKeepsKeys(qs, s.pod, moreThanMin, walk);
  }

  lemma WouldExceedMeans(q: Quota, request: Resource)
    ensures WouldExceedMin(q, request) <==> UsedOverMinWith(q, request)
  {
    UsedOverMinWithMeans(q, request);
  }

  lemma PassKeepsKeys(qs: Quotas, pod: Pod, moreThanMin: bool, walk: seq<Pod>)
    ensures forall i :: 0 <= i < |walk| ==> PassQuotas(qs, pod, moreThanMin, walk[..i]).Keys == qs.Keys
  {
    forall i | 0 <= i < |walk| {
      PassKeepsLimits(qs, pod, moreThanMin, walk[..i]);
    }
  }

  lemma PickedOrNot(qs: Quotas, pod: Pod, moreThanMin: bool, walk: seq<Pod>, i: nat)
    requires MinsNonNegative(qs) && Distinct(walk) && HaveKeys(Elements(walk)) && i < |walk|
    ensures var candidates, p := Picked(qs, pod, moreThanMin, walk), walk[i];
      var now := PassQuotas(qs, pod, moreThanMin, walk[..i]);
      && (p in candidates <==> Picks(now, pod, moreThanMin, p))
      && (p.namespace in qs ==>
            p.namespace in now
            && (UsedOverMin(now[p.namespace]) <==>
                OverMinWithout(qs[p.namespace], p.namespace, Elements(walk[..i]) * Elements(candidates))))
  {
    hide Picks, HaveKeys, Distinct, PassQuotas, Picked;
    var p, candidates := walk[i], Picked(qs, pod, moreThanMin, walk);
    PickedPrefix(qs, pod, moreThanMin, walk, i);
    PickedPrefix(qs, pod, moreThanMin, walk, i + 1);
    PickNext(qs, pod, moreThanMin, walk, i);
    assert p in Elements(walk[..i + 1]) by {
      assert walk[..i + 1][i] == p;
    }
    assert p in candidates <==> p in Elements(candidates);
    if p.namespace in qs {
      PrefixOfWalk(walk, i);
      PassLeaves(qs, pod, moreThanMin, walk[..i], p.namespace);
      OverMinSomewhere(PassQuotas(qs, pod, moreThanMin, walk[..i])[p.namespace]);
    }
  }

  lemma PrefixOfWalk(walk: seq<Pod>, i: nat)
    requires Distinct(walk) && HaveKeys(Elements(walk)) && i <= |walk|
    ensures Distinct(walk[..i]) && HaveKeys(Elements(walk[..i]))
  {
    SubsetHasKeys(Elements(walk[..i]), Elements(walk));
  }

  // ----- moving pods in the dry run

  /** Off the node and out of the snapshot; fails, changing nothing, when the pod is not on the node. */
  method RemovePod(node: NodeInfo, snapshot: ElasticQuotaInfos, p: Pod) returns (ok: bool)
    requires snapshot.Valid()
    modifies node, snapshot.infos.Values
    ensures snapshot.Valid() && node.pods == old(node.pods) - {p}
    ensures ok <==> p in old(node.pods)
    ensures snapshot.View() == if ok then RemoveFrom(old(snapshot.View()), p) else old(snapshot.View())
  {
    ok := node.RemovePod(p);
    if ok {
      var _ := snapshot.RemovePod(p);
    }
  }

  method AddPod(node: NodeInfo, snapshot: ElasticQuotaInfos, p: Pod)
    requires snapshot.Valid()
    modifies node, snapshot.infos.Values
    ensures snapshot.Valid() && node.pods == old(node.pods) + {p}
    ensures snapshot.View() == AddTo(old(snapshot.View()), p)
  {
    node.AddPod(p);
    var _ := snapshot.AddPod(p);
  }

  method PickCandidates(node: NodeInfo, snapshot: ElasticQuotaInfos, pod: Pod, moreThanMin: bool, walk: seq<Pod>)
    returns (candidates: seq<Pod>, ok: bool)
    requires snapshot.Valid() && Distinct(walk) && HaveKeys(Elements(walk)) && node.pods == Elements(walk)
    modifies node, snapshot.infos.Values
    ensures snapshot.Valid() && ok
    ensures candidates == Picked(old(snapshot.View()), pod, moreThanMin, walk)
    ensures snapshot.View() == PassQuotas(old(snapshot.View()), pod, moreThanMin, walk)
    ensures node.pods == Elements(walk) - Elements(candidates)
    ensures pod.namespace !in old(snapshot.View()) ==> forall p :: p in candidates <==>
              p in walk && p.namespace !in old(snapshot.View()) && p.priority < pod.priority
    ensures pod.namespace in old(snapshot.View()) && moreThanMin ==> forall p :: p in candidates <==>
              p in walk && p.namespace == pod.namespace && p.priority < pod.priority
    ensures pod.namespace in old(snapshot.View()) && !moreThanMin ==> forall p :: p in candidates ==>
              p in walk && p.namespace in old(snapshot.View()) && p.namespace != pod.namespace
  {
    LessImportantPicked(snapshot.View(), pod, moreThanMin, walk);
    hide UsedOverMin, RemoveFrom, HaveKeys, Distinct, Picks, Picked, PassQuotas;
    ghost var qs := snapshot.View();
    candidates, ok := [], true;
    NothingPicked(qs, pod, moreThanMin, walk);
    for i := 0 to |walk|
      invariant ok && snapshot.Valid() && candidates == Picked(qs, pod, moreThanMin, walk[..i])
      invariant snapshot.View() == PassQuotas(qs, pod, moreThanMin, walk[..i])
      invariant node.pods == Elements(walk) - Elements(candidates)
    {
      var p := walk[i];
      PickNext(qs, pod, moreThanMin, walk, i);
      if Picks(snapshot.View(), pod, moreThanMin, p) {
        candidates := candidates + [p];
        ok := RemovePod(node, snapshot, p);
      }
    }
    assert walk[..|walk|] == walk;
  }

  lemma {:induction false} LessImportantPicked(qs: Quotas, pod: Pod, moreThanMin: bool, walk: seq<Pod>)
    ensures pod.namespace !in qs ==> forall p :: p in Picked(qs, pod, moreThanMin, walk) <==>
              p in walk && p.namespace !in qs && p.priority < pod.priority
    ensures pod.namespace in qs && moreThanMin ==> forall p :: p in Picked(qs, pod, moreThanMin, walk) <==>
              p in walk && p.namespace == pod.namespace && p.priority < pod.priority
    ensures pod.namespace in qs && !moreThanMin ==> forall p :: p in Picked(qs, pod, moreThanMin, walk) ==>
              p in walk && p.namespace in qs && p.namespace != pod.namespace
  {
    hide UsedOverMin, PassQuotas;
    if walk != [] {
      var rest, last := walk[..|walk| - 1], walk[|walk| - 1];
      assert walk == rest + [last];
      LessImportantPicked(qs, pod, moreThanMin, rest);
      PassKeepsLimits(qs, pod, moreThanMin, rest);
    }
  }

  lemma NothingPicked(qs: Quotas, pod: Pod, moreThanMin: bool, walk: seq<Pod>)
    ensures Picked(qs, pod, moreThanMin, walk[..0]) == [] && PassQuotas(qs, pod, moreThanMin, walk[..0]) == qs
  {
  }

  /** Pod `i` of the walk is still on the node, and is picked by the quotas as they are then. */
  lemma PickNext(qs: Quotas, pod: Pod, moreThanMin: bool, walk: seq<Pod>, i: nat)
    requires i < |walk| && Distinct(walk) && HaveKeys(Elements(walk))
    ensures var sofar, before := Picked(qs, pod, moreThanMin, walk[..i]), PassQuotas(qs, pod, moreThanMin, walk[..i]);
      var picks := Picks(before, pod, moreThanMin, walk[i]);
      && Picked(qs, pod, moreThanMin, walk[..i + 1]) == (if picks then sofar + [walk[i]] else sofar)
      && PassQuotas(qs, pod, moreThanMin, walk[..i + 1]) == (if picks then RemoveFrom(before, walk[i]) else before)
      && walk[i] in Elements(walk) - Elements(sofar)
      && Elements(sofar + [walk[i]]) == Elements(sofar) + {walk[i]}
  {
    hide Picks, RemoveFrom;
    assert walk[..i + 1][..i] == walk[..i];
    LastOfWalk(walk[..i + 1]);
    SubsetHasKeys(Elements(walk[..i]), Elements(walk));
    PickedAreOut(qs, pod, moreThanMin, walk[..i]);
  }

  // ----- the reprieve

  /** The quota test with the nominated pods on top. */
  ghost predicate OverWith(s: Setting, qs: Quotas, back: set<Pod>)
  {
    s.pod.namespace in qs && OverQuota(qs, back, s.pod.namespace, s.state.inQuota, s.state.overall)
  }

  /** Putting back is acceptable when the preemptor fits and the quota test passes. */
  ghost function Accept(s: Setting, qs: Quotas, base: set<Pod>): set<Pod> -> bool
  {
    back => s.fits(base + back) && !OverWith(s, qs, back)
  }

  /** The test as the code runs it, on the snapshot. */
  method OverQuotaNow(snapshot: ElasticQuotaInfos, s: Setting, ghost qs: Quotas, ghost back: set<Pod>,
      ghost pool: set<Pod>)
    returns (over: bool)
    requires MinsNonNegative(qs) && Tracks(snapshot.View(), qs, back, pool)
    ensures over <==> OverWith(s, qs, back)
  {
    var now := snapshot.View();
    over := false;
    if s.pod.namespace in now {
      TracksTest(now, qs, back, pool, s.pod.namespace, s.state.inQuota, s.state.overall);
      over := UsedOverMaxWith(now[s.pod.namespace], s.state.inQuota);
      if !over {
        over := AggregatedUsedOverMinWith(now, s.state.overall);
      }
    }
  }

  /**
    One turn. A pod that keeps the preemptor from fitting is taken off again before the quota test;
    should the test then fail without it, it is taken off a second time, which is an error.
   */
  method ReprievePod(node: NodeInfo, snapshot: ElasticQuotaInfos, s: Setting, p: Pod,
                     ghost qs: Quotas, ghost base: set<Pod>, ghost back: set<Pod>, ghost pool: set<Pod>)
    returns (fit: bool, kept: bool, ok: bool)
    requires snapshot.Valid() && MinsNonNegative(qs) && Tracks(snapshot.View(), qs, back, pool)
    requires HaveKeys(pool) && p in pool && p !in base + back && node.pods == base + back
    modifies node, snapshot.infos.Values
    ensures snapshot.Valid() && fit == s.fits(base + (back + {p}))
    ensures ok <==> fit || !OverWith(s, qs, back)
    ensures ok ==> kept == Accept(s, qs, base)(back + {p})
    ensures ok ==> node.pods == base + if kept then back + {p} else back
    ensures ok ==> Tracks(snapshot.View(), qs, if kept then back + {p} else back, pool)
  {
    hide Tracks, AddTo, RemoveFrom;
    AddPod(node, snapshot, p);
    TracksAdd(old(snapshot.View()), qs, back, pool, p);
    assert base + back + {p} == base + (back + {p});
    assert base + (back + {p}) - {p} == base + back;
    fit, kept, ok := s.fits(node.pods), true, true;
    if !fit {
      TracksRemove(snapshot.View(), qs, back, pool, p);
      ok := RemovePod(node, snapshot, p);
      kept := false;
    }
    var over := OverQuotaNow(snapshot, s, qs, if kept then back + {p} else back, pool);
    if over {
      if fit {
        TracksRemove(snapshot.View(), qs, back, pool, p);
      }
      ok := RemovePod(node, snapshot, p);
      kept := false;
    }
  }

  /** What has been put back before turn `i`. */
  ghost function BackBefore(s: Setting, qs: Quotas, base: set<Pod>, order: seq<Pod>, i: nat): set<Pod>
    requires i <= |order|
  {
    Kept(order, Greedy(i, By(Accept(s, qs, base), order)))
  }

  /** At turn `i` the preemptor does not fit with the pod put back. */
  ghost predicate IsUnfit(s: Setting, qs: Quotas, base: set<Pod>, order: seq<Pod>, i: nat)
    requires i < |order|
  {
    !s.fits(base + (BackBefore(s, qs, base, order, i) + {order[i]}))
  }

  /** At turn `i` the pod would be taken off twice. */
  ghost predicate IsStuck(s: Setting, qs: Quotas, base: set<Pod>, order: seq<Pod>, i: nat)
    requires i < |order|
  {
    IsUnfit(s, qs, base, order, i) && OverWith(s, qs, BackBefore(s, qs, base, order, i))
  }

  ghost function CountUnfit(s: Setting, qs: Quotas, base: set<Pod>, order: seq<Pod>, n: nat): nat
    requires n <= |order|
  {
    if n == 0 then 0 else CountUnfit(s, qs, base, order, n - 1) + if IsUnfit(s, qs, base, order, n - 1) then 1 else 0
  }

  /** The state of the dry run after `n` turns. */
  ghost predicate AfterTurns(node: NodeInfo, snapshot: ElasticQuotaInfos, s: Setting, qs: Quotas, base: set<Pod>,
      order: seq<Pod>, n: nat, victims: seq<Pod>)
    requires n <= |order|
    reads node, snapshot, snapshot.infos.Values
  {
    && snapshot.Valid() && node.pods == base + BackBefore(s, qs, base, order, n)
    && Tracks(snapshot.View(), qs, BackBefore(s, qs, base, order, n), Elements(order))
    && victims == LeftOut(order, Greedy(n, By(Accept(s, qs, base), order)))
  }

  lemma NextTurn(s: Setting, qs: Quotas, base: set<Pod>, order: seq<Pod>, i: nat, kept: bool)
    requires i < |order| && Distinct(order) && base !! Elements(order)
    requires kept == Accept(s, qs, base)(BackBefore(s, qs, base, order, i) + {order[i]})
    ensures var back := BackBefore(s, qs, base, order, i);
      && order[i] !in base + back
      && BackBefore(s, qs, base, order, i + 1) == if kept then back + {order[i]} else back
    ensures var m := Greedy(i, By(Accept(s, qs, base), order));
      LeftOut(order, Greedy(i + 1, By(Accept(s, qs, base), order)))
        == if kept then LeftOut(order, m) else LeftOut(order, m) + [order[i]]
  {
    hide LeftOut, Accept;
    var ok := By(Accept(s, qs, base), order);
    var m := Greedy(i, ok);
    NotYetBack(order, m, base);
    KeptExtends(order, m, true);
    GreedyNext(i, ok, kept);
    KeptExtends(order, m, kept);
    LeftOutExtends(order, m, kept);
    assert Kept(order, m) + {} == Kept(order, m);
  }

  /** Turn `i`. */
  method TakeTurn(node: NodeInfo, snapshot: ElasticQuotaInfos, s: Setting, p: Pod, victims: seq<Pod>,
                  ghost qs: Quotas, ghost base: set<Pod>, ghost order: seq<Pod>, ghost i: nat)
    returns (victims': seq<Pod>, fit: bool, ok: bool)
    requires i < |order| && p == order[i]
    requires Distinct(order) && HaveKeys(Elements(order)) && base !! Elements(order) && MinsNonNegative(qs)
    requires AfterTurns(node, snapshot, s, qs, base, order, i, victims)
    modifies node, snapshot.infos.Values
    ensures snapshot.Valid()
    ensures fit <==> !IsUnfit(s, qs, base, order, i)
    ensures ok <==> !IsStuck(s, qs, base, order, i)
    ensures ok ==> AfterTurns(node, snapshot, s, qs, base, order, i + 1, victims')
  {
    hide Tracks, Kept, LeftOut, Greedy, Accept, OverWith, HaveKeys, MinsNonNegative, Distinct;
    ghost var back := BackBefore(s, qs, base, order, i);
    assert p in Elements(order);
    NextTurn(s, qs, base, order, i, Accept(s, qs, base)(back + {p}));
    var kept;
    fit, kept, ok := ReprievePod(node, snapshot, s, p, qs, base, back, Elements(order));
    victims' := if kept then victims else victims + [p];
  }

  /** The turns of one group, the stretch of `order` from `n` on. Stops at the first turn that gets stuck. */
  method ReprieveGroup(node: NodeInfo, snapshot: ElasticQuotaInfos, s: Setting, group: seq<Pod>, victims: seq<Pod>,
                       ghost qs: Quotas, ghost base: set<Pod>, ghost order: seq<Pod>, ghost n: nat)
    returns (victims': seq<Pod>, unfit: nat, ok: bool)
    requires n + |group| <= |order| && group == order[n..n + |group|]
    requires Distinct(order) && HaveKeys(Elements(order)) && base !! Elements(order) && MinsNonNegative(qs)
    requires AfterTurns(node, snapshot, s, qs, base, order, n, victims)
    modifies node, snapshot.infos.Values
    ensures ok <==> forall i :: n <= i < n + |group| ==> !IsStuck(s, qs, base, order, i)
    ensures ok ==> AfterTurns(node, snapshot, s, qs, base, order, n + |group|, victims')
    ensures ok ==> CountUnfit(s, qs, base, order, n + |group|) == CountUnfit(s, qs, base, order, n) + unfit
  {
    hide AfterTurns, IsUnfit, IsStuck, HaveKeys, MinsNonNegative, Distinct;
    victims', unfit := victims, 0;
    for i := 0 to |group|
      invariant AfterTurns(node, snapshot, s, qs, base, order, n + i, victims')
      invariant forall j :: n <= j < n + i ==> !IsStuck(s, qs, base, order, j)
      invariant CountUnfit(s, qs, base, order, n + i) == CountUnfit(s, qs, base, order, n) + unfit
    {
      var fit, fine;
      victims', fit, fine := TakeTurn(node, snapshot, s, group[i], victims', qs, base, order, n + i);
      if !fine {
        return victims', unfit, false;
      }
      if !fit {
        unfit := unfit + 1;
      }
    }
    ok := true;
  }

  /**
    When the loop gets stuck. The nominated pods alone are over quota although every candidate is
    gone, and some candidate, put back alone, keeps the preemptor from fitting: nothing else does it.
   */
  lemma StuckExactlyWhen(s: Setting, qs: Quotas, base: set<Pod>, order: seq<Pod>)
    requires AllNonNegative(Elements(order))
    ensures (exists i :: 0 <= i < |order| && IsStuck(s, qs, base, order, i)) <==>
              OverWith(s, qs, {}) && exists i :: 0 <= i < |order| && !s.fits(base + {order[i]})
  {
    forall i | 0 <= i < |order|
      ensures OverWith(s, qs, BackBefore(s, qs, base, order, i)) <==>
          OverWith(s, qs, {}) && BackBefore(s, qs, base, order, i) == {}
    {
      StuckTurn(s, qs, base, order, i);
    }
    forall i | 0 <= i < |order| && BackBefore(s, qs, base, order, i) == {} ensures {} + {order[i]} == {order[i]} {
    }
    forall i | 0 <= i < |order| && OverWith(s, qs, {})
      ensures IsStuck(s, qs, base, order, i) <==> !s.fits(base + {order[i]})
    {
      StuckTurn(s, qs, base, order, i);
      assert BackBefore(s, qs, base, order, i) + {order[i]} == {order[i]};
    }
  }

  lemma StuckTurn(s: Setting, qs: Quotas, base: set<Pod>, order: seq<Pod>, i: nat)
    requires AllNonNegative(Elements(order)) && i < |order|
    ensures OverWith(s, qs, {}) ==> BackBefore(s, qs, base, order, i) == {}
    ensures OverWith(s, qs, BackBefore(s, qs, base, order, i)) ==> BackBefore(s, qs, base, order, i) == {}
  {
    var back := BackBefore(s, qs, base, order, i);
    ChosenIsAccepted(Accept(s, qs, base), order, i);
    assert back <= Elements(order);
    if OverWith(s, qs, {}) {
      OverQuotaIsMonotone(qs, {}, back, s.pod.namespace, s.state.inQuota, s.state.overall, s.state.inQuota,
          s.state.overall);
      assert OverWith(s, qs, back);
      assert !Accept(s, qs, base)(back);
    }
  }

  lemma NoTurnsYet(s: Setting, qs: Quotas, base: set<Pod>, order: seq<Pod>)
    ensures BackBefore(s, qs, base, order, 0) == {} && base + {} == base
    ensures LeftOut(order, Greedy(0, By(Accept(s, qs, base), order))) == []
    ensures CountUnfit(s, qs, base, order, 0) == 0
  {
    NothingChosenYet(order, By(Accept(s, qs, base), order), base);
    assert Kept(order, []) == {};
  }

  /** Being stuck is about the candidates, not about the order in which they are tried. */
  lemma StuckOverCandidates(s: Setting, qs: Quotas, base: set<Pod>, order: seq<Pod>, candidates: seq<Pod>)
    requires Elements(order) == Elements(candidates) && AllNonNegative(Elements(candidates))
    ensures (exists i :: 0 <= i < |order| && IsStuck(s, qs, base, order, i)) <==> FailsOver(s, qs, base, candidates)
  {
    hide IsStuck, OverWith;
    StuckExactlyWhen(s, qs, base, order);
    forall p ensures (p in candidates <==> p in Elements(order)) {
      assert p in candidates <==> p in Elements(candidates);
    }
  }

  /** The nominated pods alone are over quota, and some candidate put back alone keeps the preemptor from fitting. */
  ghost predicate FailsOver(s: Setting, qs: Quotas, base: set<Pod>, candidates: seq<Pod>)
  {
    OverWith(s, qs, {}) && exists p :: p in candidates && !s.fits(base + {p})
  }

  method ReprieveAll(node: NodeInfo, snapshot: ElasticQuotaInfos, s: Setting, candidates: seq<Pod>,
      budgets: seq<Budget>, ghost qs: Quotas)
    returns (victims: seq<Pod>, numViolating: nat, ok: bool, ghost ranked: seq<Pod>, ghost kept: set<Pod>)
    requires snapshot.Valid() && Tracks(snapshot.View(), qs, {}, Elements(candidates)) && MinsNonNegative(qs)
    requires Distinct(candidates) && HaveKeys(Elements(candidates)) && AllNonNegative(Elements(candidates))
    requires node.pods !! Elements(candidates)
    modifies node, snapshot.infos.Values
    ensures multiset(ranked) == multiset(candidates) && Sorted(ranked)
    ensures ok <==> !FailsOver(s, qs, old(node.pods), candidates)
    ensures ok ==> var base := old(node.pods);
      && node.pods == base + kept
      && snapshot.Valid() && Tracks(snapshot.View(), qs, kept, Elements(candidates))
      && IsSelection(ranked, budgets, Accept(s, qs, base), kept, victims)
      && numViolating == CountUnfit(s, qs, base, TrialOrder(ranked, budgets), NumViolating(ranked, budgets))
  {
    hide Tracks, Sorted, Distinct, HaveKeys, AllNonNegative, MinsNonNegative, Part, Kept, LeftOut, Greedy, By, Accept,
        FailsOver, IsStuck, CountUnfit;
    ghost var base := node.pods;
    victims, numViolating := [], 0;
    var sorted := SortByImportance(candidates);
    ranked, kept := sorted, {};
    var violating, nonViolating := FilterPodsWithPDBViolation(sorted, budgets);
    ghost var order := TrialOrder(ranked, budgets);
    TrialOrderPermutes(ranked, candidates, budgets);
    NoTurnsYet(s, qs, base, order);
    StuckOverCandidates(s, qs, base, order, candidates);
    assert order[0..0 + |violating|] == violating && order[|violating|..|violating| + |nonViolating|] == nonViolating;
    var found, unfit;
    found, numViolating, ok := ReprieveGroup(node, snapshot, s, violating, [], qs, base, order, 0);
    if ok {
      found, unfit, ok := ReprieveGroup(node, snapshot, s, nonViolating, found, qs, base, order, |violating|);
      if ok {
        kept := BackBefore(s, qs, base, order, |order|);
        victims := OrderVictims(ranked, budgets, Greedy(|order|, By(Accept(s, qs, base), order)), violating,
            nonViolating, found);
      }
    }
  }

  // ----- the whole selection

  datatype Outcome =
    | NoVictims
    | DoesNotFit
    | QuotaExceeded
    | Failed
    | Selected(victims: seq<Pod>, numViolating: nat)

  /** The first pass as a whole: the candidates, the quotas without them, and the pods that stay. */
  datatype FirstPass = FirstPass(candidates: seq<Pod>, quotas: Quotas, base: set<Pod>)

  ghost function FirstPassOf(qs: Quotas, s: Setting, walk: seq<Pod>): FirstPass
  {
    var moreThanMin := s.pod.namespace in qs && UsedOverMinWith(qs[s.pod.namespace], s.state.inQuota);
    var candidates := Picked(qs, s.pod, moreThanMin, walk);
    FirstPass(candidates, PassQuotas(qs, s.pod, moreThanMin, walk), Elements(walk) - Elements(candidates))
  }

  /** The quota test with the request alone. */
  ghost predicate OverAlone(s: Setting, qs: Quotas, back: set<Pod>)
  {
    s.pod.namespace in qs && OverQuota(qs, back, s.pod.namespace, s.state.podReq, s.state.podReq)
  }

  method SelectVictimsOnNode(node: NodeInfo, snapshot: ElasticQuotaInfos, s: Setting, listed: seq<Pod>,
      budgets: seq<Budget>)
    returns (outcome: Outcome, ghost walk: seq<Pod>, ghost ranked: seq<Pod>, ghost kept: set<Pod>)
    requires snapshot.Valid() && MinsNonNegative(snapshot.View())
    requires Distinct(listed) && HaveKeys(Elements(listed)) && AllNonNegative(Elements(listed))
    requires node.pods == Elements(listed)
    modifies node, snapshot.infos.Values
    ensures multiset(walk) == multiset(listed)
    ensures var first := FirstPassOf(old(snapshot.View()), s, walk);
      && (outcome.NoVictims? <==> first.candidates == [])
      && (outcome.DoesNotFit? <==> first.candidates != [] && !s.fits(first.base))
      && (outcome.QuotaExceeded? <==> first.candidates != [] && s.fits(first.base) && OverAlone(s, first.quotas, {}))
      && (outcome.Failed? <==> first.candidates != [] && s.fits(first.base) && !OverAlone(s, first.quotas, {})
                               && FailsOver(s, first.quotas, first.base, first.candidates))
      && (outcome.Selected? ==>
            && multiset(ranked) == multiset(first.candidates) && Sorted(ranked)
            && node.pods == first.base + kept
            && snapshot.Valid() && Tracks(snapshot.View(), first.quotas, kept, Elements(first.candidates))
            && IsSelection(ranked, budgets, Accept(s, first.quotas, first.base), kept, outcome.victims)
            && outcome.numViolating
               == CountUnfit(s, first.quotas, first.base, TrialOrder(ranked, budgets), NumViolating(ranked, budgets)))
    ensures forall i, j :: 0 <= i < j < |walk| ==>
              || walk[i].priority < walk[j].priority
              || (walk[i].priority == walk[j].priority && walk[i].startTime >= walk[j].startTime)
    ensures AreCandidates(old(snapshot.View()), s, walk, FirstPassOf(old(snapshot.View()), s, walk).candidates)
    ensures outcome.Selected? ==> forall v :: v in outcome.victims ==> IsFairGame(old(snapshot.View()), s, listed, v)
  {
    hide AreCandidates, IsFairGame, Tracks, Sorted, AllNonNegative, IsSelection, CountUnfit, FailsOver,
        UsedOverMinWith, Picked, PassQuotas,
        OverAlone, MinsNonNegative, SameLimits;
    ghost var qs := snapshot.View();
    var sorted := SortLeastImportantFirst(listed);
    walk, ranked, kept := sorted, [], {};
    PermutationDistinct(listed, walk);
    PermutationSameElements(listed, walk);
    var now := snapshot.View();
    var moreThanMin := s.pod.namespace in now && UsedOverMinWith(now[s.pod.namespace], s.state.inQuota);
    var candidates, fine := PickCandidates(node, snapshot, s.pod, moreThanMin, sorted);
    ghost var first := FirstPassOf(qs, s, walk);
    FirstPassFacts(qs, s, walk);
    PickedAreCandidates(qs, s, walk);
    if candidates == [] {
      return NoVictims, walk, ranked, kept;
    }
    if !s.fits(node.pods) {
      return DoesNotFit, walk, ranked, kept;
    }
    var over := OverQuotaAlone(snapshot, s, Elements(candidates));
    if over {
      return QuotaExceeded, walk, ranked, kept;
    }
    var victims, numViolating, ok;
    victims, numViolating, ok, ranked, kept := ReprieveAll(node, snapshot, s, candidates, budgets, first.quotas);
    if ok {
      VictimsAreFairGame(
        qs, s, listed, walk, candidates, budgets, Accept(s, first.quotas, first.base), ranked, kept, victims);
    }
    return if ok then Selected(victims, numViolating) else Failed, walk, ranked, kept;
  }

  /**
    A victim, in plain words: a listed pod that is less important and without a quota like the
    preemptor, or less important and of its namespace when that would exceed its min, or of another
    quota.
   */
  ghost predicate IsFairGame(qs: Quotas, s: Setting, listed: seq<Pod>, v: Pod)
  {
    && v in listed
    && if s.pod.namespace !in qs then v.namespace !in qs && v.priority < s.pod.priority
       else if WouldExceedMin(qs[s.pod.namespace], s.state.inQuota) then
         v.namespace == s.pod.namespace && v.priority < s.pod.priority
       else v.namespace in qs && v.namespace != s.pod.namespace
  }

  lemma VictimsAreFairGame(
    qs: Quotas, s: Setting, listed: seq<Pod>, walk: seq<Pod>, candidates: seq<Pod>, budgets: seq<Budget>,
    accept: set<Pod> -> bool, ranked: seq<Pod>, kept: set<Pod>, victims: seq<Pod>)
    requires multiset(walk) == multiset(listed) && AreCandidates(qs, s, walk, candidates)
    requires multiset(ranked) == multiset(candidates) && Distinct(candidates)
    requires IsSelection(ranked, budgets, accept, kept, victims)
    ensures forall v :: v in victims ==> IsFairGame(qs, s, listed, v)
  {
    hide IsSelection, WouldExceedMin, OverMinWithout;
    SelectionDivides(ranked, candidates, budgets, accept, kept, victims);
    forall v | v in victims ensures IsFairGame(qs, s, listed, v) {
      assert v in Elements(victims) && v in Elements(candidates);
      assert v in candidates && v in walk;
      var i :| 0 <= i < |walk| && walk[i] == v;
      assert v in multiset(walk) && v in multiset(listed);
    }
  }

  lemma FirstPassFacts(qs: Quotas, s: Setting, walk: seq<Pod>)
    requires MinsNonNegative(qs) && Distinct(walk) && HaveKeys(Elements(walk)) && AllNonNegative(Elements(walk))
    ensures var first := FirstPassOf(qs, s, walk);
      && Distinct(first.candidates) && Elements(first.candidates) <= Elements(walk)
      && HaveKeys(Elements(first.candidates)) && AllNonNegative(Elements(first.candidates))
      && SameLimits(qs, first.quotas) && MinsNonNegative(first.quotas)
      && Tracks(first.quotas, first.quotas, {}, Elements(first.candidates))
  {
    hide Picked, PassQuotas, UsedOverMinWith, Tracks;
    var moreThanMin := s.pod.namespace in qs && UsedOverMinWith(qs[s.pod.namespace], s.state.inQuota);
    PassKeepsLimits(qs, s.pod, moreThanMin, walk);
    PickedAreOut(qs, s.pod, moreThanMin, walk);
    var first := FirstPassOf(qs, s, walk);
    TracksNothing(first.quotas, Elements(first.candidates));
  }

  method OverQuotaAlone(snapshot: ElasticQuotaInfos, s: Setting, ghost pool: set<Pod>) returns (over: bool)
    requires MinsNonNegative(snapshot.View()) && Tracks(snapshot.View(), snapshot.View(), {}, pool)
    ensures over <==> OverAlone(s, snapshot.View(), {})
  {
    var now := snapshot.View();
    over := false;
    if s.pod.namespace in now {
      TracksTest(now, now, {}, pool, s.pod.namespace, s.state.podReq, s.state.podReq);
      over := UsedOverMaxWith(now[s.pod.namespace], s.state.podReq);
      if !over {
        over := AggregatedUsedOverMinWith(now, s.state.podReq);
      }
    }
  }

  // ----- what a selection is worth

  /** What PreFilter guarantees: the nominated sums include the request. */
  ghost predicate SumsIncludeRequest(state: PreFilterState)
  {
    && state.podReq.scalars.Keys <= state.inQuota.scalars.Keys
    && forall d :: Get(state.podReq, d) <= Get(state.inQuota, d) && Get(state.podReq, d) <= Get(state.overall, d)
  }

  lemma PreFilterSumsIncludeRequest(qs: Quotas, pod: Pod, nominated: seq<Pod>)
    requires RequestsNonNegative(nominated)
    ensures SumsIncludeRequest(PreFilterState(
              pod.request, Plus(NominatedInQuota(qs, pod, nominated), pod.request),
                  Plus(NominatedOverall(qs, pod, nominated), pod.request)))
  {
    NominatedNonNegative(qs, pod, nominated);
  }

  lemma AcceptAntitone(s: Setting, qs: Quotas, base: set<Pod>, pool: set<Pod>)
    requires SurvivesRemoval(s.fits) && AllNonNegative(pool)
    ensures Antitone(Accept(s, qs, base), pool)
  {
    hide OverQuota;
    var accept := Accept(s, qs, base);
    forall a, b | a <= b <= pool && accept(b) ensures accept(a) {
      assert base + a <= base + b;
      if OverWith(s, qs, a) {
        OverQuotaIsMonotone(qs, a, b, s.pod.namespace, s.state.inQuota, s.state.overall, s.state.inQuota,
            s.state.overall);
      }
    }
  }

  /**
    A successful selection is sound: distinct victims, everybody else stays, the preemptor fits the
    node without them, its request keeps its quota within max and all quotas within their joint min.
   */
  lemma SelectionIsSound(s: Setting, qs: Quotas, base: set<Pod>, candidates: seq<Pod>, budgets: seq<Budget>,
                         ranked: seq<Pod>, kept: set<Pod>, victims: seq<Pod>)
    requires multiset(ranked) == multiset(candidates) && Distinct(candidates) && AllNonNegative(Elements(candidates))
    requires SumsIncludeRequest(s.state) && s.fits(base) && !OverAlone(s, qs, {})
    requires IsSelection(ranked, budgets, Accept(s, qs, base), kept, victims)
    ensures Distinct(victims) && kept !! Elements(victims) && kept + Elements(victims) == Elements(candidates)
    ensures s.fits(base + kept) && !OverAlone(s, qs, kept)
  {
    hide OverQuota, IsSelection;
    SelectionDivides(ranked, candidates, budgets, Accept(s, qs, base), kept, victims);
    assert base + {} == base;
    if kept != {} {
      assert Accept(s, qs, base)(kept);
      if OverAlone(s, qs, kept) {
        OverQuotaIsMonotone(qs, kept, kept, s.pod.namespace, s.state.podReq, s.state.podReq, s.state.inQuota,
            s.state.overall);
      }
    }
  }

  /**
    And no victim is needless: with any one of them back, the preemptor does not fit or the quota
    test with the nominated pods fails. The spared pods are the lexicographically best that pass
    both, in trial order.
   */
  lemma SelectionIsOptimal(s: Setting, qs: Quotas, base: set<Pod>, candidates: seq<Pod>, budgets: seq<Budget>,
                           ranked: seq<Pod>, kept: set<Pod>, victims: seq<Pod>)
    requires multiset(ranked) == multiset(candidates) && Distinct(candidates) && AllNonNegative(Elements(candidates))
    requires SurvivesRemoval(s.fits) && IsSelection(ranked, budgets, Accept(s, qs, base), kept, victims)
    ensures forall v :: v in victims ==> !s.fits(base + (kept + {v})) || OverWith(s, qs, kept + {v})
    ensures forall spared :: spared <= Elements(candidates) && s.fits(base + spared) && !OverWith(s, qs, spared) ==>
              AtLeastAsGood(MaskOf(TrialOrder(ranked, budgets), kept), MaskOf(TrialOrder(ranked, budgets), spared))
  {
    hide OverWith, IsSelection, SurvivesRemoval, AtLeastAsGood, MaskOf;
    var accept := Accept(s, qs, base);
    AcceptAntitone(s, qs, base, Elements(candidates));
    forall v | v in victims ensures !s.fits(base + (kept + {v})) || OverWith(s, qs, kept + {v}) {
      NoNeedlessVictim(ranked, candidates, budgets, accept, kept, victims, v);
      assert !accept(kept + {v});
    }
    forall spared | spared <= Elements(candidates) && s.fits(base + spared) && !OverWith(s, qs, spared)
      ensures AtLeastAsGood(MaskOf(TrialOrder(ranked, budgets), kept), MaskOf(TrialOrder(ranked, budgets), spared))
    {
      assert accept(spared);
      SelectionIsBest(ranked, candidates, budgets, accept, kept, victims, spared);
    }
  }

  // ----- how far other quotas are pushed

  /** A quota other than the preemptor's loses pods only when the preemptor is within its own min. */
  lemma {:induction false} OthersLoseOnlyWithinMin(qs: Quotas, pod: Pod, walk: seq<Pod>, p: Pod)
    requires p in Picked(qs, pod, true, walk) || (pod.namespace !in qs && p in Picked(qs, pod, false, walk))
    ensures pod.namespace in qs ==> p.namespace == pod.namespace
    ensures pod.namespace !in qs ==> p.namespace !in qs
  {
    var moreThanMin := p in Picked(qs, pod, true, walk);
    PassKeepsLimits(qs, pod, moreThanMin, walk[..|walk| - 1]);
    var last := walk[|walk| - 1];
    if p != last || p in Picked(qs, pod, moreThanMin, walk[..|walk| - 1]) {
      OthersLoseOnlyWithinMin(qs, pod, walk[..|walk| - 1], p);
    }
  }

  /**
    Never more than one pod past a quota's min: in the final state of the dry run, with the last pod
    taken from another quota given back, that quota is over its min.
   */
  lemma OnlyOnePodPastMin(qs: Quotas, s: Setting, walk: seq<Pod>, now: Quotas, kept: set<Pod>, n: string)
    requires MinsNonNegative(qs) && Distinct(walk) && HaveKeys(Elements(walk)) && AllNonNegative(Elements(walk))
    requires var first := FirstPassOf(qs, s, walk);
      && kept <= Elements(first.candidates) && Tracks(now, first.quotas, kept, Elements(first.candidates))
      && n in qs && n != s.pod.namespace && exists p :: p in first.candidates && p.namespace == n
    ensures var last := LastOf(FirstPassOf(qs, s, walk).candidates, n);
      n in AddTo(now, last) && UsedOverMin(AddTo(now, last)[n])
  {
    hide Picked, PassQuotas, UsedOverMinWith, UsedOverMin, Exceeds, Plus;
    var first := FirstPassOf(qs, s, walk);
    FirstPassFacts(qs, s, walk);
    var moreThanMin := s.pod.namespace in qs && UsedOverMinWith(qs[s.pod.namespace], s.state.inQuota);
    var p :| p in first.candidates && p.namespace == n;
    if moreThanMin || s.pod.namespace !in qs {
      OthersLoseOnlyWithinMin(qs, s.pod, walk, p);
      assert false;
    }
    PassTakesOnePastMin(qs, s.pod, walk, n);
    LastOfIn(first.candidates, n);
    LastBackIsOver(first.quotas, first.candidates, now, kept, LastOf(first.candidates, n));
  }

  lemma LastBackIsOver(qs: Quotas, candidates: seq<Pod>, now: Quotas, kept: set<Pod>, last: Pod)
    requires MinsNonNegative(qs) && HaveKeys(Elements(candidates)) && AllNonNegative(Elements(candidates))
    requires kept <= Elements(candidates) && Tracks(now, qs, kept, Elements(candidates))
    requires last in candidates && last.namespace in qs && OverMinWith(qs[last.namespace], last)
    ensures last.namespace in AddTo(now, last) && UsedOverMin(AddTo(now, last)[last.namespace])
  {
    hide UsedOverMin;
    var n := last.namespace;
    assert last in Elements(candidates);
    var d :| Get(qs[n].used, d) + Get(last.request, d) > Get(qs[n].min, d);
    SumWithOneMore({}, last, n, d);
    assert {} + {last} == {last};
    UseGrows(qs, {last}, kept + {last}, n, d);
    if last in kept {
      assert kept + {last} == kept;
      assert AddTo(now, last)[n] == now[n];
    } else {
      TracksAdd(now, qs, kept, Elements(candidates), last);
    }
    assert Get(AddTo(now, last)[n].used, d) > Get(qs[n].min, d);
    OverMinSomewhere(AddTo(now, last)[n]);
  }

  // ----- what the reported number counts

  /** At turn `i` the pod is evicted although the preemptor would fit with it: for the quotas alone. */
  ghost predicate IsQuotaOnly(s: Setting, qs: Quotas, base: set<Pod>, order: seq<Pod>, i: nat)
    requires i < |order|
  {
    !IsUnfit(s, qs, base, order, i) && OverWith(s, qs, BackBefore(s, qs, base, order, i) + {order[i]})
  }

  ghost function CountQuotaOnly(s: Setting, qs: Quotas, base: set<Pod>, order: seq<Pod>, n: nat): nat
    requires n <= |order|
  {
    if n == 0 then 0 else
      CountQuotaOnly(s, qs, base, order, n - 1) + if IsQuotaOnly(s, qs, base, order, n - 1) then 1 else 0
  }

  lemma TurnEvicts(s: Setting, qs: Quotas, base: set<Pod>, order: seq<Pod>, i: nat)
    requires i < |order|
    ensures !(IsUnfit(s, qs, base, order, i) && IsQuotaOnly(s, qs, base, order, i))
    ensures |LeftOut(order, Greedy(i + 1, By(Accept(s, qs, base), order)))|
         == |LeftOut(order, Greedy(i, By(Accept(s, qs, base), order)))|
            + if IsUnfit(s, qs, base, order, i) || IsQuotaOnly(s, qs, base, order, i) then 1 else 0
  {
    hide OverWith, LeftOut;
    var ok := By(Accept(s, qs, base), order);
    var m := Greedy(i, ok);
    KeptExtends(order, m, true);
    GreedyNext(i, ok, ok(m + [true]));
    LeftOutExtends(order, m, ok(m + [true]));
  }

  lemma {:induction false} EvictionsSplit(s: Setting, qs: Quotas, base: set<Pod>, order: seq<Pod>, n: nat)
    requires n <= |order|
    ensures |LeftOut(order, Greedy(n, By(Accept(s, qs, base), order)))|
         == CountUnfit(s, qs, base, order, n) + CountQuotaOnly(s, qs, base, order, n)
    ensures CountQuotaOnly(s, qs, base, order, n) == 0 <==>
              forall i :: 0 <= i < n ==> !IsQuotaOnly(s, qs, base, order, i)
  {
    hide IsUnfit, IsQuotaOnly, Accept;
    if n > 0 {
      EvictionsSplit(s, qs, base, order, n - 1);
      TurnEvicts(s, qs, base, order, n - 1);
    }
  }

  /**
    The reported number falls short of the violating victims by those evicted for the quotas alone;
    it is the number of violating victims exactly when there are none of those.
   */
  lemma ReportedNumber(s: Setting, qs: Quotas, base: set<Pod>, candidates: seq<Pod>, budgets: seq<Budget>,
                       ranked: seq<Pod>, kept: set<Pod>, victims: seq<Pod>)
    requires multiset(ranked) == multiset(candidates) && Distinct(candidates)
    requires IsSelection(ranked, budgets, Accept(s, qs, base), kept, victims)
    ensures var order, v := TrialOrder(ranked, budgets), NumViolating(ranked, budgets);
      var reported := CountUnfit(s, qs, base, order, v);
      var violating := |Elements(victims) * Elements(Part(ranked, budgets, |ranked|, true))|;
      && reported + CountQuotaOnly(s, qs, base, order, v) == violating
      && (reported == violating <==> forall i :: 0 <= i < v ==> !IsQuotaOnly(s, qs, base, order, i))
  {
    hide IsSelection, IsQuotaOnly, IsUnfit, LeftOut, Accept;
    var order, v := TrialOrder(ranked, budgets), NumViolating(ranked, budgets);
    ViolatingVictims(ranked, candidates, budgets, Accept(s, qs, base), kept, victims);
    GreedyPrefix(|order|, v, By(Accept(s, qs, base), order));
    EvictionsSplit(s, qs, base, order, v);
  }

  /**
    The number is right whenever the quotas would hold with all candidates back, which can be tested
    after the first pass: then no turn evicts for the quotas.
   */
  lemma NumberIsRight(s: Setting, qs: Quotas, base: set<Pod>, candidates: seq<Pod>, budgets: seq<Budget>,
                      ranked: seq<Pod>, kept: set<Pod>, victims: seq<Pod>)
    requires multiset(ranked) == multiset(candidates) && Distinct(candidates) && AllNonNegative(Elements(candidates))
    requires IsSelection(ranked, budgets, Accept(s, qs, base), kept, victims)
    requires !OverWith(s, qs, Elements(candidates))
    ensures CountUnfit(s, qs, base, TrialOrder(ranked, budgets), NumViolating(ranked, budgets))
         == |Elements(victims) * Elements(Part(ranked, budgets, |ranked|, true))|
  {
    hide IsSelection, IsUnfit, OverQuota, AllNonNegative, Accept, CountUnfit;
    var order := TrialOrder(ranked, budgets);
    TrialOrderPermutes(ranked, candidates, budgets);
    ReportedNumber(s, qs, base, candidates, budgets, ranked, kept, victims);
    forall i | 0 <= i < |order| ensures !IsQuotaOnly(s, qs, base, order, i) {
      var back := BackBefore(s, qs, base, order, i) + {order[i]};
      assert order[i] in Elements(order);
      BackIsOfOrder(s, qs, base, order, i);
      assert back <= Elements(candidates);
      if OverWith(s, qs, back) {
        OverQuotaIsMonotone(qs, back, Elements(candidates), s.pod.namespace,
                            s.state.inQuota, s.state.overall, s.state.inQuota, s.state.overall);
      }
    }
  }

  lemma BackIsOfOrder(s: Setting, qs: Quotas, base: set<Pod>, order: seq<Pod>, i: nat)
    requires i <= |order|
    ensures BackBefore(s, qs, base, order, i) <= Elements(order)
  {
  }

  /**
    And it is zero, whatever the budgets, when the nominated pods alone are over quota: if the loop
    does not fail then, it evicts every candidate for the quotas and counts none of them.
   */
  lemma {:induction false} QuotaEvictionsAreNotCounted(s: Setting, qs: Quotas, base: set<Pod>, order: seq<Pod>, n: nat)
    requires n <= |order| && AllNonNegative(Elements(order))
    requires OverWith(s, qs, {}) && !FailsOver(s, qs, base, order)
    ensures CountUnfit(s, qs, base, order, n) == 0 && CountQuotaOnly(s, qs, base, order, n) == n
  {
    hide AllNonNegative, OverQuota;
    if n > 0 {
      QuotaEvictionsAreNotCounted(s, qs, base, order, n - 1);
      StuckTurn(s, qs, base, order, n - 1);
      var back := BackBefore(s, qs, base, order, n - 1) + {order[n - 1]};
      assert order[n - 1] in order && back == {order[n - 1]};
      assert order[n - 1] in Elements(order);
      OneIsNonNegative(order, n - 1);
      OverQuotaIsMonotone(qs, {}, back, s.pod.namespace,
                          s.state.inQuota, s.state.overall, s.state.inQuota, s.state.overall);
    }
  }

  lemma OneIsNonNegative(order: seq<Pod>, i: nat)
    requires i < |order| && AllNonNegative(Elements(order))
    ensures AllNonNegative({order[i]})
  {
    assert order[i] in Elements(order);
  }

  /** So with the nominated pods alone over quota, the number is right exactly when no candidate violates a budget. */
  lemma NumberIsRightIff(s: Setting, qs: Quotas, base: set<Pod>, candidates: seq<Pod>, budgets: seq<Budget>,
                         ranked: seq<Pod>, kept: set<Pod>, victims: seq<Pod>)
    requires multiset(ranked) == multiset(candidates) && Distinct(candidates) && AllNonNegative(Elements(candidates))
    requires IsSelection(ranked, budgets, Accept(s, qs, base), kept, victims)
    requires OverWith(s, qs, {}) && !FailsOver(s, qs, base, candidates)
    ensures var reported := CountUnfit(s, qs, base, TrialOrder(ranked, budgets), NumViolating(ranked, budgets));
      var violating := |Elements(victims) * Elements(Part(ranked, budgets, |ranked|, true))|;
      && reported == 0 && violating == NumViolating(ranked, budgets)
      && (reported == violating <==> Part(ranked, budgets, |ranked|, true) == [])
  {
    hide IsSelection, OverWith, AllNonNegative, Accept, CountUnfit, CountQuotaOnly;
    var order := TrialOrder(ranked, budgets);
    TrialOrderPermutes(ranked, candidates, budgets);
    ReportedNumber(s, qs, base, candidates, budgets, ranked, kept, victims);
    forall p | p in order ensures p in candidates {
      assert p in Elements(order);
    }
    QuotaEvictionsAreNotCounted(s, qs, base, order, NumViolating(ranked, budgets));
  }
}
