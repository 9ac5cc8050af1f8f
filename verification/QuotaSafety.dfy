/**
  The admission check of the capacity plugin and what it keeps over whole runs: no quota is
  ever used beyond its max, and all of them together never beyond their joint min.
 */
module QuotaSafety {
  import opened NodeTopology
  import opened Pods
  import opened QuotaModel
  import opened Sums

  // ----- the check

  /** What PreFilter leaves for later: the request alone, and with the nominated pods that count against it. */
  datatype PreFilterState = PreFilterState(podReq: Resource, inQuota: Resource, overall: Resource)

  /** A nominated pod of the same quota that is at least as important as the pod; quotas are looked up live. */
  predicate CountsInQuota(live: Quotas, pod: Pod, n: Pod)
  {
    n.uid != pod.uid && n.namespace in live && n.namespace == pod.namespace && n.priority >= pod.priority
  }

  /** Also a nominated pod of another quota that is within its min. */
  predicate CountsOverall(live: Quotas, pod: Pod, n: Pod)
  {
    || CountsInQuota(live, pod, n)
    || (n.uid != pod.uid && n.namespace in live && n.namespace != pod.namespace && !UsedOverMin(live[n.namespace]))
  }

  function NominatedInQuota(live: Quotas, pod: Pod, nominated: seq<Pod>): Resource
  {
    if nominated == [] then Nothing else
      var rest, last := NominatedInQuota(live, pod, nominated[..|nominated| - 1]), nominated[|nominated| - 1];
      if CountsInQuota(live, pod, last) then Plus(rest, last.request) else rest
  }

  function NominatedOverall(live: Quotas, pod: Pod, nominated: seq<Pod>): Resource
  {
    if nominated == [] then Nothing else
      var rest, last := NominatedOverall(live, pod, nominated[..|nominated| - 1]), nominated[|nominated| - 1];
      if CountsOverall(live, pod, last) then Plus(rest, last.request) else rest
  }

  ghost function RequestAt(pods: seq<Pod>, d: Dim): int -> int
  {
    i => if 0 <= i < |pods| then Get(pods[i].request, d) else 0
  }

  /** In plain words: the pods of the same namespace that are not less important, the pod itself left out. */
  ghost function SameNamespace(live: Quotas, pod: Pod, nominated: seq<Pod>): set<int>
  {
    set i | && 0 <= i < |nominated| && nominated[i].uid != pod.uid
            && nominated[i].namespace == pod.namespace && pod.namespace in live
            && nominated[i].priority >= pod.priority
  }

  /** In plain words: the pods of other namespaces whose quota is in no dimension used beyond its min. */
  ghost function WithinTheirMin(live: Quotas, pod: Pod, nominated: seq<Pod>): set<int>
  {
    set i | && 0 <= i < |nominated| && nominated[i].uid != pod.uid
            && nominated[i].namespace != pod.namespace && nominated[i].namespace in live
            && IsWithinMin(live[nominated[i].namespace])
  }

  ghost predicate IsWithinMin(q: Quota)
  {
    forall d: Dim :: (d.Scalar? ==> d.name in q.used.scalars) ==> Get(q.used, d) <= Get(q.min, d)
  }

  lemma {:induction false} NominatedIsSum(live: Quotas, pod: Pod, nominated: seq<Pod>, d: Dim)
    ensures Get(NominatedInQuota(live, pod, nominated), d)
         == Sum(SameNamespace(live, pod, nominated), RequestAt(nominated, d))
    ensures Get(NominatedOverall(live, pod, nominated), d)
         == Sum(SameNamespace(live, pod, nominated) + WithinTheirMin(live, pod, nominated), RequestAt(nominated, d))
  {
    hide SameNamespace, WithinTheirMin, CountsInQuota, CountsOverall, Plus;
    NoIndices(live, pod);
    if nominated != [] {
      var rest := nominated[..|nominated| - 1];
      NominatedIsSum(live, pod, rest, d);
      SameNamespaceGrows(live, pod, nominated);
      WithinTheirMinGrows(live, pod, nominated);
      SumOneMore(SameNamespace(live, pod, rest), SameNamespace(live, pod, nominated), nominated, d);
      SumOneMore(SameNamespace(live, pod, rest) + WithinTheirMin(live, pod, rest),
                 SameNamespace(live, pod, nominated) + WithinTheirMin(live, pod, nominated), nominated, d);
    }
  }

  lemma NoIndices(live: Quotas, pod: Pod)
    ensures SameNamespace(live, pod, []) == {} == WithinTheirMin(live, pod, [])
  {
  }

  lemma SameNamespaceGrows(live: Quotas, pod: Pod, nominated: seq<Pod>)
    requires nominated != []
    ensures var n := |nominated| - 1;
      && SameNamespace(live, pod, nominated) - {n} == SameNamespace(live, pod, nominated[..n])
      && (n in SameNamespace(live, pod, nominated) <==> CountsInQuota(live, pod, nominated[n]))
      && forall i :: i in SameNamespace(live, pod, nominated[..n]) ==> 0 <= i < n
  {
  }

  lemma WithinTheirMinGrows(live: Quotas, pod: Pod, nominated: seq<Pod>)
    requires nominated != []
    ensures var n := |nominated| - 1;
      && WithinTheirMin(live, pod, nominated) - {n} == WithinTheirMin(live, pod, nominated[..n])
      && (CountsOverall(live, pod, nominated[n]) <==>
            CountsInQuota(live, pod, nominated[n]) || n in WithinTheirMin(live, pod, nominated))
      && forall i :: i in WithinTheirMin(live, pod, nominated[..n]) ==> 0 <= i < n
  {
    hide IsWithinMin, UsedOverMin;
    var last := nominated[|nominated| - 1];
    if last.namespace in live {
      WithinMinMeans(live[last.namespace]);
    }
  }

  lemma WithinMinMeans(q: Quota)
    ensures IsWithinMin(q) <==> !UsedOverMin(q)
  {
    UsedOverMinMeans(q);
  }

  lemma SumOneMore(before: set<int>, after: set<int>, pods: seq<Pod>, d: Dim)
    requires pods != [] && forall i :: i in before ==> 0 <= i < |pods| - 1
    requires after - {|pods| - 1} == before
    ensures Sum(after, RequestAt(pods, d))
         == Sum(before, RequestAt(pods[..|pods| - 1], d))
            + if |pods| - 1 in after then Get(pods[|pods| - 1].request, d) else 0
  {
    var n := |pods| - 1;
    SumSame(before, RequestAt(pods[..n], d), RequestAt(pods, d));
    if n in after {
      SumTake(after, n, RequestAt(pods, d));
    } else {
      assert after == before;
    }
  }

  /** The check against the snapshot `qs`, with the nominated pods that count by the live quotas on top. */
  ghost predicate Admits(qs: Quotas, live: Quotas, pod: Pod, nominated: seq<Pod>)
  {
    pod.namespace in qs ==>
      && !UsedOverMaxWith(qs[pod.namespace], Plus(NominatedInQuota(live, pod, nominated), pod.request))
      && !AggregatedOverMin(qs, Plus(NominatedOverall(live, pod, nominated), pod.request))
  }

  /**
    `nominated` lists the nominated pods of all nodes, node by node. Their quotas are looked up in the
    live table, which may have moved on since the snapshot was taken; all else is in the snapshot.
   */
  method PreFilter(qs: Quotas, live: Quotas, pod: Pod, nominated: seq<Pod>)
    returns (accepted: bool, state: PreFilterState)
    requires MinsNonNegative(qs)
    ensures accepted <==> Admits(qs, live, pod, nominated)
    ensures state.podReq == pod.request
    ensures pod.namespace in qs ==>
              && state.inQuota == Plus(NominatedInQuota(live, pod, nominated), pod.request)
              && state.overall == Plus(NominatedOverall(live, pod, nominated), pod.request)
    ensures pod.namespace !in qs ==> accepted && state == PreFilterState(pod.request, Nothing, Nothing)
    ensures pod.namespace in qs ==> forall d ::
              && Get(state.inQuota, d)
                 == Get(pod.request, d) + Sum(SameNamespace(live, pod, nominated), RequestAt(nominated, d))
              && Get(state.overall, d)
                 == Get(pod.request, d)
                    + Sum(SameNamespace(live, pod, nominated) + WithinTheirMin(live, pod, nominated),
                          RequestAt(nominated, d))
    ensures pod.namespace in qs ==>
              (accepted <==>
                 && (forall d: Dim :: (d.Scalar? ==> d.name in state.inQuota.scalars) ==>
                       Get(qs[pod.namespace].used, d) + Get(state.inQuota, d)
                         <= if d.Scalar? && d.name !in qs[pod.namespace].max.scalars then 0x7fff_ffff_ffff_ffff
                            else Get(qs[pod.namespace].max, d))
                 && (forall d :: TotalUsed(qs, d) + Get(state.overall, d) <= TotalMin(qs, d)))
  {
    hide UsedOverMin, UsedOverMaxWith, SameNamespace, WithinTheirMin, NominatedInQuota, NominatedOverall;
    if pod.namespace !in qs {
      return true, PreFilterState(pod.request, Nothing, Nothing);
    }
    var inQuota, overall := Nothing, Nothing;
    NoneNominated(live, pod, nominated);
    for i := 0 to |nominated|
      invariant inQuota == NominatedInQuota(live, pod, nominated[..i])
      invariant overall == NominatedOverall(live, pod, nominated[..i])
    {
      OneMoreNominated(live, pod, nominated, i);
      var n := nominated[i];
      if n.uid == pod.uid {
        continue;
      }
      if n.namespace in live {
        if n.namespace == pod.namespace && n.priority >= pod.priority {
          inQuota, overall := Plus(inQuota, n.request), Plus(overall, n.request);
        } else if n.namespace != pod.namespace && !UsedOverMin(live[n.namespace]) {
          overall := Plus(overall, n.request);
        }
      }
    }
    assert nominated[..|nominated|] == nominated;
    inQuota, overall := Plus(inQuota, pod.request), Plus(overall, pod.request);
    state := PreFilterState(pod.request, inQuota, overall);
    forall d {
      NominatedIsSum(live, pod, nominated, d);
    }
    UsedOverMaxWithMeans(qs[pod.namespace], inQuota);
    if UsedOverMaxWith(qs[pod.namespace], inQuota) {
      return false, state;
    }
    var over := AggregatedUsedOverMinWith(qs, overall);
    return !over, state;
  }

  lemma NoneNominated(live: Quotas, pod: Pod, nominated: seq<Pod>)
    ensures NominatedInQuota(live, pod, nominated[..0]) == Nothing == NominatedOverall(live, pod, nominated[..0])
  {
  }

  lemma OneMoreNominated(live: Quotas, pod: Pod, nominated: seq<Pod>, i: nat)
    requires i < |nominated|
    ensures var a, b := NominatedInQuota(live, pod, nominated[..i]), NominatedOverall(live, pod, nominated[..i]);
      && NominatedInQuota(live, pod, nominated[..i + 1])
         == (if CountsInQuota(live, pod, nominated[i]) then Plus(a, nominated[i].request) else a)
      && NominatedOverall(live, pod, nominated[..i + 1])
         == (if CountsOverall(live, pod, nominated[i]) then Plus(b, nominated[i].request) else b)
  {
    assert nominated[..i + 1][..i] == nominated[..i];
  }

  ghost predicate RequestsNonNegative(ps: seq<Pod>)
  {
    forall i :: 0 <= i < |ps| ==> NonNegative(ps[i].request)
  }

  lemma {:induction false} NominatedNonNegative(qs: Quotas, pod: Pod, nominated: seq<Pod>)
    requires RequestsNonNegative(nominated)
    ensures NonNegative(NominatedInQuota(qs, pod, nominated)) && NonNegative(NominatedOverall(qs, pod, nominated))
  {
    if nominated != [] {
      NominatedNonNegative(qs, pod, nominated[..|nominated| - 1]);
      assert NonNegative(nominated[|nominated| - 1].request);
    }
    assert NonNegative(Nothing);
  }

  /** The check with nominated pods on top implies the check with the pod alone. */
  lemma AdmittedAlone(qs: Quotas, live: Quotas, pod: Pod, nominated: seq<Pod>)
    requires Admits(qs, live, pod, nominated) && pod.namespace in qs
    requires RequestsNonNegative(nominated)
    ensures !UsedOverMaxWith(qs[pod.namespace], pod.request) && !AggregatedOverMin(qs, pod.request)
  {
    NominatedNonNegative(live, pod, nominated);
    var inQuota, overall := NominatedInQuota(live, pod, nominated), NominatedOverall(live, pod, nominated);
    var q := qs[pod.namespace];
    if UsedOverMaxWith(q, pod.request) {
      ExceedsIsMonotone(pod.request, q.used, Plus(inQuota, pod.request), q.used, q.max, UPPER_BOUND_OF_MAX);
    }
    forall d ensures TotalUsed(qs, d) + Get(pod.request, d) <= TotalMin(qs, d) {
      assert TotalUsed(qs, d) + Get(Plus(overall, pod.request), d) <= TotalMin(qs, d);
    }
  }

  // ----- runs

  /**
    The scheduling cycle admits one pod at a time; until it is reserved or given up, pods may
    only leave. The quotas' specs stay as they are.
   */
  datatype State = State(quotas: Quotas, admitted: Option<Pod>)

  datatype Event =
    | Admitted(pod: Pod, nominated: seq<Pod>, live: Quotas)
    | Reserved
    | GivenUp
    | Left(pod: Pod)

  ghost predicate Enabled(s: State, e: Event)
  {
    match e
    case Admitted(pod, nominated, live) =>
      && s.admitted.None? && Admits(s.quotas, live, pod, nominated)
      && NonNegative(pod.request) && RequestsNonNegative(nominated)
    case Reserved => s.admitted.Some?
    case GivenUp => s.admitted.Some?
    case Left(pod) => NonNegative(pod.request)
  }

  ghost function Step(s: State, e: Event): State
  {
    match e
    case Admitted(pod, _, _) => s.(admitted := Some(pod))
    case Reserved => if s.admitted.Some? then State(AddTo(s.quotas, s.admitted.value), None) else s
    case GivenUp => s.(admitted := None)
    case Left(pod) => s.(quotas := RemoveFrom(s.quotas, pod))
  }

  ghost function After(s: State, es: seq<Event>): State
  {
    if es == [] then s else Step(After(s, es[..|es| - 1]), es[|es| - 1])
  }

  ghost predicate IsRun(s: State, es: seq<Event>)
  {
    es == [] || (IsRun(s, es[..|es| - 1]) && Enabled(After(s, es[..|es| - 1]), es[|es| - 1]))
  }

  /** Every quota within its max, and all together within their joint min, in every dimension. */
  ghost predicate WithinLimits(qs: Quotas)
  {
    && (forall n, d :: n in qs ==> Get(qs[n].used, d) <= Limit(qs[n].max, d, UPPER_BOUND_OF_MAX))
    && (forall d :: TotalUsed(qs, d) <= TotalMin(qs, d))
  }

  /** The admitted pod would still be within limits. */
  ghost predicate RoomFor(qs: Quotas, pod: Pod)
  {
    NonNegative(pod.request)
    && (pod.namespace in qs ==> !UsedOverMaxWith(qs[pod.namespace], pod.request) && !AggregatedOverMin(qs, pod.request))
  }

  ghost predicate Safe(s: State)
  {
    WithinLimits(s.quotas) && (s.admitted.Some? ==> RoomFor(s.quotas, s.admitted.value))
  }

  lemma AddKeepsLimits(qs: Quotas, pod: Pod)
    requires WithinLimits(qs) && RoomFor(qs, pod)
    ensures WithinLimits(AddTo(qs, pod))
  {
    if pod.namespace in qs {
      var q, q' := qs[pod.namespace], WithPod(qs[pod.namespace], pod);
      ExceedsSomewhere(pod.request, q.used, q.max, UPPER_BOUND_OF_MAX);
      forall d ensures Get(q'.used, d) <= Limit(q.max, d, UPPER_BOUND_OF_MAX)
               ensures TotalUsed(AddTo(qs, pod), d) <= TotalMin(AddTo(qs, pod), d) {
        assert !ExceedsIn(pod.request, q.used, q.max, UPPER_BOUND_OF_MAX, d);
        TotalUsedMoves(qs, pod.namespace, q', d);
      }
    }
  }

  /** Pods that leave only make room. */
  lemma LeavingLowersUse(qs: Quotas, pod: Pod, n: string, d: Dim)
    requires NonNegative(pod.request)
    ensures n in qs ==> Get(RemoveFrom(qs, pod)[n].used, d) <= Get(qs[n].used, d)
    ensures TotalUsed(RemoveFrom(qs, pod), d) <= TotalUsed(qs, d) && TotalMin(RemoveFrom(qs, pod), d) == TotalMin(qs, d)
  {
    if pod.namespace in qs {
      TotalUsedMoves(qs, pod.namespace, WithoutPod(qs[pod.namespace], pod), d);
    }
  }

  lemma RemoveKeepsLimits(qs: Quotas, pod: Pod)
    requires WithinLimits(qs) && NonNegative(pod.request)
    ensures WithinLimits(RemoveFrom(qs, pod))
  {
    var qs' := RemoveFrom(qs, pod);
    forall n, d | n in qs' ensures Get(qs'[n].used, d) <= Limit(qs'[n].max, d, UPPER_BOUND_OF_MAX) {
      LeavingLowersUse(qs, pod, n, d);
    }
    forall d ensures TotalUsed(qs', d) <= TotalMin(qs', d) {
      LeavingLowersUse(qs, pod, "", d);
    }
  }

  lemma RemoveKeepsRoom(qs: Quotas, gone: Pod, pod: Pod)
    requires RoomFor(qs, pod) && NonNegative(gone.request)
    ensures RoomFor(RemoveFrom(qs, gone), pod)
  {
    var qs' := RemoveFrom(qs, gone);
    if pod.namespace in qs {
      var q, q' := qs[pod.namespace], qs'[pod.namespace];
      forall d ensures Get(q'.used, d) <= Get(q.used, d) {
        LeavingLowersUse(qs, gone, pod.namespace, d);
      }
      if UsedOverMaxWith(q', pod.request) {
        ExceedsIsMonotone(pod.request, q'.used, pod.request, q.used, q.max, UPPER_BOUND_OF_MAX);
      }
      forall d ensures TotalUsed(qs', d) + Get(pod.request, d) <= TotalMin(qs', d) {
        LeavingLowersUse(qs, gone, pod.namespace, d);
        assert TotalUsed(qs, d) + Get(pod.request, d) <= TotalMin(qs, d);
      }
    }
  }

  lemma StepKeepsSafe(s: State, e: Event)
    requires Safe(s) && Enabled(s, e)
    ensures Safe(Step(s, e))
  {
    match e {
      case Admitted(pod, nominated, live) =>
        if pod.namespace in s.quotas {
          AdmittedAlone(s.quotas, live, pod, nominated);
        }
      case Reserved => AddKeepsLimits(s.quotas, s.admitted.value);
      case GivenUp =>
      case Left(pod) =>
        RemoveKeepsLimits(s.quotas, pod);
        if s.admitted.Some? {
          RemoveKeepsRoom(s.quotas, pod, s.admitted.value);
        }
    }
  }

  /** Over every run, from any state within limits and with no pod admitted, the limits hold. */
  lemma {:induction false} LimitsHoldOverRuns(s: State, es: seq<Event>)
    requires WithinLimits(s.quotas) && s.admitted.None? && IsRun(s, es)
    ensures WithinLimits(After(s, es).quotas) && Safe(After(s, es))
  {
    if es != [] {
      LimitsHoldOverRuns(s, es[..|es| - 1]);
      StepKeepsSafe(After(s, es[..|es| - 1]), es[|es| - 1]);
    }
  }

  /** Fresh quotas with limits that are not negative are within them. */
  lemma FreshQuotasWithinLimits(qs: Quotas)
    requires MinsNonNegative(qs)
    requires forall n :: n in qs ==> NonNegative(qs[n].max) && qs[n].used == Nothing
    ensures WithinLimits(qs)
  {
    forall n, d | n in qs ensures Get(qs[n].used, d) <= Limit(qs[n].max, d, UPPER_BOUND_OF_MAX) {
      assert 0 <= Get(qs[n].max, d);
    }
    forall d ensures TotalUsed(qs, d) <= TotalMin(qs, d) {
      SumAtMost(qs.Keys, UsedIn(qs, d), MinIn(qs, d));
    }
  }
}
