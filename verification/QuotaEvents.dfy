/**
  Everything that changes the live quotas: the plugin's Reserve and Unreserve and the informer
  events on pods and quotas. Over every run of them the use of a quota is the sum of the
  requests of exactly the pods it counts.
 */
module QuotaEvents {
  import opened NodeTopology
  import opened Pods
  import opened QuotaModel
  import opened Sums

  datatype Event =
    | Reserved(p: Pod)
    | Unreserved(p: Pod)
    | PodAdded(p: Pod, listed: Option<Spec>)
    | PodUpdated(p: Pod, wasFinished: bool, isActive: bool)
    | PodDeleted(p: Pod)
    | QuotaAdded(namespace: string, spec: Spec)
    | QuotaUpdated(namespace: string, spec: Spec)
    | QuotaDeleted(namespace: string)

  function Apply(qs: Quotas, e: Event): Quotas
  {
    match e
    case Reserved(p) => AddTo(qs, p)
    case Unreserved(p) => RemoveFrom(qs, p)
    case PodAdded(p, listed) =>
      if p.namespace in qs || listed.None? then AddTo(qs, p)
      else AddTo(qs[p.namespace := NewQuota(p.namespace, listed.value)], p)
    case PodUpdated(p, wasFinished, isActive) =>
      if wasFinished || isActive then qs else RemoveFrom(qs, p)
    case PodDeleted(p) => RemoveFrom(qs, p)
    case QuotaAdded(n, spec) => if n in qs then qs else qs[n := NewQuota(n, spec)]
    case QuotaUpdated(n, spec) =>
      var q := NewQuota(n, spec);
      qs[n := if n in qs then q.(pods := qs[n].pods, used := qs[n].used) else q]
    case QuotaDeleted(n) => qs - {n}
  }

  function ApplyAll(qs: Quotas, es: seq<Event>): Quotas
  {
    if es == [] then qs else Apply(ApplyAll(qs, es[..|es| - 1]), es[|es| - 1])
  }

  // ----- accounting

  /** The request of the pod with a given UID. */
  type Requests = string -> Resource

  ghost function RequestIn(requests: Requests, d: Dim): string -> int
  {
    uid => Get(requests(uid), d)
  }

  ghost predicate Accounted(q: Quota, requests: Requests)
  {
    forall d :: Get(q.used, d) == Sum(q.pods, RequestIn(requests, d))
  }

  ghost predicate AllAccounted(qs: Quotas, requests: Requests)
  {
    forall n :: n in qs ==> Accounted(qs[n], requests)
  }

  /** Events show a pod with its one request. */
  ghost predicate ShowsRequest(e: Event, requests: Requests)
  {
    e.Reserved? || e.Unreserved? || e.PodAdded? || e.PodUpdated? || e.PodDeleted? ==> e.p.request == requests(e.p.uid)
  }

  /** The pod with this UID is counted in the quota of `n`. */
  predicate Counts(qs: Quotas, n: string, uid: string)
  {
    n in qs && uid in qs[n].pods
  }

  predicate Concerns(p: Pod, n: string, uid: string)
  {
    p.namespace == n && p.uid == uid && uid != ""
  }

  /**
    Who is counted after an event, in plain words: a pod reserved or added is, where there is a quota
    or one is listed; a pod unreserved, deleted or no longer running is not; all else stays, except
    that a quota takes its pods along when it is deleted.
   */
  lemma CountedAfter(qs: Quotas, e: Event, n: string, uid: string)
    ensures Counts(Apply(qs, e), n, uid) <==>
      match e
      case Reserved(p) => Counts(qs, n, uid) || (n in qs && Concerns(p, n, uid))
      case Unreserved(p) => Counts(qs, n, uid) && !Concerns(p, n, uid)
      case PodAdded(p, listed) => Counts(qs, n, uid) || ((n in qs || listed.Some?) && Concerns(p, n, uid))
      case PodUpdated(p, wasFinished, isActive) =>
        Counts(qs, n, uid) && (wasFinished || isActive || !Concerns(p, n, uid))
      case PodDeleted(p) => Counts(qs, n, uid) && !Concerns(p, n, uid)
      case QuotaAdded(_, _) => Counts(qs, n, uid)
      case QuotaUpdated(_, _) => Counts(qs, n, uid)
      case QuotaDeleted(m) => Counts(qs, n, uid) && n != m
  {
    hide Plus, Minus;
  }

  /** Which quotas there are after an event and with which limits, in plain words. */
  lemma QuotasAfter(qs: Quotas, e: Event, n: string)
    ensures n in Apply(qs, e) <==>
      || (n in qs && !(e.QuotaDeleted? && e.namespace == n))
      || ((e.QuotaAdded? || e.QuotaUpdated?) && e.namespace == n)
      || (e.PodAdded? && e.p.namespace == n && e.listed.Some?)
    ensures n in Apply(qs, e) ==>
      var spec := if e.QuotaAdded? || e.QuotaUpdated? then Some(e.spec) else if e.PodAdded? then e.listed else None;
      var q := Apply(qs, e)[n];
      if n in qs && !(e.QuotaUpdated? && e.namespace == n) then q.min == qs[n].min && q.max == qs[n].max
      else
        && spec.Some?
        && q.min == (if spec.value.min.Some? then spec.value.min.value else Resource(0, 0, 0, 0, map[]))
        && q.max == (if spec.value.max.Some? then spec.value.max.value
                     else Resource(0x7fff_ffff_ffff_ffff, 0x7fff_ffff_ffff_ffff, 0x7fff_ffff_ffff_ffff, 0, map[]))
  {
    hide Plus, Minus;
  }

  lemma PodAccounted(q: Quota, p: Pod, requests: Requests)
    requires Accounted(q, requests) && p.request == requests(p.uid)
    ensures Accounted(WithPod(q, p), requests) && Accounted(WithoutPod(q, p), requests)
  {
    forall d ensures Get(WithPod(q, p).used, d) == Sum(WithPod(q, p).pods, RequestIn(requests, d))
             ensures Get(WithoutPod(q, p).used, d) == Sum(WithoutPod(q, p).pods, RequestIn(requests, d)) {
      if p.uid in q.pods {
        SumTake(q.pods, p.uid, RequestIn(requests, d));
      } else {
        SumTake(q.pods + {p.uid}, p.uid, RequestIn(requests, d));
        assert q.pods + {p.uid} - {p.uid} == q.pods;
      }
    }
  }

  lemma NewAccounted(n: string, spec: Spec, requests: Requests)
    ensures Accounted(NewQuota(n, spec), requests)
  {
    forall d ensures Get(Nothing, d) == 0 {
    }
  }

  lemma ApplyAccounted(qs: Quotas, e: Event, requests: Requests)
    requires AllAccounted(qs, requests) && ShowsRequest(e, requests)
    ensures AllAccounted(Apply(qs, e), requests)
  {
    match e {
      case PodAdded(p, listed) =>
        var q := if p.namespace in qs then qs[p.namespace]
                 else NewQuota(p.namespace, if listed.Some? then listed.value else Spec(None, None));
        if p.namespace !in qs {
          NewAccounted(p.namespace, if listed.Some? then listed.value else Spec(None, None), requests);
        }
        PodAccounted(q, p, requests);
      case QuotaAdded(n, spec) => NewAccounted(n, spec, requests);
      case QuotaUpdated(n, spec) => NewAccounted(n, spec, requests);
      case QuotaDeleted(n) =>
      case _ =>
        if e.p.namespace in qs {
          PodAccounted(qs[e.p.namespace], e.p, requests);
        }
    }
  }

  /** In every run each quota's use is the sum of the requests of exactly the pods it counts. */
  lemma {:induction false} UseIsSumOfRequests(qs: Quotas, es: seq<Event>, requests: Requests)
    requires AllAccounted(qs, requests)
    requires forall i :: 0 <= i < |es| ==> ShowsRequest(es[i], requests)
    ensures AllAccounted(ApplyAll(qs, es), requests)
  {
    if es != [] {
      UseIsSumOfRequests(qs, es[..|es| - 1], requests);
      ApplyAccounted(ApplyAll(qs, es[..|es| - 1]), es[|es| - 1], requests);
    }
  }
}
