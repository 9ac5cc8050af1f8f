/**
  The quota objects the plugin updates in place, live or as a snapshot. Each method is one
  critical section of the plugin and is tied to a function on the quotas as values.
 */
module ElasticQuotas {
  import opened NodeTopology
  import opened Pods
  import opened QuotaModel
  import opened QuotaEvents

  class ElasticQuotaInfo {
    const namespace: string
    const min: Resource
    const max: Resource
    var pods: set<string>
    var used: Resource

    function View(): Quota
      reads this
    {
      Quota(namespace, pods, min, max, used)
    }

    constructor (namespace: string, spec: Spec)
      ensures View() == NewQuota(namespace, spec)
    {
      this.namespace := namespace;
      min := if spec.min.Some? then spec.min.value else BoundFor(LOWER_BOUND_OF_MIN);
      max := if spec.max.Some? then spec.max.value else BoundFor(UPPER_BOUND_OF_MAX);
      pods, used := {}, Nothing;
    }

    constructor Of(q: Quota)
      ensures View() == q
    {
      namespace, min, max, pods, used := q.namespace, q.min, q.max, q.pods, q.used;
    }

    method ReserveResource(request: Resource)
      modifies this`used
      ensures used == Plus(old(used), request)
    {
      used := used.(memory := used.memory + request.memory, milliCpu := used.milliCpu + request.milliCpu,
                    ephemeral := used.ephemeral + request.ephemeral, podNumber := used.podNumber + request.podNumber);
      ghost var before := used;
      var left := request.scalars.Keys;
      while left != {}
        invariant left <= request.scalars.Keys
        invariant used == before.(scalars := used.scalars)
        invariant used.scalars.Keys == before.scalars.Keys + (request.scalars.Keys - left)
        invariant forall n :: n in used.scalars ==>
                    used.scalars[n] == ScalarOf(before, n) + if n in left then 0 else ScalarOf(request, n)
        decreases left
      {
        var n :| n in left;
        left := left - {n};
        used := used.(scalars := used.scalars[n := ScalarOf(used, n) + request.scalars[n]]);
      }
      assert used.scalars == Plus(old(used), request).scalars;
    }

    method UnreserveResource(request: Resource)
      modifies this`used
      ensures used == Minus(old(used), request)
    {
      used := used.(memory := used.memory - request.memory, milliCpu := used.milliCpu - request.milliCpu,
                    ephemeral := used.ephemeral - request.ephemeral, podNumber := used.podNumber - request.podNumber);
      ghost var before := used;
      var left := request.scalars.Keys;
      while left != {}
        invariant left <= request.scalars.Keys
        invariant used == before.(scalars := used.scalars)
        invariant used.scalars.Keys == before.scalars.Keys + (request.scalars.Keys - left)
        invariant forall n :: n in used.scalars ==>
                    used.scalars[n] == ScalarOf(before, n) - if n in left then 0 else ScalarOf(request, n)
        decreases left
      {
        var n :| n in left;
        left := left - {n};
        used := used.(scalars := used.scalars[n := ScalarOf(used, n) - request.scalars[n]]);
      }
      assert used.scalars == Minus(old(used), request).scalars;
    }

    method AddPodIfNotPresent(p: Pod) returns (ok: bool)
      modifies this
      ensures View() == WithPod(old(View()), p)
      ensures ok <==> p.uid != ""
    {
      if p.uid == "" {
        return false;
      }
      ok := true;
      if p.uid in pods {
        return;
      }
      pods := pods + {p.uid};
      ReserveResource(p.request);
    }

    method DeletePodIfPresent(p: Pod) returns (ok: bool)
      modifies this
      ensures View() == WithoutPod(old(View()), p)
      ensures ok <==> p.uid != ""
    {
      if p.uid == "" {
        return false;
      }
      ok := true;
      if p.uid !in pods {
        return;
      }
      pods := pods - {p.uid};
      UnreserveResource(p.request);
    }

    method Clone() returns (c: ElasticQuotaInfo)
      ensures fresh(c) && c.View() == View()
    {
      c := new ElasticQuotaInfo.Of(View());
    }
  }

  /** The quotas by namespace. */
  class ElasticQuotaInfos {
    var infos: map<string, ElasticQuotaInfo>

    /** No two namespaces share a quota object. */
    ghost predicate Valid()
      reads this
    {
      forall a, b :: a in infos && b in infos && a != b ==> infos[a] != infos[b]
    }

    function View(): Quotas
      reads this, infos.Values
    {
      map n | n in infos :: infos[n].View()
    }

    constructor ()
      ensures Valid() && View() == map[]
    {
      infos := map[];
    }

    /** A dry-run or live add of one pod. */
    method AddPod(p: Pod) returns (ok: bool)
      requires Valid()
      modifies infos.Values
      ensures Valid() && View() == AddTo(old(View()), p)
      ensures ok <==> (p.namespace in infos ==> p.uid != "")
    {
      ok := true;
      if p.namespace in infos {
        ok := infos[p.namespace].AddPodIfNotPresent(p);
      }
    }

    method RemovePod(p: Pod) returns (ok: bool)
      requires Valid()
      modifies infos.Values
      ensures Valid() && View() == RemoveFrom(old(View()), p)
      ensures ok <==> (p.namespace in infos ==> p.uid != "")
    {
      ok := true;
      if p.namespace in infos {
        ok := infos[p.namespace].DeletePodIfPresent(p);
      }
    }

    /** A snapshot shares no object with the quotas it was taken from. */
    method Clone() returns (c: ElasticQuotaInfos)
      requires Valid()
      ensures fresh(c) && c.Valid() && c.View() == View()
      ensures forall n :: n in c.infos ==> fresh(c.infos[n])
    {
      var copies: map<string, ElasticQuotaInfo> := map[];
      var left := infos.Keys;
      while left != {}
        invariant left <= infos.Keys && copies.Keys == infos.Keys - left
        invariant forall n :: n in copies ==> fresh(copies[n]) && copies[n].View() == infos[n].View()
        invariant forall a, b :: a in copies && b in copies && a != b ==> copies[a] != copies[b]
        decreases left
      {
        var n :| n in left;
        left := left - {n};
        var copy := infos[n].Clone();
        copies := copies[n := copy];
      }
      c := new ElasticQuotaInfos();
      c.infos := copies;
    }

    method Reserve(p: Pod) returns (ok: bool)
      requires Valid()
      modifies infos.Values
      ensures Valid() && View() == Apply(old(View()), Reserved(p))
      ensures ok <==> (p.namespace in infos ==> p.uid != "")
    {
      ok := AddPod(p);
    }

    method Unreserve(p: Pod)
      requires Valid()
      modifies infos.Values
      ensures Valid() && View() == Apply(old(View()), Unreserved(p))
    {
      var _ := RemovePod(p);
    }

    method Install(namespace: string, info: ElasticQuotaInfo)
      requires Valid() && forall n :: n in infos ==> infos[n] != info
      modifies this
      ensures Valid() && infos == old(infos)[namespace := info]
      ensures View() == old(View())[namespace := info.View()]
    {
      infos := infos[namespace := info];
    }

    method AddElasticQuota(namespace: string, spec: Spec)
      requires Valid()
      modifies this
      ensures Valid() && View() == Apply(old(View()), QuotaAdded(namespace, spec))
      ensures forall n :: n in infos ==> fresh(infos[n]) || (n in old(infos) && infos[n] == old(infos)[n])
    {
      if namespace in infos {
        return;
      }
      var info := new ElasticQuotaInfo(namespace, spec);
      Install(namespace, info);
    }

    /** The new quota takes over the pods and the use of the one it replaces. */
    method UpdateElasticQuota(namespace: string, spec: Spec)
      requires Valid()
      modifies this
      ensures Valid() && View() == Apply(old(View()), QuotaUpdated(namespace, spec))
    {
      var info := new ElasticQuotaInfo(namespace, spec);
      if namespace in infos {
        info.pods, info.used := infos[namespace].pods, infos[namespace].used;
      }
      Install(namespace, info);
    }

    method DeleteElasticQuota(namespace: string)
      requires Valid()
      modifies this
      ensures Valid() && View() == Apply(old(View()), QuotaDeleted(namespace))
    {
      infos := infos - {namespace};
    }

    /** `listed` is the quota the API server lists for the namespace, if any. */
    method PodAddedEvent(p: Pod, listed: Option<Spec>)
      requires Valid()
      modifies this, infos.Values
      ensures Valid() && View() == Apply(old(View()), PodAdded(p, listed))
    {
      if p.namespace !in infos {
        if listed.None? {
          return;
        }
        AddElasticQuota(p.namespace, listed.value);
      }
      var _ := AddPod(p);
    }

    method PodUpdatedEvent(p: Pod, wasFinished: bool, isActive: bool)
      requires Valid()
      modifies infos.Values
      ensures Valid() && View() == Apply(old(View()), PodUpdated(p, wasFinished, isActive))
    {
      if wasFinished {
        return;
      }
      if !isActive {
        var _ := RemovePod(p);
      }
    }

    method PodDeletedEvent(p: Pod)
      requires Valid()
      modifies infos.Values
      ensures Valid() && View() == Apply(old(View()), PodDeleted(p))
    {
      var _ := RemovePod(p);
    }
  }

  // ----- dry runs

  datatype DryRunStep = Add(p: Pod) | Remove(p: Pod)

  function DryRun(qs: Quotas, steps: seq<DryRunStep>): Quotas
  {
    if steps == [] then qs else
      var before := DryRun(qs, steps[..|steps| - 1]);
      match steps[|steps| - 1]
      case Add(p) => AddTo(before, p)
      case Remove(p) => RemoveFrom(before, p)
  }

  /** Any sequence of dry-run adds and removes on a snapshot leaves the live quotas as they were. */
  method RunOnSnapshot(live: ElasticQuotaInfos, steps: seq<DryRunStep>) returns (snapshot: ElasticQuotaInfos)
    requires live.Valid()
    ensures live.Valid() && live.infos == old(live.infos) && live.View() == old(live.View())
    ensures fresh(snapshot) && snapshot.Valid() && snapshot.View() == DryRun(live.View(), steps)
  {
    snapshot := live.Clone();
    for i := 0 to |steps|
      invariant snapshot.Valid() && fresh(snapshot) && forall n :: n in snapshot.infos ==> fresh(snapshot.infos[n])
      invariant snapshot.View() == DryRun(old(live.View()), steps[..i])
    {
      assert steps[..i + 1][..i] == steps[..i];
      match steps[i] {
        case Add(p) => var _ := snapshot.AddPod(p);
        case Remove(p) => var _ := snapshot.RemovePod(p);
      }
    }
    assert steps[..|steps|] == steps;
  }
}
