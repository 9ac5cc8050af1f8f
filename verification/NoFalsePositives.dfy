/**
  The cache and the filter together: what an accepting filter verdict on a cached, pessimistic
  view says about the resources that are really free on the node.
 */
module NoFalsePositives {
  import opened NodeTopology
  import opened NumaNodes
  import opened NumaFilter
  import opened OverReserveModel
  import opened OverReserveRuns

  /** Zone `z` of the view is the NUMA node `id` and reports `r`. */
  ghost predicate Reports(view: seq<Zone>, z: int, id: int, r: string)
  {
    && 0 <= z < |view| && view[z].kind == "Node" && view[z].id == Some(id) && 0 <= id <= 64
    && exists i :: 0 <= i < |view[z].resources| && view[z].resources[i].name == r
  }

  /** Some NUMA zone of the view reports `r`. */
  ghost predicate Listed(view: seq<Zone>, r: string)
  {
    exists z, id :: Reports(view, z, id, r)
  }

  lemma ReportsMeans(view: seq<Zone>, z: int, id: int, r: string)
    ensures Reports(view, z, id, r) <==>
      0 <= z < |view| && IsNumaZone(view[z]) && view[z].id.value == id && r in Extracted(view[z].resources)
  {
    if 0 <= z < |view| {
      ExtractedNames(view[z].resources, r);
    }
  }

  lemma {:induction false} ExtractedNames(rs: seq<ResourceInfo>, r: string)
    ensures r in Extracted(rs) <==> exists i :: 0 <= i < |rs| && rs[i].name == r
  {
    if rs != [] {
      ExtractedNames(rs[..|rs| - 1], r);
    }
  }

  /** A zone reports the resource exactly when some node of the list has it. */
  lemma ListedMeans(view: seq<Zone>, r: string)
    ensures Listed(view, r) <==> exists j :: 0 <= j < |NodesOf(view)| && r in NodesOf(view)[j].resources
  {
    if z, id :| Reports(view, z, id, r) {
      ReportsMeans(view, z, id, r);
      var j := ZoneIsNode(view, z);
      assert r in NodesOf(view)[j].resources;
    }
    if j :| 0 <= j < |NodesOf(view)| && r in NodesOf(view)[j].resources {
      var z := NodeFromZone(view, j);
      ReportsMeans(view, z, view[z].id.value, r);
    }
  }

  /** `q` more of `r` fits zone `z` even after every reserved pod has been placed in that zone. */
  ghost predicate ReallyFits(t: Kubelet, z: nat, r: string, q: nat)
  {
    q + Demand(t.pending, r) <= t.free(z, r)
  }

  /** A positive quantity the view reports can be taken for real. */
  lemma ReportedFits(view: seq<Zone>, t: Kubelet, z: nat, r: string, q: nat)
    requires PromiseKept(view, t) && z < |view|
    requires r in Extracted(view[z].resources) && 0 < q <= Extracted(view[z].resources)[r]
    ensures ReallyFits(t, z, r, q)
  {
    var i := ExtractedFromEntry(view[z].resources, r);
    assert view[z].resources[i].available >= q;
  }

  /**
    Every nonzero resource of the request that some zone reports is reported by a zone with this id.
    It really fits there, unless it is CPUs, memory or huge pages of a pod that is not Guaranteed. One
    that no zone reports may be provided by the host.
   */
  ghost predicate FitsOnId(view: seq<Zone>, t: Kubelet, request: ResourceList, qos: QoS, id: int)
  {
    forall r :: r in request && request[r] > 0 ==>
      if Listed(view, r) then exists z: nat :: Reports(view, z, id, r) && FitsUnlessWaived(t, z, r, request[r], qos)
      else r == "ephemeral-storage" || r == "storage" || (HasPart(r, "/") && !HasPart(r, "kubernetes.io/"))
  }

  ghost predicate FitsUnlessWaived(t: Kubelet, z: nat, r: string, q: nat, qos: QoS)
  {
    || ReallyFits(t, z, r, q)
    || (qos != Guaranteed && (r == "cpu" || r == "memory" || (|r| >= 10 && r[..10] == "hugepages-")))
  }

  /** All of them in one and the same zone. */
  ghost predicate FitsInZone(view: seq<Zone>, t: Kubelet, request: ResourceList, qos: QoS, id: int, z: nat)
  {
    forall r :: r in request && request[r] > 0 && Listed(view, r) ==>
      Reports(view, z, id, r) && FitsUnlessWaived(t, z, r, request[r], qos)
  }

  /** With distinct ids, the zones that take the resources one by one are the same zone. */
  lemma FitsInOneZone(view: seq<Zone>, t: Kubelet, request: ResourceList, qos: QoS, id: int)
    requires UniqueIds(NodesOf(view)) && FitsOnId(view, t, request, qos, id)
    ensures exists z :: FitsInZone(view, t, request, qos, id, z)
  {
    hide FitsUnlessWaived, Listed, HasPart, Reports, UniqueIds, NodesOf;
    if q :| q in request && request[q] > 0 && Listed(view, q) {
      var z: nat :| Reports(view, z, id, q) && FitsUnlessWaived(t, z, q, request[q], qos);
      forall r | r in request && request[r] > 0 && Listed(view, r)
        ensures Reports(view, z, id, r) && FitsUnlessWaived(t, z, r, request[r], qos)
      {
        var y: nat :| Reports(view, y, id, r) && FitsUnlessWaived(t, y, r, request[r], qos);
        SameReported(view, y, z, id, r, q);
      }
      assert FitsInZone(view, t, request, qos, id, z);
    } else {
      assert FitsInZone(view, t, request, qos, id, 0);
    }
  }

  lemma SameReported(view: seq<Zone>, y: int, z: int, id: int, r: string, q: string)
    requires UniqueIds(NodesOf(view)) && Reports(view, y, id, r) && Reports(view, z, id, q)
    ensures y == z
  {
    SameZone(view, y, z);
  }

  lemma TwoZonesTwoNodes(view: seq<Zone>, z: nat)
    requires z < |view| - 1 && IsNumaZone(view[z]) && IsNumaZone(view[|view| - 1])
    ensures UniqueIds(NodesOf(view)) ==> view[z].id != view[|view| - 1].id
  {
    var rest := view[..|view| - 1];
    var j := ZoneIsNode(rest, z);
    assert NodesOf(view)[j].id == view[z].id.value && NodesOf(view)[|NodesOf(rest)|].id == view[|view| - 1].id.value;
  }

  lemma {:induction false} SameZone(view: seq<Zone>, y: nat, z: nat)
    requires UniqueIds(NodesOf(view)) && y < |view| && z < |view|
    requires IsNumaZone(view[y]) && IsNumaZone(view[z]) && view[y].id == view[z].id
    ensures y == z
  {
    var rest, n := view[..|view| - 1], |view| - 1;
    if y < n && z < n {
      assert forall j :: 0 <= j < |NodesOf(rest)| ==> NodesOf(view)[j] == NodesOf(rest)[j];
      SameZone(rest, y, z);
    } else if y != z {
      TwoZonesTwoNodes(view, if y < n then y else z);
    }
  }

  /**
    Pod scope, over every run: when the filter accepts a pod on a cached copy, the NUMA node it
    picked really holds the pod, on top of every pod reserved on the node and not placed yet.
   */
  lemma PodVerdictIsReal(w: World, es: seq<Event>, n: string, request: ResourceList, qos: QoS,
      nodeResources: set<string>)
    requires Start(w) && IsRun(w, es) && n in w.kubelets
    requires Query(After(w, es).cache, n).zones.Some?
    requires Best(NodesOf(Query(After(w, es).cache, n).zones.value), request, qos, nodeResources).Some?
    ensures n in After(w, es).kubelets
    ensures var view := Query(After(w, es).cache, n).zones.value;
      var t, id := After(w, es).kubelets[n], Best(NodesOf(view), request, qos, nodeResources).value;
      && FitsOnId(view, t, request, qos, id)
      && (UniqueIds(NodesOf(view)) ==> exists z :: FitsInZone(view, t, request, qos, id, z))
  {
    hide PromiseKept, Takes, Listed, Best, UniqueIds, NodesOf, Query, Start, IsRun, After;
    FreshCopyNeverOverstates(w, es, n);
    var view, t := Query(After(w, es).cache, n).zones.value, After(w, es).kubelets[n];
    var nodes := NodesOf(view);
    var id := Best(nodes, request, qos, nodeResources).value;
    BestMeans(nodes, request, qos, nodeResources);
    forall r | r in request && request[r] > 0
      ensures if Listed(view, r) then
                exists z: nat :: Reports(view, z, id, r) && FitsUnlessWaived(t, z, r, request[r], qos)
              else r == "ephemeral-storage" || r == "storage" || (HasPart(r, "/") && !HasPart(r, "kubernetes.io/"))
    {
      TakenFits(view, t, request, qos, id, r);
    }
    if UniqueIds(nodes) {
      FitsInOneZone(view, t, request, qos, id);
    }
  }

  /** One resource of a request that a node takes on a view that keeps its promise. */
  lemma TakenFits(view: seq<Zone>, t: Kubelet, request: ResourceList, qos: QoS, id: int, r: string)
    requires PromiseKept(view, t) && Takes(NodesOf(view), request, qos, id) && r in request && request[r] > 0
    ensures if Listed(view, r) then
              exists z: nat :: Reports(view, z, id, r) && FitsUnlessWaived(t, z, r, request[r], qos)
            else r == "ephemeral-storage" || r == "storage" || (HasPart(r, "/") && !HasPart(r, "kubernetes.io/"))
  {
    hide Listed, HasPart, PromiseKept, ReallyFits, Reports, NodesOf;
    var nodes := NodesOf(view);
    ListedMeans(view, r);
    if Listed(view, r) {
      var j :| && 0 <= j < |nodes| && nodes[j].id == id && r in nodes[j].resources
               && (nodes[j].resources[r] >= request[r]
                   || (qos != Guaranteed && (r == "cpu" || r == "memory" || (|r| >= 10 && r[..10] == "hugepages-"))));
      var z := NodeFromZone(view, j);
      ReportsMeans(view, z, id, r);
      if nodes[j].resources[r] >= request[r] {
        ReportedFits(view, t, z, r, request[r]);
      }
      assert Reports(view, z, id, r) && FitsUnlessWaived(t, z, r, request[r], qos);
    }
  }

  lemma {:induction false} ZoneIsNode(zones: seq<Zone>, z: nat) returns (j: nat)
    requires z < |zones| && IsNumaZone(zones[z])
    ensures j < |NodesOf(zones)|
    ensures NodesOf(zones)[j] == NumaNode(zones[z].id.value, Extracted(zones[z].resources), zones[z].costs)
  {
    if z == |zones| - 1 {
      j := |NodesOf(zones)| - 1;
    } else {
      j := ZoneIsNode(zones[..|zones| - 1], z);
    }
  }

  /**
    Container scope, over every run: the packing the filter finds on a cached copy is a packing of
    what is really free. In every zone all that was accounted there fits at once, again on top of
    every pod still to be placed.
   */
  lemma ContainerPackingIsReal(
    w: World, es: seq<Event>, n: string, containers: seq<ResourceList>, placed: seq<int>, qos: QoS, left: seq<NumaNode>,
    z: nat, r: string)
    requires Start(w) && IsRun(w, es) && n in w.kubelets
    requires Query(After(w, es).cache, n).zones.Some? && |placed| <= |containers|
    requires var view := Query(After(w, es).cache, n).zones.value;
      && IsPacking(NodesOf(view), containers, placed, qos, left)
      && z < |view| && IsNumaZone(view[z]) && Reports(view, z, view[z].id.value, r)
    ensures n in After(w, es).kubelets
    ensures var view := Query(After(w, es).cache, n).zones.value;
      var load := Load(containers, placed, qos, view[z].id.value, r);
      load > 0 ==> ReallyFits(After(w, es).kubelets[n], z, r, load)
  {
    FreshCopyNeverOverstates(w, es, n);
    var view := Query(After(w, es).cache, n).zones.value;
    ReportsMeans(view, z, view[z].id.value, r);
    var j := ZoneIsNode(view, z);
    var load := Load(containers, placed, qos, view[z].id.value, r);
    assert left[j].resources[r] + load == NodesOf(view)[j].resources[r];
    if load > 0 {
      ReportedFits(view, After(w, es).kubelets[n], z, r, load);
    }
  }
}
