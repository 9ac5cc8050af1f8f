/**
  What more room does to the verdict with container scope. Each container goes to the lowest
  node that holds it, so room on a low node can draw a container away from where it was.
 */
module MoreRoom {
  import opened NodeTopology
  import opened NumaNodes
  import opened NumaFilter

  lemma MoreRoomHolds(a: seq<NumaNode>, b: seq<NumaNode>, request: ResourceList, qos: QoS, id: int)
    requires NoLess(a, b) && HoldsAll(a, request, qos, request.Keys, id)
    ensures HoldsAll(b, request, qos, request.Keys, id)
  {
    forall r | r in request ensures Holds(b, qos, r, request[r], id) {
      assert Holds(a, qos, r, request[r], id);
      if IdProvides(a, qos, r, request[r], id) {
        var z :| 0 <= z < |a| && a[z].id == id && ZoneProvides(a[z], qos, r, request[r]);
        assert ZoneProvides(b[z], qos, r, request[r]);
      }
    }
  }

  /** With more room the same node is picked exactly when no lower one has come to hold the request. */
  lemma SamePickIff(a: seq<NumaNode>, b: seq<NumaNode>, request: ResourceList, qos: QoS, nodeResources: set<string>)
    requires NoLess(a, b) && Best(a, request, qos, nodeResources).Some?
    ensures var pick := Best(a, request, qos, nodeResources);
      Best(b, request, qos, nodeResources) == pick <==> NoneLower(b, request, qos, pick.value)
  {
    var id := Best(a, request, qos, nodeResources).value;
    MoreRoomHolds(a, b, request, qos, id);
    assert id in Holding(b, request, qos, request.Keys);
    if j :| 0 <= j < id && HoldsAll(b, request, qos, request.Keys, j) {
      assert j in Holding(b, request, qos, request.Keys);
    }
  }

  /** No node with a lower id holds the request. */
  ghost predicate NoneLower(nodes: seq<NumaNode>, request: ResourceList, qos: QoS, id: int)
  {
    forall j :: 0 <= j < id ==> !HoldsAll(nodes, request, qos, request.Keys, j)
  }

  lemma MoreRoomAfterPick(a: seq<NumaNode>, b: seq<NumaNode>, id: int, qos: QoS, request: ResourceList)
    requires NoLess(a, b) && CanSubtract(a, id, qos, request)
    ensures CanSubtract(b, id, qos, request)
    ensures NoLess(Subtracted(a, id, qos, request), Subtracted(b, id, qos, request))
  {
    forall z | 0 <= z < |b| && b[z].id == id ensures CanTake(b[z], qos, request) {
      assert CanTake(a[z], qos, request);
    }
  }

  /** What `b` has left after the containers were placed on the given ids; as far as it can pay. */
  ghost function Spent(b: seq<NumaNode>, containers: seq<ResourceList>, placed: seq<int>, qos: QoS): seq<NumaNode>
    requires |placed| <= |containers|
  {
    if placed == [] then b else
      var n := |placed| - 1;
      var before := Spent(b, containers, placed[..n], qos);
      if CanSubtract(before, placed[n], qos, containers[n]) then Subtracted(before, placed[n], qos, containers[n])
      else before
  }

  /** For each container, no node below its pick holds it in what `b` has left after the picks before. */
  ghost predicate NoneLowerAlong(b: seq<NumaNode>, containers: seq<ResourceList>, placed: seq<int>, qos: QoS)
    requires |placed| <= |containers|
  {
    forall j :: 0 <= j < |placed| ==> NoneLower(Spent(b, containers, placed[..j], qos), containers[j], qos, placed[j])
  }

  /** The last container of an accepted pod. */
  lemma AcceptedStep(nodes: seq<NumaNode>, containers: seq<ResourceList>, qos: QoS, nodeResources: set<string>)
    requires containers != [] && Place(nodes, containers, qos, nodeResources).status.Accepted?
    ensures var n := |containers| - 1;
      var p, q := Place(nodes, containers[..n], qos, nodeResources), Place(nodes, containers, qos, nodeResources);
      && p.status.Accepted? && q.placed == p.placed + [q.placed[n]]
      && Best(p.left, containers[n], qos, nodeResources) == Some(q.placed[n])
      && CanSubtract(p.left, q.placed[n], qos, containers[n])
      && q.left == Subtracted(p.left, q.placed[n], qos, containers[n])
  {
    hide Best, CanSubtract, Subtracted;
  }

  /** The last container on other nodes, on which the ones before went where they should. */
  lemma NextStep(nodes: seq<NumaNode>, containers: seq<ResourceList>, qos: QoS, nodeResources: set<string>, id: int)
    requires containers != []
    ensures var n := |containers| - 1;
      var p, q := Place(nodes, containers[..n], qos, nodeResources), Place(nodes, containers, qos, nodeResources);
      var best := Best(p.left, containers[n], qos, nodeResources);
      && p.placed <= q.placed && |q.placed| <= |p.placed| + 1
      && (p.status.Accepted? && best == Some(id) && CanSubtract(p.left, id, qos, containers[n]) ==>
            q == Progress(p.placed + [id], Subtracted(p.left, id, qos, containers[n]), Accepted))
      && (q.placed == p.placed + [id] ==> best == Some(id))
  {
    hide Best, CanSubtract, Subtracted;
    var n := |containers| - 1;
    var p, q := Place(nodes, containers[..n], qos, nodeResources), Place(nodes, containers, qos, nodeResources);
    if q.placed == p.placed + [id] {
      assert q.placed[|p.placed|] == id;
    }
  }

  /** Following the picks made on `a`, `b` always has no less left than `a`. */
  lemma {:induction false} SpentNoLess(
    a: seq<NumaNode>, b: seq<NumaNode>, containers: seq<ResourceList>, qos: QoS, nodeResources: set<string>)
    requires NoLess(a, b) && Place(a, containers, qos, nodeResources).status.Accepted?
    ensures var p := Place(a, containers, qos, nodeResources);
      NoLess(p.left, Spent(b, containers, p.placed, qos))
  {
    hide NoLess, Best, CanSubtract, Subtracted, Place;
    if containers == [] {
      NothingPlaced(a, containers, qos, nodeResources);
      assert containers[..0] == containers;
    } else {
      var cs, n := containers[..|containers| - 1], |containers| - 1;
      var p, q := Place(a, cs, qos, nodeResources), Place(a, containers, qos, nodeResources);
      AcceptedStep(a, containers, qos, nodeResources);
      SpentNoLess(a, b, cs, qos, nodeResources);
      assert q.placed[..n] == p.placed;
      SpentOnPrefix(b, containers, p.placed, qos, n);
      MoreRoomAfterPick(p.left, Spent(b, cs, p.placed, qos), q.placed[n], qos, containers[n]);
    }
  }

  lemma {:induction false} SpentOnPrefix(b: seq<NumaNode>, containers: seq<ResourceList>, placed: seq<int>, qos: QoS,
      n: nat)
    requires |placed| <= n <= |containers|
    ensures Spent(b, containers, placed, qos) == Spent(b, containers[..n], placed, qos)
    decreases |placed|
  {
    if placed != [] {
      SpentOnPrefix(b, containers, placed[..|placed| - 1], qos, n);
    }
  }

  /**
    Exactly when more room leaves everything where it was: the nodes `b`, with no less of anything
    than `a`, take the containers on the same ids, and so accept the pod, if and only if no node
    below a pick has come to hold that container in what the picks before it leave of `b`.
   */
  lemma {:induction false} SamePicksIff(
    a: seq<NumaNode>, b: seq<NumaNode>, containers: seq<ResourceList>, qos: QoS, nodeResources: set<string>)
    requires NoLess(a, b) && Place(a, containers, qos, nodeResources).status.Accepted?
    ensures var p, q := Place(a, containers, qos, nodeResources), Place(b, containers, qos, nodeResources);
      && (q.placed == p.placed <==> NoneLowerAlong(b, containers, p.placed, qos))
      && (q.placed == p.placed ==> q.status.Accepted? && q.left == Spent(b, containers, p.placed, qos))
  {
    hide NoLess, Best, CanSubtract, Subtracted, NoneLower, NoneLowerAlong, Place, Spent;
    if containers == [] {
      NothingPlaced(a, containers, qos, nodeResources);
      NothingPlaced(b, containers, qos, nodeResources);
      NothingSpent(b, containers, qos);
      assert containers[..0] == containers;
    } else {
      var cs, n := containers[..|containers| - 1], |containers| - 1;
      var p, q := Place(a, cs, qos, nodeResources), Place(b, cs, qos, nodeResources);
      var p', q' := Place(a, containers, qos, nodeResources), Place(b, containers, qos, nodeResources);
      AcceptedStep(a, containers, qos, nodeResources);
      SamePicksIff(a, b, cs, qos, nodeResources);
      assert p'.placed[..n] == p.placed;
      NoneLowerSplits(b, containers, p'.placed, qos);
      SpentNoLess(a, b, cs, qos, nodeResources);
      SpentStep(b, containers, p'.placed, qos);
      SpentOnPrefix(b, containers, p.placed, qos, n);
      var left := Spent(b, cs, p.placed, qos);
      SamePickIff(p.left, left, containers[n], qos, nodeResources);
      MoreRoomAfterPick(p.left, left, p'.placed[n], qos, containers[n]);
      NextStep(b, containers, qos, nodeResources, p'.placed[n]);
      assert q'.placed == p'.placed ==> q.placed == p.placed;
    }
  }

  lemma NothingSpent(b: seq<NumaNode>, containers: seq<ResourceList>, qos: QoS)
    ensures Spent(b, containers, [], qos) == b && NoneLowerAlong(b, containers, [], qos)
  {
  }

  lemma SpentStep(b: seq<NumaNode>, containers: seq<ResourceList>, placed: seq<int>, qos: QoS)
    requires |placed| == |containers| > 0
    ensures var n := |placed| - 1;
      var before := Spent(b, containers, placed[..n], qos);
      CanSubtract(before, placed[n], qos, containers[n]) ==>
        Spent(b, containers, placed, qos) == Subtracted(before, placed[n], qos, containers[n])
  {
    hide CanSubtract, Subtracted;
  }

  lemma NoneLowerSplits(b: seq<NumaNode>, containers: seq<ResourceList>, placed: seq<int>, qos: QoS)
    requires |placed| == |containers| > 0
    ensures var n := |containers| - 1;
      NoneLowerAlong(b, containers, placed, qos) <==>
      && NoneLowerAlong(b, containers[..n], placed[..n], qos)
      && NoneLower(Spent(b, containers, placed[..n], qos), containers[n], qos, placed[n])
  {
    hide NoneLower, Spent;
    var n := |containers| - 1;
    forall j | 0 <= j < n
      ensures NoneLower(Spent(b, containers, placed[..j], qos), containers[j], qos, placed[j]) <==>
              NoneLower(Spent(b, containers[..n], placed[..n][..j], qos), containers[..n][j], qos, placed[..n][j])
    {
      assert placed[..n][..j] == placed[..j];
      SpentOnPrefix(b, containers, placed[..j], qos, n);
    }
  }

  // ----- room added above the picks

  /** Below `limit` the nodes are the same. */
  ghost predicate SameBelow(a: seq<NumaNode>, b: seq<NumaNode>, limit: int)
  {
    |a| == |b| && forall z :: 0 <= z < |a| && a[z].id < limit ==> a[z] == b[z]
  }

  lemma SameBelowAfterPick(a: seq<NumaNode>, b: seq<NumaNode>, limit: int, id: int, qos: QoS, request: ResourceList)
    requires NoLess(a, b) && SameBelow(a, b, limit)
    requires CanSubtract(a, id, qos, request) && CanSubtract(b, id, qos, request)
    ensures SameBelow(Subtracted(a, id, qos, request), Subtracted(b, id, qos, request), limit)
  {
  }

  lemma {:induction false} SpentSameBelow(
    a: seq<NumaNode>, b: seq<NumaNode>, containers: seq<ResourceList>, qos: QoS, nodeResources: set<string>, limit: int)
    requires NoLess(a, b) && SameBelow(a, b, limit) && Place(a, containers, qos, nodeResources).status.Accepted?
    ensures var p := Place(a, containers, qos, nodeResources);
      SameBelow(p.left, Spent(b, containers, p.placed, qos), limit)
  {
    hide NoLess, Best, CanSubtract, Subtracted, Place, SameBelow, Spent;
    if containers == [] {
      NothingPlaced(a, containers, qos, nodeResources);
      NothingSpent(b, containers, qos);
      assert containers[..0] == containers;
    } else {
      var cs, n := containers[..|containers| - 1], |containers| - 1;
      var p, q := Place(a, cs, qos, nodeResources), Place(a, containers, qos, nodeResources);
      AcceptedStep(a, containers, qos, nodeResources);
      SpentSameBelow(a, b, cs, qos, nodeResources, limit);
      SpentNoLess(a, b, cs, qos, nodeResources);
      assert q.placed[..n] == p.placed;
      SpentOnPrefix(b, containers, p.placed, qos, n);
      SpentStep(b, containers, q.placed, qos);
      var left := Spent(b, cs, p.placed, qos);
      MoreRoomAfterPick(p.left, left, q.placed[n], qos, containers[n]);
      SameBelowAfterPick(p.left, left, limit, q.placed[n], qos, containers[n]);
    }
  }

  lemma SameBelowHolds(a: seq<NumaNode>, b: seq<NumaNode>, limit: int, request: ResourceList, qos: QoS, id: int)
    requires NoLess(a, b) && SameBelow(a, b, limit) && id < limit && HoldsAll(b, request, qos, request.Keys, id)
    ensures HoldsAll(a, request, qos, request.Keys, id)
  {
    forall r | r in request ensures Holds(a, qos, r, request[r], id) {
      assert Holds(b, qos, r, request[r], id);
      if IdProvides(b, qos, r, request[r], id) {
        var z :| 0 <= z < |b| && b[z].id == id && ZoneProvides(b[z], qos, r, request[r]);
        assert ZoneProvides(a[z], qos, r, request[r]);
      }
    }
  }

  lemma BestIsLowest(nodes: seq<NumaNode>, request: ResourceList, qos: QoS, nodeResources: set<string>)
    requires Best(nodes, request, qos, nodeResources).Some?
    ensures NoneLower(nodes, request, qos, Best(nodes, request, qos, nodeResources).value)
  {
    var id := Best(nodes, request, qos, nodeResources).value;
    forall j | 0 <= j < id ensures !HoldsAll(nodes, request, qos, request.Keys, j) {
      assert j in Holding(nodes, request, qos, request.Keys) <==> HoldsAll(nodes, request, qos, request.Keys, j);
    }
  }

  lemma NoneLowerWhenSame(
    a: seq<NumaNode>, b: seq<NumaNode>, limit: int, request: ResourceList, qos: QoS, nodeResources: set<string>)
    requires NoLess(a, b) && SameBelow(a, b, limit)
    requires Best(a, request, qos, nodeResources).Some? && Best(a, request, qos, nodeResources).value <= limit
    ensures NoneLower(b, request, qos, Best(a, request, qos, nodeResources).value)
  {
    var id := Best(a, request, qos, nodeResources).value;
    BestIsLowest(a, request, qos, nodeResources);
    forall j | 0 <= j < id ensures !HoldsAll(b, request, qos, request.Keys, j) {
      if HoldsAll(b, request, qos, request.Keys, j) {
        SameBelowHolds(a, b, limit, request, qos, j);
      }
    }
  }

  /** Room added only on nodes at or above the highest pick changes no pick and rejects nothing. */
  lemma {:induction false} RoomAbovePicks(
    a: seq<NumaNode>, b: seq<NumaNode>, containers: seq<ResourceList>, qos: QoS, nodeResources: set<string>, limit: int)
    requires NoLess(a, b) && SameBelow(a, b, limit) && Place(a, containers, qos, nodeResources).status.Accepted?
    requires forall j :: 0 <= j < |containers| ==> Place(a, containers, qos, nodeResources).placed[j] <= limit
    ensures Place(b, containers, qos, nodeResources).status.Accepted?
    ensures Place(b, containers, qos, nodeResources).placed == Place(a, containers, qos, nodeResources).placed
  {
    hide NoLess, Best, CanSubtract, Subtracted, Place, SameBelow, Spent, NoneLower, NoneLowerAlong;
    SamePicksIff(a, b, containers, qos, nodeResources);
    if containers == [] {
      NothingPlaced(a, containers, qos, nodeResources);
      NothingSpent(b, containers, qos);
      assert containers[..0] == containers;
    } else {
      var cs, n := containers[..|containers| - 1], |containers| - 1;
      var p, q := Place(a, cs, qos, nodeResources), Place(a, containers, qos, nodeResources);
      AcceptedStep(a, containers, qos, nodeResources);
      assert q.placed[..n] == p.placed;
      assert forall j :: 0 <= j < |cs| ==> p.placed[j] == q.placed[j];
      RoomAbovePicks(a, b, cs, qos, nodeResources, limit);
      SamePicksIff(a, b, cs, qos, nodeResources);
      SpentSameBelow(a, b, cs, qos, nodeResources, limit);
      SpentNoLess(a, b, cs, qos, nodeResources);
      SpentOnPrefix(b, containers, p.placed, qos, n);
      NoneLowerWhenSame(p.left, Spent(b, cs, p.placed, qos), limit, containers[n], qos, nodeResources);
      NoneLowerSplits(b, containers, q.placed, qos);
    }
  }

  /** The same for the verdict of the handler, init containers included. */
  lemma MoreRoomKeepsVerdict(
    a: seq<NumaNode>, b: seq<NumaNode>, initContainers: seq<ResourceList>, containers: seq<ResourceList>, qos: QoS,
    nodeResources: set<string>)
    requires NoLess(a, b) && Verdict(a, initContainers, containers, qos, nodeResources).Accepted?
    requires NoneLowerAlong(b, containers, Place(a, containers, qos, nodeResources).placed, qos)
    ensures Verdict(b, initContainers, containers, qos, nodeResources).Accepted?
  {
    hide NoLess, Best, Place, NoneLowerAlong;
    SamePicksIff(a, b, containers, qos, nodeResources);
    forall i | 0 <= i < |initContainers| ensures Best(b, initContainers[i], qos, nodeResources).Some? {
      MoreRoomStillAccepts(a, b, initContainers[i], qos, nodeResources);
    }
  }

  // ----- container scope is not monotone

  lemma BestIs(nodes: seq<NumaNode>, request: ResourceList, qos: QoS, nodeResources: set<string>, id: int)
    requires KnownOnNode(request, nodeResources) && 0 <= id < MASK_BITS
    requires HoldsAll(nodes, request, qos, request.Keys, id)
    requires forall j :: 0 <= j < id ==> !HoldsAll(nodes, request, qos, request.Keys, j)
    ensures Best(nodes, request, qos, nodeResources) == Some(id)
  {
    assert id in Holding(nodes, request, qos, request.Keys);
  }

  lemma BestIsNone(nodes: seq<NumaNode>, request: ResourceList, qos: QoS, nodeResources: set<string>)
    requires forall j :: !HoldsAll(nodes, request, qos, request.Keys, j)
    ensures Best(nodes, request, qos, nodeResources) == None
  {
  }

  ghost predicate FitsAt(nodes: seq<NumaNode>, id: int, request: ResourceList)
  {
    exists z :: 0 <= z < |nodes| && nodes[z].id == id
             && forall r :: r in request ==> r in nodes[z].resources && request[r] <= nodes[z].resources[r]
  }

  lemma HoldsWhenFits(nodes: seq<NumaNode>, request: ResourceList, id: int)
    requires UniqueIds(nodes) && forall r :: r in request ==> request[r] > 0 && r in {"cpu", "device"}
    requires exists z :: 0 <= z < |nodes| && nodes[z].resources.Keys == {"cpu", "device"}
    ensures HoldsAll(nodes, request, Guaranteed, request.Keys, id) <==> request == map[] || FitsAt(nodes, id, request)
  {
    forall r | r in request ensures !IsFloating(nodes, r) {
      var z :| 0 <= z < |nodes| && nodes[z].resources.Keys == {"cpu", "device"};
      assert r in nodes[z].resources;
    }
    if HoldsAll(nodes, request, Guaranteed, request.Keys, id) && request != map[] {
      var r :| r in request;
      assert Holds(nodes, Guaranteed, r, request[r], id);
      var z :| 0 <= z < |nodes| && nodes[z].id == id && ZoneProvides(nodes[z], Guaranteed, r, request[r]);
      forall q | q in request ensures q in nodes[z].resources && request[q] <= nodes[z].resources[q] {
        assert Holds(nodes, Guaranteed, q, request[q], id);
        var y :| 0 <= y < |nodes| && nodes[y].id == id && ZoneProvides(nodes[y], Guaranteed, q, request[q]);
        assert y == z;
      }
    }
    if FitsAt(nodes, id, request) {
      var z :| 0 <= z < |nodes| && nodes[z].id == id
             && forall r :: r in request ==> r in nodes[z].resources && request[r] <= nodes[z].resources[r];
      forall r | r in request ensures Holds(nodes, Guaranteed, r, request[r], id) {
        assert ZoneProvides(nodes[z], Guaranteed, r, request[r]);
      }
    }
  }

  ghost const Known: set<string> := {"cpu", "device"}

  /** Two NUMA nodes with the given CPUs, where only the first has a device. */
  function TwoNodes(first: nat, second: nat): seq<NumaNode>
  {
    [NumaNode(0, map["cpu" := first, "device" := 1], map[]), NumaNode(1, map["cpu" := second], map[])]
  }

  predicate OnFirst(first: nat, request: ResourceList)
  {
    Quantity(request, "cpu") <= first && Quantity(request, "device") <= 1
  }

  predicate OnSecond(second: nat, request: ResourceList)
  {
    Quantity(request, "cpu") <= second && "device" !in request
  }

  lemma FitsAtTwo(first: nat, second: nat, request: ResourceList, id: int)
    requires request.Keys <= {"cpu", "device"}
    ensures FitsAt(TwoNodes(first, second), id, request) <==>
              (id == 0 && OnFirst(first, request)) || (id == 1 && OnSecond(second, request))
  {
    var nodes := TwoNodes(first, second);
    if id == 0 && OnFirst(first, request) {
      assert nodes[0].id == 0;
    } else if id == 1 && OnSecond(second, request) {
      assert nodes[1].id == 1;
    }
  }

  lemma BestOfTwo(first: nat, second: nat, request: ResourceList)
    requires request != map[] && request.Keys <= {"cpu", "device"} && forall r :: r in request ==> request[r] > 0
    ensures Best(TwoNodes(first, second), request, Guaranteed, Known)
         == if OnFirst(first, request) then Some(0) else if OnSecond(second, request) then Some(1) else None
  {
    hide Best, FitsAt, OnFirst, OnSecond, HoldsAll;
    var nodes := TwoNodes(first, second);
    assert nodes[0].resources.Keys == {"cpu", "device"};
    forall id ensures HoldsAll(nodes, request, Guaranteed, request.Keys, id) <==>
                      (id == 0 && OnFirst(first, request)) || (id == 1 && OnSecond(second, request)) {
      HoldsWhenFits(nodes, request, id);
      FitsAtTwo(first, second, request, id);
    }
    if OnFirst(first, request) {
      BestIs(nodes, request, Guaranteed, Known, 0);
    } else if OnSecond(second, request) {
      BestIs(nodes, request, Guaranteed, Known, 1);
    } else {
      BestIsNone(nodes, request, Guaranteed, Known);
    }
  }

  lemma MoreOnFirst(less: nat, more: nat, second: nat)
    requires less <= more
    ensures NoLess(TwoNodes(less, second), TwoNodes(more, second))
  {
  }

  lemma CpusTakenFirst(first: nat, second: nat, cpus: nat, request: ResourceList)
    requires request == map["cpu" := cpus] && cpus <= first
    ensures CanSubtract(TwoNodes(first, second), 0, Guaranteed, request)
    ensures Subtracted(TwoNodes(first, second), 0, Guaranteed, request) == TwoNodes(first - cpus, second)
  {
    hide Exempt;
    TakenFrom(TwoNodes(first, second)[0], cpus, request, TwoNodes(first - cpus, second)[0]);
  }

  lemma CpusTakenSecond(first: nat, second: nat, cpus: nat, request: ResourceList)
    requires request == map["cpu" := cpus] && cpus <= second
    ensures CanSubtract(TwoNodes(first, second), 1, Guaranteed, request)
    ensures Subtracted(TwoNodes(first, second), 1, Guaranteed, request) == TwoNodes(first, second - cpus)
  {
    hide Exempt;
    TakenFrom(TwoNodes(first, second)[1], cpus, request, TwoNodes(first, second - cpus)[1]);
  }

  lemma TakenFrom(node: NumaNode, cpus: nat, request: ResourceList, left: NumaNode)
    requires request == map["cpu" := cpus] && "cpu" in node.resources && cpus <= node.resources["cpu"]
    requires left == node.(resources := node.resources["cpu" := node.resources["cpu"] - cpus])
    ensures CanTake(node, Guaranteed, request) && Taken(node, Guaranteed, request) == left
  {
    assert forall r :: Accounted(Guaranteed, request, r) == if r == "cpu" then cpus else 0;
    assert Taken(node, Guaranteed, request).resources == left.resources;
  }

  /** The zones of an NRT with those nodes. */
  function TwoZones(first: nat, second: nat): seq<Zone>
  {
    [Zone("Node", Some(0), [ResourceInfo("cpu", first), ResourceInfo("device", 1)], map[]),
     Zone("Node", Some(1), [ResourceInfo("cpu", second)], map[])]
  }

  lemma TwoZonesAreNodes(first: nat, second: nat)
    ensures NodesOf(TwoZones(first, second)) == TwoNodes(first, second)
  {
    var zones := TwoZones(first, second);
    assert zones[..1] == [zones[0]] && zones[..1][..0] == [];
    NodesOfOneMore(zones[..1]);
    NodesOfOneMore(zones);
    var rs, ss := zones[0].resources, zones[1].resources;
    assert rs[..1] == [rs[0]] && rs[..1][..0] == [] && ss[..0] == [];
    assert Extracted(rs[..1]) == map["cpu" := first];
    assert Extracted(rs) == map["cpu" := first, "device" := 1];
    assert Extracted(ss) == map["cpu" := second];
  }

  lemma NodesOfOneMore(zones: seq<Zone>)
    requires zones != [] && IsNumaZone(zones[|zones| - 1])
    ensures var z := zones[|zones| - 1];
      NodesOf(zones) == NodesOf(zones[..|zones| - 1]) + [NumaNode(z.id.value, Extracted(z.resources), z.costs)]
  {
  }

  lemma PlaceTwo(
    nodes: seq<NumaNode>, first: ResourceList, second: ResourceList, qos: QoS, nodeResources: set<string>, id: int)
    requires Best(nodes, first, qos, nodeResources) == Some(id) && CanSubtract(nodes, id, qos, first)
    ensures Verdict(nodes, [], [first, second], qos, nodeResources)
         == PlaceNext(Progress([id], Subtracted(nodes, id, qos, first), Accepted), second, qos, nodeResources).status
  {
    hide Best, CanSubtract, Subtracted;
    var containers: seq<ResourceList> := [first, second];
    assert containers[..1] == [first] && containers[..1][..0] == [];
    assert Place(nodes, [first], qos, nodeResources) == Progress([id], Subtracted(nodes, id, qos, first), Accepted);
  }

  /**
    Container by container, more room can turn acceptance into rejection. With one CPU next to the
    device the first container is sent to the other node and the second fits; with two CPUs there
    the first container takes them, and the second finds no node with both a CPU and the device.
   */
  lemma MoreRoomCanReject(first: ResourceList, second: ResourceList)
    requires first == map["cpu" := 2] && second == map["cpu" := 1, "device" := 1]
    ensures var tight, roomy := NodesOf(TwoZones(1, 3)), NodesOf(TwoZones(2, 3));
      && NoLess(tight, roomy)
      && Verdict(tight, [], [first, second], Guaranteed, Known) == Accepted
      && Verdict(roomy, [], [first, second], Guaranteed, Known) == CannotAlignContainer
  {
    hide Best, Subtracted, CanSubtract, TwoNodes, NoLess, Verdict, TwoZones, NodesOf;
    assert "cpu" in first && "cpu" in second;
    TwoZonesAreNodes(1, 3);
    TwoZonesAreNodes(2, 3);
    MoreOnFirst(1, 2, 3);
    BestOfTwo(1, 3, first);
    BestOfTwo(2, 3, first);
    CpusTakenSecond(1, 3, 2, first);
    CpusTakenFirst(2, 3, 2, first);
    BestOfTwo(1, 1, second);
    BestOfTwo(0, 3, second);
    PlaceTwo(TwoNodes(1, 3), first, second, Guaranteed, Known, 1);
    PlaceTwo(TwoNodes(2, 3), first, second, Guaranteed, Known, 0);
    SecondCanBeTaken(second);
  }

  lemma SecondCanBeTaken(request: ResourceList)
    requires request == map["cpu" := 1, "device" := 1]
    ensures CanSubtract(TwoNodes(1, 1), 0, Guaranteed, request)
  {
    assert CanTake(TwoNodes(1, 1)[0], Guaranteed, request);
  }
}
