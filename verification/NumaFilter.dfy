/**
  The single-numa-node filter: the search for the lowest NUMA node that can hold a request,
  and the two handlers built on it, one for the whole pod and one container by container.
 */
module NumaFilter {
  import opened NodeTopology
  import opened NumaNodes
  import opened Sums

  // ----- which ids can hold a request

  /** A host-level resource that no zone lists is provided by the host as a whole. */
  ghost predicate IsFloating(nodes: seq<NumaNode>, r: string)
  {
    IsHostLevel(r) && forall z :: 0 <= z < |nodes| ==> r !in nodes[z].resources
  }

  ghost predicate ZoneProvides(node: NumaNode, qos: QoS, r: string, quantity: nat)
  {
    r in node.resources && IsSuitable(qos, r, quantity, node.resources[r])
  }

  ghost predicate IdProvides(nodes: seq<NumaNode>, qos: QoS, r: string, quantity: nat, id: int)
  {
    exists z :: 0 <= z < |nodes| && nodes[z].id == id && ZoneProvides(nodes[z], qos, r, quantity)
  }

  ghost predicate Holds(nodes: seq<NumaNode>, qos: QoS, r: string, quantity: nat, id: int)
  {
    quantity == 0 || IsFloating(nodes, r) || IdProvides(nodes, qos, r, quantity, id)
  }

  ghost predicate HoldsAll(nodes: seq<NumaNode>, request: ResourceList, qos: QoS, rs: set<string>, id: int)
    requires rs <= request.Keys
  {
    forall r :: r in rs ==> Holds(nodes, qos, r, request[r], id)
  }

  /** The ids, of all the mask can name, that hold every resource in `rs`. */
  ghost function Holding(nodes: seq<NumaNode>, request: ResourceList, qos: QoS, rs: set<string>): set<int>
    requires rs <= request.Keys
  {
    set id | 0 <= id < MASK_BITS && HoldsAll(nodes, request, qos, rs, id)
  }

  /** Everything asked for is known on the node. */
  ghost predicate KnownOnNode(request: ResourceList, nodeResources: set<string>)
  {
    forall r :: r in request && request[r] != 0 ==> r in nodeResources
  }

  lemma HasElement(s: set<int>)
    ensures s == {} || exists k :: k in s
  {
    if forall k :: k !in s {
      assert s == {};
    }
  }

  lemma {:induction false} LeastExists(s: set<int>, k: int)
    requires k in s
    ensures exists m :: m in s && forall x :: x in s ==> m <= x
    decreases |s|
  {
    if j :| j in s && j < k {
      LeastExists(s - {k}, j);
      var m :| m in s - {k} && forall x :: x in s - {k} ==> m <= x;
      assert m <= j;
      assert forall x :: x in s ==> x == k || x in s - {k};
      assert m in s;
    }
  }

  /** The first bit of a mask that has one. */
  function Least(s: set<int>): (m: int)
    requires s != {}
    ensures m in s && forall x :: x in s ==> m <= x
  {
    HasElement(s);
    var k :| k in s;
    LeastExists(s, k);
    var m :| m in s && forall x :: x in s ==> m <= x;
    m
  }

  /** The node the kubelet would pick: the lowest id that holds the whole request, if there is one. */
  ghost function Best(nodes: seq<NumaNode>, request: ResourceList, qos: QoS,
      nodeResources: set<string>): (b: Option<int>)
    ensures b.Some? ==> b.value in Holding(nodes, request, qos, request.Keys)
  {
    var ids := Holding(nodes, request, qos, request.Keys);
    if KnownOnNode(request, nodeResources) && ids != {} then Some(Least(ids)) else None
  }

  /**
    In plain words, a NUMA node with this id takes the request: each nonzero resource that some zone
    lists is listed by a zone with this id, with enough of it unless it is CPUs, memory or huge pages
    of a pod that is not Guaranteed; and one that no zone lists may be provided by the host.
   */
  ghost predicate Takes(nodes: seq<NumaNode>, request: ResourceList, qos: QoS, id: int)
  {
    forall r :: r in request && request[r] > 0 ==>
      if exists z :: 0 <= z < |nodes| && r in nodes[z].resources then
        exists z ::
          && 0 <= z < |nodes| && nodes[z].id == id && r in nodes[z].resources
          && (nodes[z].resources[r] >= request[r]
              || (qos != Guaranteed
                  && (r == "cpu" || r == "memory" || (|r| >= 10 && r[..10] == "hugepages-"))))
      else
        r == "ephemeral-storage" || r == "storage" || (HasPart(r, "/") && !HasPart(r, "kubernetes.io/"))
  }

  lemma TakesIsHolds(nodes: seq<NumaNode>, request: ResourceList, qos: QoS, id: int)
    ensures Takes(nodes, request, qos, id) <==> HoldsAll(nodes, request, qos, request.Keys, id)
  {
    hide Exempt, IsHostLevel, HasPart;
    forall r | r in request && request[r] > 0
      ensures Holds(nodes, qos, r, request[r], id) <==>
        if exists z :: 0 <= z < |nodes| && r in nodes[z].resources then
          exists z ::
            && 0 <= z < |nodes| && nodes[z].id == id && r in nodes[z].resources
            && (nodes[z].resources[r] >= request[r]
                || (qos != Guaranteed
                    && (r == "cpu" || r == "memory" || (|r| >= 10 && r[..10] == "hugepages-"))))
        else
          r == "ephemeral-storage" || r == "storage" || (HasPart(r, "/") && !HasPart(r, "kubernetes.io/"))
    {
      ExemptMeans(qos, r);
      HostLevelMeans(r);
    }
  }

  /** The pick in plain words: the lowest id that takes the request, if all of it is known on the node. */
  lemma BestMeans(nodes: seq<NumaNode>, request: ResourceList, qos: QoS, nodeResources: set<string>)
    ensures var best := Best(nodes, request, qos, nodeResources);
      && (best.Some? <==>
            && (forall r :: r in request && request[r] > 0 ==> r in nodeResources)
            && exists id :: 0 <= id < 64 && Takes(nodes, request, qos, id))
      && (best.Some? ==>
            && 0 <= best.value < 64 && Takes(nodes, request, qos, best.value)
            && forall id :: 0 <= id < best.value ==> !Takes(nodes, request, qos, id))
  {
    hide Takes, HoldsAll;
    forall id ensures Takes(nodes, request, qos, id) <==> HoldsAll(nodes, request, qos, request.Keys, id) {
      TakesIsHolds(nodes, request, qos, id);
    }
    var ids := Holding(nodes, request, qos, request.Keys);
    forall id | 0 <= id < 64 && Takes(nodes, request, qos, id) ensures id in ids {
    }
    assert forall id :: id in ids ==> 0 <= id < 64 && Takes(nodes, request, qos, id);
    HasElement(ids);
  }

  /** With distinct ids the picked zone has all that is not waived, whatever the QoS. */
  lemma PickedZoneHasAll(
    nodes: seq<NumaNode>, request: ResourceList, qos: QoS, nodeResources: set<string>, z: nat, r: string)
    requires UniqueIds(nodes) && Best(nodes, request, qos, nodeResources).Some?
    requires z < |nodes| && nodes[z].id == Best(nodes, request, qos, nodeResources).value
    requires r in request && request[r] > 0 && exists y :: 0 <= y < |nodes| && r in nodes[y].resources
    ensures r in nodes[z].resources
    ensures qos == Guaranteed || (r != "cpu" && r != "memory" && !("hugepages-" <= r)) ==>
              nodes[z].resources[r] >= request[r]
  {
    hide Best;
    BestMeans(nodes, request, qos, nodeResources);
    var id := Best(nodes, request, qos, nodeResources).value;
    assert Takes(nodes, request, qos, id);
    var y :| && 0 <= y < |nodes| && nodes[y].id == id && r in nodes[y].resources
             && (nodes[y].resources[r] >= request[r]
                 || (qos != Guaranteed && (r == "cpu" || r == "memory" || (|r| >= 10 && r[..10] == "hugepages-"))));
    assert y == z;
  }

  method FilledMask() returns (mask: set<int>)
    ensures forall id :: id in mask <==> 0 <= id < MASK_BITS
  {
    mask := {};
    for i := 0 to MASK_BITS
      invariant forall id :: id in mask <==> 0 <= id < i
    {
      mask := mask + {i};
    }
  }

  /** The request comes as a map, so its resources are tried in any order; the verdict does not depend on it. */
  method ResourcesAvailableInAnyNUMANodes(nodes: seq<NumaNode>, request: ResourceList, qos: QoS,
      nodeResources: set<string>)
    returns (numaId: int, fits: bool)
    ensures Best(nodes, request, qos, nodeResources) == if fits then Some(numaId) else None
    ensures !fits ==> numaId == HIGHEST_NUMA_ID
    ensures fits <==>
              && (forall r :: r in request && request[r] > 0 ==> r in nodeResources)
              && exists id :: 0 <= id < 64 && Takes(nodes, request, qos, id)
    ensures fits ==> Takes(nodes, request, qos, numaId) && 0 <= numaId < 64
                     && forall id :: 0 <= id < numaId ==> !Takes(nodes, request, qos, id)
  {
    hide Takes;
    BestMeans(nodes, request, qos, nodeResources);
    numaId := HIGHEST_NUMA_ID;
    var mask := FilledMask();
    assert 0 in mask;
    var left := request.Keys;
    ghost var seen: set<string> := {};
    while left != {}
      invariant left + seen == request.Keys && left !! seen
      invariant mask == Holding(nodes, request, qos, seen) && mask != {}
      invariant forall r :: r in seen && request[r] != 0 ==> r in nodeResources
      decreases left
    {
      var r :| r in left;
      left := left - {r};
      ghost var before := seen;
      seen := seen + {r};
      if request[r] == 0 {
        assert mask == Holding(nodes, request, qos, seen);
        continue;
      }
      if r !in nodeResources {
        return numaId, false;
      }
      var hasAffinity, fitting := FittingIds(nodes, qos, r, request[r]);
      if !hasAffinity && IsHostLevel(r) {
        assert IsFloating(nodes, r);
        assert mask == Holding(nodes, request, qos, seen);
        continue;
      }
      assert !IsFloating(nodes, r);
      mask := mask * fitting;
      assert mask == Holding(nodes, request, qos, seen);
      if mask == {} {
        assert Holding(nodes, request, qos, request.Keys) <= mask;
        return numaId, false;
      }
    }
    assert seen == request.Keys;
    return Least(mask), true;
  }

  /** One pass over the zones for one resource. Ids the mask cannot name are not added. */
  method FittingIds(nodes: seq<NumaNode>, qos: QoS, r: string, quantity: nat)
    returns (hasAffinity: bool, fitting: set<int>)
    ensures hasAffinity <==> exists z :: 0 <= z < |nodes| && r in nodes[z].resources
    ensures forall id :: id in fitting <==> 0 <= id < MASK_BITS && IdProvides(nodes, qos, r, quantity, id)
  {
    hasAffinity, fitting := false, {};
    for z := 0 to |nodes|
      invariant hasAffinity <==> exists y :: 0 <= y < z && r in nodes[y].resources
      invariant forall id :: id in fitting <==>
                  && 0 <= id < MASK_BITS
                  && exists y :: 0 <= y < z && nodes[y].id == id && ZoneProvides(nodes[y], qos, r, quantity)
    {
      if r in nodes[z].resources {
        hasAffinity := true;
        if IsSuitable(qos, r, quantity, nodes[z].resources[r]) && nodes[z].id < MASK_BITS {
          fitting := fitting + {nodes[z].id};
        }
      }
    }
  }

  // ----- pod scope

  /** Accepts exactly when some id holds the pod's whole effective request. */
  method SingleNUMAPodLevelHandler(zones: seq<Zone>, request: ResourceList, qos: QoS, nodeResources: set<string>)
    returns (accepted: bool)
    ensures accepted <==> Best(NodesOf(zones), request, qos, nodeResources).Some?
    ensures accepted <==>
              && (forall r :: r in request && request[r] > 0 ==> r in nodeResources)
              && exists id :: 0 <= id < 64 && Takes(NodesOf(zones), request, qos, id)
  {
    hide Best, Takes;
    var nodes := CreateNUMANodeList(zones);
    var _, fits := ResourcesAvailableInAnyNUMANodes(nodes, request, qos, nodeResources);
    return fits;
  }

  /** With at least as much in every zone, a request that was accepted still is, on no higher an id. */
  lemma MoreRoomStillAccepts(a: seq<NumaNode>, b: seq<NumaNode>, request: ResourceList, qos: QoS,
      nodeResources: set<string>)
    requires NoLess(a, b) && Best(a, request, qos, nodeResources).Some?
    ensures Best(b, request, qos, nodeResources).Some?
    ensures Best(b, request, qos, nodeResources).value <= Best(a, request, qos, nodeResources).value
  {
    var id := Best(a, request, qos, nodeResources).value;
    forall r | r in request ensures Holds(b, qos, r, request[r], id) {
      assert Holds(a, qos, r, request[r], id);
      if IdProvides(a, qos, r, request[r], id) {
        var z :| 0 <= z < |a| && a[z].id == id && ZoneProvides(a[z], qos, r, request[r]);
        assert ZoneProvides(b[z], qos, r, request[r]);
      }
    }
    assert id in Holding(b, request, qos, request.Keys);
  }

  // ----- container scope

  /** What placing a container takes from a node: nothing of what its QoS does not make exclusive. */
  function Accounted(qos: QoS, request: ResourceList, r: string): nat
  {
    if Exempt(qos, r) then 0 else Quantity(request, r)
  }

  /** The same in plain words. */
  function Share(qos: QoS, request: ResourceList, r: string): nat
  {
    if r !in request then 0
    else if qos != Guaranteed && (r == "cpu" || r == "memory" || (|r| >= 10 && r[..10] == "hugepages-")) then 0
    else request[r]
  }

  lemma ShareIsAccounted(qos: QoS, request: ResourceList)
    ensures forall r :: Share(qos, request, r) == Accounted(qos, request, r)
  {
    forall r ensures Share(qos, request, r) == Accounted(qos, request, r) {
      ExemptMeans(qos, r);
    }
  }

  predicate CanTake(node: NumaNode, qos: QoS, request: ResourceList)
  {
    forall r :: r in node.resources ==> Accounted(qos, request, r) <= node.resources[r]
  }

  function Taken(node: NumaNode, qos: QoS, request: ResourceList): NumaNode
    requires CanTake(node, qos, request)
  {
    node.(resources := map r | r in node.resources :: node.resources[r] - Accounted(qos, request, r))
  }

  /** In plain words: the node has the share of every resource it lists, and keeps the rest. */
  lemma TakenMeans(node: NumaNode, qos: QoS, request: ResourceList)
    ensures CanTake(node, qos, request) <==>
              forall r :: r in node.resources ==> Share(qos, request, r) <= node.resources[r]
    ensures CanTake(node, qos, request) ==>
              var left := Taken(node, qos, request);
              && left.id == node.id && left.costs == node.costs && left.resources.Keys == node.resources.Keys
              && forall r :: r in node.resources ==> left.resources[r] == node.resources[r] - Share(qos, request, r)
  {
    hide Share, Accounted;
    ShareIsAccounted(qos, request);
  }

  predicate CanSubtract(nodes: seq<NumaNode>, id: int, qos: QoS, request: ResourceList)
  {
    forall z :: 0 <= z < |nodes| && nodes[z].id == id ==> CanTake(nodes[z], qos, request)
  }

  function Subtracted(nodes: seq<NumaNode>, id: int, qos: QoS, request: ResourceList): (r: seq<NumaNode>)
    requires CanSubtract(nodes, id, qos, request)
    ensures |r| == |nodes|
    ensures forall z :: 0 <= z < |nodes| ==>
              r[z] == if nodes[z].id == id then Taken(nodes[z], qos, request) else nodes[z]
  {
    seq(|nodes|, z requires 0 <= z < |nodes| =>
      if nodes[z].id == id then Taken(nodes[z], qos, request) else nodes[z])
  }

  /** The resource loop of the subtraction, on one node; it stops at the first quantity that would go negative. */
  method TakeFromNode(node: NumaNode, qos: QoS, request: ResourceList) returns (result: NumaNode, ok: bool)
    ensures ok <==> CanTake(node, qos, request)
    ensures ok ==> result == Taken(node, qos, request)
  {
    hide Exempt;
    result := node;
    var left := request.Keys;
    while left != {}
      invariant left <= request.Keys
      invariant result == node.(resources := result.resources) && result.resources.Keys == node.resources.Keys
      invariant forall r :: r in node.resources ==>
                  result.resources[r] == node.resources[r] - if r in left then 0 else Accounted(qos, request, r)
      decreases left
    {
      var r :| r in left;
      left := left - {r};
      if Exempt(qos, r) || request[r] == 0 || r !in result.resources {
        continue;
      }
      if result.resources[r] < request[r] {
        return result, false;
      }
      result := result.(resources := result.resources[r := result.resources[r] - request[r]]);
    }
    ok := true;
    assert forall r :: r in node.resources ==> result.resources[r] == node.resources[r] - Accounted(qos, request, r);
    assert result.resources == Taken(node, qos, request).resources;
  }

  method SubtractResourcesFromNUMANodeList(nodes: array<NumaNode>, id: int, qos: QoS,
      request: ResourceList) returns (ok: bool)
    modifies nodes
    ensures ok <==> CanSubtract(old(nodes[..]), id, qos, request)
    ensures ok ==> nodes[..] == Subtracted(old(nodes[..]), id, qos, request)
  {
    ghost var before := nodes[..];
    for i := 0 to nodes.Length
      invariant forall z :: i <= z < nodes.Length ==> nodes[z] == before[z]
      invariant forall z :: 0 <= z < i && before[z].id == id ==> CanTake(before[z], qos, request)
      invariant forall z :: 0 <= z < i ==>
                  nodes[z] == if before[z].id == id then Taken(before[z], qos, request) else before[z]
    {
      if nodes[i].id != id {
        continue;
      }
      var result, fine := TakeFromNode(nodes[i], qos, request);
      nodes[i] := result;
      if !fine {
        return false;
      }
    }
    return true;
  }

  /** The lowest id that holds a request can always pay for it, so accounting never turns inconsistent. */
  lemma BestCanSubtract(nodes: seq<NumaNode>, request: ResourceList, qos: QoS, nodeResources: set<string>)
    requires UniqueIds(nodes) && Best(nodes, request, qos, nodeResources).Some?
    ensures CanSubtract(nodes, Best(nodes, request, qos, nodeResources).value, qos, request)
  {
    var id := Best(nodes, request, qos, nodeResources).value;
    forall z, r | 0 <= z < |nodes| && nodes[z].id == id && r in nodes[z].resources
      ensures Accounted(qos, request, r) <= nodes[z].resources[r]
    {
      if r in request && request[r] != 0 {
        assert Holds(nodes, qos, r, request[r], id);
        var y :| 0 <= y < |nodes| && nodes[y].id == id && ZoneProvides(nodes[y], qos, r, request[r]);
        assert y == z;
      }
    }
  }

  /** What the containers placed on `id` have been accounted there. */
  ghost function Load(containers: seq<ResourceList>, placed: seq<int>, qos: QoS, id: int, r: string): nat
    requires |placed| <= |containers|
  {
    if placed == [] then 0 else
      var n := |placed| - 1;
      Load(containers, placed[..n], qos, id, r) + if placed[n] == id then Accounted(qos, containers[n], r) else 0
  }

  ghost function PlacedOn(placed: seq<int>, id: int): set<int>
  {
    set j | 0 <= j < |placed| && placed[j] == id
  }

  ghost function ShareOf(containers: seq<ResourceList>, qos: QoS, r: string): int -> int
  {
    j => if 0 <= j < |containers| then Share(qos, containers[j], r) else 0
  }

  /** That is the sum of the shares of exactly the containers placed there. */
  lemma {:induction false} LoadIsSum(containers: seq<ResourceList>, placed: seq<int>, qos: QoS, id: int, r: string)
    requires |placed| <= |containers|
    ensures Load(containers, placed, qos, id, r) == Sum(PlacedOn(placed, id), ShareOf(containers, qos, r))
  {
    hide Share, Accounted;
    if placed == [] {
      assert PlacedOn(placed, id) == {};
    } else {
      var n := |placed| - 1;
      LoadIsSum(containers, placed[..n], qos, id, r);
      ShareIsAccounted(qos, containers[n]);
      if placed[n] == id {
        SumTake(PlacedOn(placed, id), n, ShareOf(containers, qos, r));
        assert PlacedOn(placed, id) - {n} == PlacedOn(placed[..n], id);
      } else {
        assert PlacedOn(placed, id) == PlacedOn(placed[..n], id);
      }
    }
  }

  /** `left` is `nodes` with every placed container's accounted request gone from its node, and nothing else. */
  ghost predicate IsPacking(nodes: seq<NumaNode>, containers: seq<ResourceList>, placed: seq<int>, qos: QoS,
      left: seq<NumaNode>)
    requires |placed| <= |containers|
  {
    && |left| == |nodes|
    && forall z :: 0 <= z < |nodes| ==>
         && left[z].id == nodes[z].id && left[z].costs == nodes[z].costs
         && left[z].resources.Keys == nodes[z].resources.Keys
         && forall r :: r in nodes[z].resources ==>
              left[z].resources[r] + Load(containers, placed, qos, nodes[z].id, r) == nodes[z].resources[r]
  }

  lemma PackOneMore(nodes: seq<NumaNode>, containers: seq<ResourceList>, placed: seq<int>, qos: QoS,
      left: seq<NumaNode>, id: int)
    requires |placed| < |containers| && IsPacking(nodes, containers, placed, qos, left)
    requires CanSubtract(left, id, qos, containers[|placed|])
    ensures IsPacking(nodes, containers, placed + [id], qos, Subtracted(left, id, qos, containers[|placed|]))
  {
    assert (placed + [id])[..|placed|] == placed;
  }

  /** Container `j` went to the lowest id that held it in what the containers before it had left. */
  ghost predicate PickedLowest(
    nodes: seq<NumaNode>, containers: seq<ResourceList>, placed: seq<int>, qos: QoS, nodeResources: set<string>, j: nat)
    requires j < |placed| <= |containers|
  {
    exists before :: IsPacking(nodes, containers, placed[..j], qos, before)
                  && Best(before, containers[j], qos, nodeResources) == Some(placed[j])
  }

  lemma PickedLowestExtends(
    nodes: seq<NumaNode>, containers: seq<ResourceList>, placed: seq<int>, qos: QoS, nodeResources: set<string>,
    left: seq<NumaNode>, id: int)
    requires |placed| < |containers| && IsPacking(nodes, containers, placed, qos, left)
    requires Best(left, containers[|placed|], qos, nodeResources) == Some(id)
    requires forall j :: 0 <= j < |placed| ==> PickedLowest(nodes, containers, placed, qos, nodeResources, j)
    ensures forall j :: 0 <= j <= |placed| ==> PickedLowest(nodes, containers, placed + [id], qos, nodeResources, j)
  {
    var placed' := placed + [id];
    forall j | 0 <= j <= |placed| ensures PickedLowest(nodes, containers, placed', qos, nodeResources, j) {
      assert placed'[..j] == placed[..j];
      if j == |placed| {
        assert placed[..j] == placed;
      } else {
        assert PickedLowest(nodes, containers, placed, qos, nodeResources, j);
      }
    }
  }

  datatype Status = Accepted | CannotAlignInitContainer | CannotAlignContainer | InconsistentAccounting

  /** How far the app containers get: the ids picked, what the nodes have left, and the verdict. */
  datatype Progress = Progress(placed: seq<int>, left: seq<NumaNode>, status: Status)

  ghost function PlaceNext(p: Progress, request: ResourceList, qos: QoS, nodeResources: set<string>): Progress
  {
    var best := Best(p.left, request, qos, nodeResources);
    if !p.status.Accepted? then p
    else if best.None? then p.(status := CannotAlignContainer)
    else if !CanSubtract(p.left, best.value, qos, request) then p.(status := InconsistentAccounting)
    else Progress(p.placed + [best.value], Subtracted(p.left, best.value, qos, request), Accepted)
  }

  ghost function Place(nodes: seq<NumaNode>, containers: seq<ResourceList>, qos: QoS,
      nodeResources: set<string>): (p: Progress)
    ensures |p.placed| <= |containers| && (p.status.Accepted? ==> |p.placed| == |containers|)
    ensures !p.status.CannotAlignInitContainer?
  {
    if containers == [] then Progress([], nodes, Accepted) else
      var n := |containers| - 1;
      PlaceNext(Place(nodes, containers[..n], qos, nodeResources), containers[n], qos, nodeResources)
  }

  /** Once a container cannot be placed, the rest makes no difference. */
  lemma {:induction false} PlaceStops(
    nodes: seq<NumaNode>, containers: seq<ResourceList>, qos: QoS, nodeResources: set<string>, n: nat)
    requires n <= |containers| && !Place(nodes, containers[..n], qos, nodeResources).status.Accepted?
    ensures Place(nodes, containers, qos, nodeResources) == Place(nodes, containers[..n], qos, nodeResources)
    decreases |containers|
  {
    if n == |containers| {
      assert containers[..n] == containers;
    } else {
      assert containers[..|containers| - 1][..n] == containers[..n];
      PlaceStops(nodes, containers[..|containers| - 1], qos, nodeResources, n);
    }
  }

  /** The verdict on a pod with container scope. */
  ghost function Verdict(
    nodes: seq<NumaNode>, initContainers: seq<ResourceList>, containers: seq<ResourceList>, qos: QoS,
    nodeResources: set<string>): Status
  {
    if exists i :: 0 <= i < |initContainers| && Best(nodes, initContainers[i], qos, nodeResources).None?
    then CannotAlignInitContainer
    else Place(nodes, containers, qos, nodeResources).status
  }

  /**
    Aligns every init container on its own and every app container after the ones before it.
    Acceptance is a real packing of all app containers, each on the lowest node that still held
    it; rejection names a container that no node holds in what is left. The accounting error the
    plugin guards against needs two nodes with one id.
   */
  method SingleNUMAContainerLevelHandler(
    zones: seq<Zone>, initContainers: seq<ResourceList>, containers: seq<ResourceList>, qos: QoS,
    nodeResources: set<string>)
    returns (status: Status, placed: seq<int>, left: seq<NumaNode>)
    ensures status == Verdict(NodesOf(zones), initContainers, containers, qos, nodeResources)
    ensures !status.CannotAlignInitContainer? ==>
              Place(NodesOf(zones), containers, qos, nodeResources) == Progress(placed, left, status)
    ensures UniqueIds(NodesOf(zones)) ==> !status.InconsistentAccounting?
    ensures status.CannotAlignInitContainer? <==>
              exists i :: 0 <= i < |initContainers| && Best(NodesOf(zones), initContainers[i], qos, nodeResources).None?
    ensures |placed| <= |containers| && IsPacking(NodesOf(zones), containers, placed, qos, left)
    ensures forall i :: 0 <= i < |placed| ==> PickedLowest(NodesOf(zones), containers, placed, qos, nodeResources, i)
    ensures status.Accepted? ==> |placed| == |containers|
    ensures status.CannotAlignContainer? ==>
              |placed| < |containers| && Best(left, containers[|placed|], qos, nodeResources).None?
    ensures status.InconsistentAccounting? ==>
              && |placed| < |containers| && Best(left, containers[|placed|], qos, nodeResources).Some?
              && !CanSubtract(left, Best(left, containers[|placed|], qos, nodeResources).value, qos,
                  containers[|placed|])
  {
    hide Best, Takes, IsPacking, PickedLowest, CanSubtract, Subtracted, Place, PlaceNext;
    var list := CreateNUMANodeList(zones);
    NothingPlaced(list, containers, qos, nodeResources);
    placed, left := [], list;
    for i := 0 to |initContainers|
      invariant forall j :: 0 <= j < i ==> Best(list, initContainers[j], qos, nodeResources).Some?
    {
      var _, fits := ResourcesAvailableInAnyNUMANodes(list, initContainers[i], qos, nodeResources);
      if !fits {
        return CannotAlignInitContainer, placed, left;
      }
    }
    var nodes := new NumaNode[|list|](i requires 0 <= i < |list| => list[i]);
    assert nodes[..] == list;
    for i := 0 to |containers|
      invariant |placed| == i && IsPacking(list, containers, placed, qos, nodes[..])
      invariant Place(list, containers[..i], qos, nodeResources) == Progress(placed, nodes[..], Accepted)
      invariant forall j :: 0 <= j < i ==> PickedLowest(list, containers, placed, qos, nodeResources, j)
    {
      var before := nodes[..];
      PlaceOneMore(list, containers, qos, nodeResources, i);
      var id, fits := ResourcesAvailableInAnyNUMANodes(nodes[..], containers[i], qos, nodeResources);
      if !fits {
        return CannotAlignContainer, placed, nodes[..];
      }
      PackingKeepsIds(list, containers, placed, qos, before);
      if UniqueIds(before) {
        BestCanSubtract(before, containers[i], qos, nodeResources);
      }
      var ok := SubtractResourcesFromNUMANodeList(nodes, id, qos, containers[i]);
      if !ok {
        return InconsistentAccounting, placed, before;
      }
      PackOneMore(list, containers, placed, qos, before, id);
      PickedLowestExtends(list, containers, placed, qos, nodeResources, before, id);
      placed := placed + [id];
    }
    assert containers[..|containers|] == containers;
    return Accepted, placed, nodes[..];
  }

  lemma NothingPlaced(nodes: seq<NumaNode>, containers: seq<ResourceList>, qos: QoS, nodeResources: set<string>)
    ensures IsPacking(nodes, containers, [], qos, nodes)
    ensures Place(nodes, containers[..0], qos, nodeResources) == Progress([], nodes, Accepted)
  {
  }

  lemma PackingKeepsIds(
    nodes: seq<NumaNode>, containers: seq<ResourceList>, placed: seq<int>, qos: QoS, left: seq<NumaNode>)
    requires |placed| <= |containers| && IsPacking(nodes, containers, placed, qos, left)
    ensures UniqueIds(nodes) ==> UniqueIds(left)
  {
  }

  /** One turn of the loop, in the words of the loop. */
  lemma PlaceOneMore(nodes: seq<NumaNode>, containers: seq<ResourceList>, qos: QoS, nodeResources: set<string>, i: nat)
    requires i < |containers|
    requires Place(nodes, containers[..i], qos, nodeResources).status.Accepted?
    ensures var p := Place(nodes, containers[..i], qos, nodeResources);
      var best := Best(p.left, containers[i], qos, nodeResources);
      if best.None? then
        Place(nodes, containers, qos, nodeResources) == p.(status := CannotAlignContainer)
      else if !CanSubtract(p.left, best.value, qos, containers[i]) then
        Place(nodes, containers, qos, nodeResources) == p.(status := InconsistentAccounting)
      else
        Place(nodes, containers[..i + 1], qos, nodeResources)
          == Progress(p.placed + [best.value], Subtracted(p.left, best.value, qos, containers[i]), Accepted)
  {
    hide Best, CanSubtract, Subtracted;
    assert containers[..i + 1][..i] == containers[..i];
    if !Place(nodes, containers[..i + 1], qos, nodeResources).status.Accepted? {
      PlaceStops(nodes, containers, qos, nodeResources, i + 1);
    }
  }
}
