/**
  The list of NUMA nodes the filter and score plugins work on, built from the zones of an NRT,
  and the rules that say which resources are bound to a NUMA node.
 */
module NumaNodes {
  import opened NodeTopology

  const MAX_NUMA_ID := 64

  /** Returned in place of an id when nothing fits, and the divisor of the score. */
  const HIGHEST_NUMA_ID := 8

  /** Width of the NUMA bitmask. */
  const MASK_BITS := 64

  datatype QoS = Guaranteed | Burstable | BestEffort

  datatype NumaNode = NumaNode(id: nat, resources: ResourceList, costs: map<int, int>)

  // ----- resource kinds

  predicate HasInfix(s: string, infix: string)
  {
    exists i :: 0 <= i <= |s| && infix <= s[i..]
  }

  /** Resource names without a slash, or in the kubernetes.io domain, are native. */
  predicate IsNative(name: string)
  {
    !HasInfix(name, "/") || HasInfix(name, "kubernetes.io/")
  }

  /** Resources that may be available at host level only. */
  predicate IsHostLevel(name: string)
  {
    name == "ephemeral-storage" || name == "storage" || !IsNative(name)
  }

  /** Resources that are always bound to NUMA nodes. */
  predicate IsNumaAffine(name: string)
  {
    name == "cpu" || name == "memory" || "hugepages-" <= name
  }

  /** Only Guaranteed pods get CPUs, memory and hugepages of one NUMA node exclusively. */
  predicate Exempt(qos: QoS, name: string)
  {
    !qos.Guaranteed? && IsNumaAffine(name)
  }

  predicate IsSuitable(qos: QoS, name: string, quantity: nat, available: nat)
  {
    Exempt(qos, name) || quantity <= available
  }

  /** In plain words: CPUs, memory and huge pages of a pod that is not Guaranteed. */
  lemma ExemptMeans(qos: QoS, name: string)
    ensures Exempt(qos, name) <==>
      && qos != Guaranteed
      && (name == "cpu" || name == "memory" || (|name| >= 10 && name[..10] == "hugepages-"))
  {
  }

  /** `part` occurs in the name. */
  predicate HasPart(name: string, part: string)
  {
    exists i, j :: 0 <= i <= j <= |name| && name[i..j] == part
  }

  lemma InfixIsPart(s: string, infix: string)
    ensures HasInfix(s, infix) <==> HasPart(s, infix)
  {
    if i :| 0 <= i <= |s| && infix <= s[i..] {
      assert s[i..i + |infix|] == infix;
    }
    if i, j :| 0 <= i <= j <= |s| && s[i..j] == infix {
      assert s[i..][..|infix|] == infix;
      assert infix <= s[i..];
    }
  }

  /** In plain words: the two storages, and domain-prefixed names outside kubernetes.io. */
  lemma HostLevelMeans(name: string)
    ensures IsHostLevel(name) <==>
      || name == "ephemeral-storage" || name == "storage"
      || (HasPart(name, "/") && !HasPart(name, "kubernetes.io/"))
  {
    InfixIsPart(name, "/");
    InfixIsPart(name, "kubernetes.io/");
  }

  // ----- from zones to NUMA nodes

  function Extracted(rs: seq<ResourceInfo>): ResourceList
  {
    if rs == [] then map[] else Extracted(rs[..|rs| - 1])[rs[|rs| - 1].name := rs[|rs| - 1].available]
  }

  predicate IsNumaZone(z: Zone)
  {
    z.kind == "Node" && z.id.Some? && z.id.value <= MAX_NUMA_ID
  }

  function NodesOf(zones: seq<Zone>): seq<NumaNode>
  {
    if zones == [] then [] else
      var z := zones[|zones| - 1];
      NodesOf(zones[..|zones| - 1])
        + if IsNumaZone(z) then [NumaNode(z.id.value, Extracted(z.resources), z.costs)] else []
  }

  method ExtractResources(zone: Zone) returns (res: ResourceList)
    ensures res == Extracted(zone.resources)
    ensures forall r :: r in res <==> exists i :: 0 <= i < |zone.resources| && zone.resources[i].name == r
    ensures forall i :: 0 <= i < |zone.resources| && IsLastOfName(zone.resources, i) ==>
              zone.resources[i].name in res && res[zone.resources[i].name] == zone.resources[i].available
  {
    res := map[];
    for i := 0 to |zone.resources|
      invariant res == Extracted(zone.resources[..i])
      invariant forall r :: r in res <==> exists j :: 0 <= j < i && zone.resources[j].name == r
    {
      assert zone.resources[..i + 1][..i] == zone.resources[..i];
      res := res[zone.resources[i].name := zone.resources[i].available];
    }
    assert zone.resources[..|zone.resources|] == zone.resources;
    forall i | 0 <= i < |zone.resources| && IsLastOfName(zone.resources, i) {
      ExtractedIsLast(zone.resources, i);
    }
  }

  ghost predicate IsLastOfName(rs: seq<ResourceInfo>, i: int)
    requires 0 <= i < |rs|
  {
    forall j :: i < j < |rs| ==> rs[j].name != rs[i].name
  }

  /** Of several entries with one name the last one counts. */
  lemma {:induction false} ExtractedIsLast(rs: seq<ResourceInfo>, i: nat)
    requires i < |rs| && IsLastOfName(rs, i)
    ensures rs[i].name in Extracted(rs) && Extracted(rs)[rs[i].name] == rs[i].available
  {
    if i < |rs| - 1 {
      ExtractedIsLast(rs[..|rs| - 1], i);
    }
  }

  lemma NodesOfOne(z: Zone)
    ensures NodesOf([z]) ==
      if z.kind == "Node" && z.id.Some? && z.id.value <= 64
      then [NumaNode(z.id.value, Extracted(z.resources), z.costs)] else []
  {
    hide Extracted;
    assert [z][..0] == [];
  }

  /** The list is made zone by zone: a NUMA zone gives one node, any other zone none. */
  lemma {:induction false} NodesZoneByZone(a: seq<Zone>, b: seq<Zone>)
    ensures NodesOf(a + b) == NodesOf(a) + NodesOf(b)
    decreases |b|
  {
    hide IsNumaZone, Extracted;
    if b == [] {
      assert a + b == a;
    } else {
      var rest, last := b[..|b| - 1], b[|b| - 1];
      NodesZoneByZone(a, rest);
      assert (a + b)[..|a + b| - 1] == a + rest;
    }
  }

  method CreateNUMANodeList(zones: seq<Zone>) returns (nodes: seq<NumaNode>)
    ensures nodes == NodesOf(zones)
  {
    nodes := [];
    for i := 0 to |zones|
      invariant nodes == NodesOf(zones[..i])
    {
      assert zones[..i + 1][..i] == zones[..i];
      if IsNumaZone(zones[i]) {
        var resources := ExtractResources(zones[i]);
        nodes := nodes + [NumaNode(zones[i].id.value, resources, zones[i].costs)];
      }
    }
    assert zones[..|zones|] == zones;
  }

  /** Every extracted quantity is the one some entry of the zone reports. */
  lemma {:induction false} ExtractedFromEntry(rs: seq<ResourceInfo>, r: string) returns (i: nat)
    requires r in Extracted(rs)
    ensures i < |rs| && rs[i] == ResourceInfo(r, Extracted(rs)[r])
  {
    i := |rs| - 1;
    if rs[i].name != r {
      i := ExtractedFromEntry(rs[..|rs| - 1], r);
    }
  }

  /** Every NUMA node of the list is a zone of the NRT. */
  lemma {:induction false} NodeFromZone(zones: seq<Zone>, j: nat) returns (z: nat)
    requires j < |NodesOf(zones)|
    ensures z < |zones| && IsNumaZone(zones[z])
    ensures NodesOf(zones)[j] == NumaNode(zones[z].id.value, Extracted(zones[z].resources), zones[z].costs)
  {
    z := |zones| - 1;
    if j < |NodesOf(zones[..|zones| - 1])| {
      z := NodeFromZone(zones[..|zones| - 1], j);
    }
  }

  ghost predicate UniqueIds(nodes: seq<NumaNode>)
  {
    forall i, j :: 0 <= i < j < |nodes| ==> nodes[i].id != nodes[j].id
  }

  /** `b` reports the zones and resource names of `a` with at least as much of each. */
  ghost predicate NoLess(a: seq<NumaNode>, b: seq<NumaNode>)
  {
    && |a| == |b|
    && forall z :: 0 <= z < |a| ==>
         && a[z].id == b[z].id && a[z].resources.Keys == b[z].resources.Keys
         && forall r :: r in a[z].resources ==> a[z].resources[r] <= b[z].resources[r]
  }
}
