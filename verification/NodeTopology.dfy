/**
  The shape of a NodeResourceTopology (NRT) object: per-zone resource availability, as the
  node agent reports it and the scheduler caches it.
 */
module NodeTopology {

  datatype Option<+T> = None | Some(value: T)

  /** Resource name to quantity. Quantities are never negative. */
  type ResourceList = map<string, nat>

  datatype ResourceInfo = ResourceInfo(name: string, available: nat)

  /** `id` is the NUMA id parsed from the zone name, when the name carries one. */
  datatype Zone = Zone(kind: string, id: Option<nat>, resources: seq<ResourceInfo>, costs: map<int, int>)

  function Quantity(r: ResourceList, name: string): (q: nat)
    ensures name !in r ==> q == 0
  {
    if name in r then r[name] else 0
  }

  function AtLeastZero(x: int): (y: nat)
    ensures x <= y && (y == 0 || y == x)
  {
    if x < 0 then 0 else x
  }

  /** Every availability lowered by `take(name)`, stopping at zero; names, order and zones kept. */
  ghost function Lowered(zones: seq<Zone>, take: string -> int): (r: seq<Zone>)
    ensures |r| == |zones|
    ensures forall z :: 0 <= z < |zones| ==> SameShape(zones[z], r[z])
  {
    seq(|zones|, z requires 0 <= z < |zones| => zones[z].(resources := LoweredEntries(zones[z].resources, take)))
  }

  ghost function LoweredEntries(rs: seq<ResourceInfo>, take: string -> int): (r: seq<ResourceInfo>)
    ensures |r| == |rs|
    ensures forall i :: 0 <= i < |rs| ==> r[i] == LoweredEntry(rs[i], take)
  {
    seq(|rs|, i requires 0 <= i < |rs| => LoweredEntry(rs[i], take))
  }

  ghost function LoweredEntry(e: ResourceInfo, take: string -> int): ResourceInfo
  {
    ResourceInfo(e.name, AtLeastZero(e.available - take(e.name)))
  }

  /** Two readings of one zone: same identity and resource names, possibly different quantities. */
  ghost predicate SameShape(a: Zone, b: Zone)
  {
    && a.kind == b.kind && a.id == b.id && a.costs == b.costs
    && |a.resources| == |b.resources|
    && forall i :: 0 <= i < |a.resources| ==> a.resources[i].name == b.resources[i].name
  }

  /** Lowering by one amount and then by another is lowering once by both, despite the stops at zero. */
  lemma LoweredTwice(zones: seq<Zone>, f: string -> int, g: string -> int, both: string -> int)
    requires forall r :: 0 <= f(r) && 0 <= g(r) && both(r) == f(r) + g(r)
    ensures Lowered(Lowered(zones, f), g) == Lowered(zones, both)
  {
    var twice, once := Lowered(Lowered(zones, f), g), Lowered(zones, both);
    forall z | 0 <= z < |zones| ensures twice[z] == once[z] {
      assert twice[z].resources == once[z].resources;
    }
  }
}
