/**
  The network cost map of the network-overhead plugin: user-given cost lists are sorted and then
  searched by bisection, region first and zone second.
 */
module NetworkCosts {

  const REGION := "topology.kubernetes.io/region"
  const ZONE := "topology.kubernetes.io/zone"

  datatype CostInfo = CostInfo(destination: string, cost: int)

  /** A named list: the costs from an origin, or the origins of a topology key. */
  datatype Entry<X> = Entry(name: string, list: seq<X>)

  type OriginInfo = Entry<CostInfo>

  type TopologyInfo = Entry<OriginInfo>

  datatype Weight = Weight(name: string, topologies: seq<TopologyInfo>)

  datatype CostKey = CostKey(origin: string, destination: string)

  type CostMap = map<CostKey, int>

  // ----- the order of names

  predicate Less(a: string, b: string)
  {
    if b == [] then false
    else if a == [] then true
    else if a[0] != b[0] then a[0] < b[0]
    else Less(a[1..], b[1..])
  }

  /** Of two names exactly one is less, unless they are equal. */
  lemma {:induction false} LessTotal(a: string, b: string)
    ensures a == b || Less(a, b) || Less(b, a)
    ensures !(Less(a, b) && Less(b, a)) && !Less(a, a)
  {
    if a != [] && b != [] {
      LessTotal(a[1..], b[1..]);
      assert a == [a[0]] + a[1..] && b == [b[0]] + b[1..];
    }
    if a != [] {
      LessTotal(a[1..], a[1..]);
    }
  }

  lemma {:induction false} LessTransitive(a: string, b: string, c: string)
    requires Less(a, b) && Less(b, c)
    ensures Less(a, c)
  {
    if a != [] && a[0] == b[0] && b[0] == c[0] {
      LessTransitive(a[1..], b[1..], c[1..]);
    }
  }

  /** The order is transitive also on equals. */
  lemma NotLessTransitive(a: string, b: string, c: string)
    requires (a == b || !Less(b, a)) && !Less(c, b)
    ensures !Less(c, a)
  {
    LessTotal(a, b);
    LessTotal(b, c);
    LessTotal(a, c);
    if Less(c, a) && Less(a, b) {
      LessTransitive(c, a, b);
    }
  }

  // ----- named lists

  ghost predicate NamesSorted<X>(es: seq<Entry<X>>)
  {
    forall i, j :: 0 <= i < j < |es| ==> !Less(es[j].name, es[i].name)
  }

  ghost predicate NamesUnique<X>(es: seq<Entry<X>>)
  {
    forall i, j :: 0 <= i < |es| && 0 <= j < |es| && es[i].name == es[j].name ==> es[i] == es[j]
  }

  /** What a scan from the front finds. */
  function ListFor<X>(es: seq<Entry<X>>, name: string): seq<X>
  {
    if es == [] then [] else if es[0].name == name then es[0].list else ListFor(es[1..], name)
  }

  lemma {:induction false} ListForMember<X>(es: seq<Entry<X>>, e: Entry<X>)
    requires e in es && NamesUnique(es)
    ensures ListFor(es, e.name) == e.list
  {
    if es[0].name == e.name {
      var i :| 0 <= i < |es| && es[i] == e;
    } else {
      assert e in es[1..];
      ListForMember(es[1..], e);
    }
  }

  lemma {:induction false} ListForNone<X>(es: seq<Entry<X>>, name: string)
    requires forall i :: 0 <= i < |es| ==> es[i].name != name
    ensures ListFor(es, name) == []
  {
    if es != [] {
      ListForNone(es[1..], name);
    }
  }

  lemma InsertedSorted<X>(r: seq<Entry<X>>, e: Entry<X>, k: nat)
    requires NamesSorted(r) && k <= |r| && forall j :: k <= j < |r| ==> Less(e.name, r[j].name)
    requires k > 0 ==> !Less(e.name, r[k - 1].name)
    ensures NamesSorted(r[..k] + [e] + r[k..])
  {
    var s := r[..k] + [e] + r[k..];
    forall i, j | 0 <= i < j < |s| ensures !Less(s[j].name, s[i].name) {
      if i < k == j {
        NotLessTransitive(r[i].name, r[k - 1].name, e.name);
      } else if i == k {
        LessTotal(e.name, s[j].name);
      }
    }
  }

  method SortByName<X(==)>(es: seq<Entry<X>>) returns (r: seq<Entry<X>>)
    ensures NamesSorted(r) && multiset(r) == multiset(es)
  {
    r := [];
    for i := 0 to |es|
      invariant NamesSorted(r) && multiset(r) == multiset(es[..i])
    {
      var k := |r|;
      while k > 0 && Less(es[i].name, r[k - 1].name)
        invariant 0 <= k <= |r|
        invariant forall j :: k <= j < |r| ==> Less(es[i].name, r[j].name)
      {
        k := k - 1;
      }
      InsertedSorted(r, es[i], k);
      assert r == r[..k] + r[k..] && es[..i + 1] == es[..i] + [es[i]];
      r := r[..k] + [es[i]] + r[k..];
    }
    assert es[..|es|] == es;
  }

  /** `list` is the list of that name in `es`, or empty when there is none. */
  ghost predicate IsListFor<X>(es: seq<Entry<X>>, name: string, list: seq<X>)
  {
    (exists i :: 0 <= i < |es| && es[i].name == name && list == es[i].list)
    || (list == [] && forall i :: 0 <= i < |es| ==> es[i].name != name)
  }

  /** Bisection on sorted names. */
  method FindByName<X>(es: seq<Entry<X>>, name: string) returns (list: seq<X>)
    requires NamesSorted(es)
    ensures IsListFor(es, name, list)
  {
    var low, high := 0, |es| - 1;
    while low <= high
      invariant 0 <= low <= |es| && -1 <= high < |es|
      invariant forall i :: 0 <= i < low || high < i < |es| ==> es[i].name != name
      decreases high - low + 1
    {
      var mid := (low + high) / 2;
      LessTotal(es[mid].name, name);
      if es[mid].name == name {
        return es[mid].list;
      } else if Less(es[mid].name, name) {
        low := mid + 1;
      } else {
        high := mid - 1;
      }
    }
    return [];
  }

  /** With unique names, whatever order the entries are in, the list found is the one a scan finds. */
  lemma FoundIsScanned<X>(es: seq<Entry<X>>, given: seq<Entry<X>>, name: string, list: seq<X>)
    requires multiset(es) == multiset(given) && NamesUnique(given) && IsListFor(es, name, list)
    ensures list == ListFor(given, name)
  {
    if i :| 0 <= i < |es| && es[i].name == name && list == es[i].list {
      assert es[i] in multiset(es);
      assert es[i] in given;
      ListForMember(given, es[i]);
    } else {
      forall j | 0 <= j < |given| ensures given[j].name != name {
        assert given[j] in multiset(given);
        assert given[j] in es;
      }
      ListForNone(given, name);
    }
  }

  // ----- the cost map

  /** The map with the costs from one origin entered, later entries over earlier ones. */
  function Entered(m: CostMap, origin: string, costs: seq<CostInfo>): CostMap
  {
    if costs == [] then m else
      var c := costs[|costs| - 1];
      Entered(m, origin, costs[..|costs| - 1])[CostKey(origin, c.destination) := c.cost]
  }

  ghost predicate IsLastTo(costs: seq<CostInfo>, i: int)
    requires 0 <= i < |costs|
  {
    forall j :: i < j < |costs| ==> costs[j].destination != costs[i].destination
  }

  /** The cost entered for a destination is the one listed for it last. */
  lemma {:induction false} EnteredIsListed(m: CostMap, origin: string, costs: seq<CostInfo>, i: nat)
    requires i < |costs| && IsLastTo(costs, i)
    ensures CostKey(origin, costs[i].destination) in Entered(m, origin, costs)
    ensures Entered(m, origin, costs)[CostKey(origin, costs[i].destination)] == costs[i].cost
  {
    if i < |costs| - 1 {
      EnteredIsListed(m, origin, costs[..|costs| - 1], i);
    }
  }

  /** Nothing else is entered. */
  lemma {:induction false} NotEntered(m: CostMap, origin: string, costs: seq<CostInfo>, k: CostKey)
    requires k.origin != origin || forall i :: 0 <= i < |costs| ==> costs[i].destination != k.destination
    ensures k in Entered(m, origin, costs) <==> k in m
    ensures k in m ==> Entered(m, origin, costs)[k] == m[k]
  {
    if costs != [] {
      NotEntered(m, origin, costs[..|costs| - 1], k);
    }
  }

  /** What a scan of the given lists enters for a place; a node without the label has no place. */
  function EnteredFor(m: CostMap, ts: seq<TopologyInfo>, key: string, place: string): CostMap
  {
    if place == "" then m else Entered(m, place, ListFor(ListFor(ts, key), place))
  }

  /** The map a scan of the given lists builds: region costs, then zone costs over them, weight by weight. */
  function Scanned(m: CostMap, weights: seq<Weight>, name: string, region: string, zone: string): CostMap
  {
    if weights == [] then m else
      var rest, w := Scanned(m, weights[..|weights| - 1], name, region, zone), weights[|weights| - 1];
      if w.name != name then rest
      else EnteredFor(EnteredFor(rest, w.topologies, REGION, region), w.topologies, ZONE, zone)
  }

  /** The cost to a destination that the zone lists last, in the last weight of the name, is in the map. */
  lemma {:induction false} ScannedZoneCost(
    m: CostMap, weights: seq<Weight>, name: string, region: string, zone: string, w: nat, i: nat)
    requires w < |weights| && weights[w].name == name && forall j :: w < j < |weights| ==> weights[j].name != name
    requires zone != "" && i < |ListFor(ListFor(weights[w].topologies, "topology.kubernetes.io/zone"), zone)|
    requires IsLastTo(ListFor(ListFor(weights[w].topologies, "topology.kubernetes.io/zone"), zone), i)
    ensures var c := ListFor(ListFor(weights[w].topologies, "topology.kubernetes.io/zone"), zone)[i];
      && CostKey(zone, c.destination) in Scanned(m, weights, name, region, zone)
      && Scanned(m, weights, name, region, zone)[CostKey(zone, c.destination)] == c.cost
  {
    var costs := ListFor(ListFor(weights[w].topologies, ZONE), zone);
    var rest := Scanned(m, weights[..|weights| - 1], name, region, zone);
    if w == |weights| - 1 {
      EnteredIsListed(EnteredFor(rest, weights[w].topologies, REGION, region), zone, costs, i);
    } else {
      ScannedZoneCost(m, weights[..|weights| - 1], name, region, zone, w, i);
    }
  }

  /** And so is the cost the region lists last, when the place is not a zone as well. */
  lemma {:induction false} ScannedRegionCost(
    m: CostMap, weights: seq<Weight>, name: string, region: string, zone: string, w: nat, i: nat)
    requires w < |weights| && weights[w].name == name && forall j :: w < j < |weights| ==> weights[j].name != name
    requires region != "" && region != zone
    requires i < |ListFor(ListFor(weights[w].topologies, "topology.kubernetes.io/region"), region)|
    requires IsLastTo(ListFor(ListFor(weights[w].topologies, "topology.kubernetes.io/region"), region), i)
    ensures var c := ListFor(ListFor(weights[w].topologies, "topology.kubernetes.io/region"), region)[i];
      && CostKey(region, c.destination) in Scanned(m, weights, name, region, zone)
      && Scanned(m, weights, name, region, zone)[CostKey(region, c.destination)] == c.cost
  {
    var costs := ListFor(ListFor(weights[w].topologies, REGION), region);
    var rest := Scanned(m, weights[..|weights| - 1], name, region, zone);
    if w == |weights| - 1 {
      EnteredIsListed(rest, region, costs, i);
      NotEntered(Entered(rest, region, costs), zone, ListFor(ListFor(weights[w].topologies, ZONE), zone),
                 CostKey(region, costs[i].destination));
    } else {
      ScannedRegionCost(m, weights[..|weights| - 1], name, region, zone, w, i);
    }
  }

  /** Topology keys and origins are given once each. */
  ghost predicate WellFormed(ts: seq<TopologyInfo>)
  {
    NamesUnique(ts) && forall i :: 0 <= i < |ts| ==> NamesUnique(ts[i].list)
  }

  lemma FoundAreUnique(ts: seq<TopologyInfo>, given: seq<TopologyInfo>, key: string, origins: seq<OriginInfo>)
    requires multiset(ts) == multiset(given) && WellFormed(given) && IsListFor(ts, key, origins)
    ensures NamesUnique(origins)
  {
    if i :| 0 <= i < |ts| && ts[i].name == key && origins == ts[i].list {
      assert ts[i] in multiset(ts);
      assert ts[i] in given;
    }
  }

  /** Sorting and bisecting finds the costs a scan of the unsorted lists finds. */
  method CostsOf(ts: seq<TopologyInfo>, ghost given: seq<TopologyInfo>, key: string,
      place: string) returns (costs: seq<CostInfo>)
    requires NamesSorted(ts) && multiset(ts) == multiset(given) && WellFormed(given)
    ensures costs == ListFor(ListFor(given, key), place)
  {
    var origins := FindByName(ts, key);
    FoundIsScanned(ts, given, key, origins);
    FoundAreUnique(ts, given, key, origins);
    var sorted := SortByName(origins);
    costs := FindByName(sorted, place);
    FoundIsScanned(sorted, origins, place, costs);
  }

  method EnterCosts(m: CostMap, origin: string, costs: seq<CostInfo>) returns (r: CostMap)
    ensures r == Entered(m, origin, costs)
  {
    r := m;
    for i := 0 to |costs|
      invariant r == Entered(m, origin, costs[..i])
    {
      assert costs[..i + 1][..i] == costs[..i];
      r := r[CostKey(origin, costs[i].destination) := costs[i].cost];
    }
    assert costs[..|costs|] == costs;
  }

  /** Sorts every topology list, then fills the map for a node's region and zone. */
  method BuildCostMap(m: CostMap, weights: seq<Weight>, name: string, region: string, zone: string) returns (r: CostMap)
    requires forall i :: 0 <= i < |weights| ==> WellFormed(weights[i].topologies)
    ensures r == Scanned(m, weights, name, region, zone)
  {
    r := m;
    for i := 0 to |weights|
      invariant r == Scanned(m, weights[..i], name, region, zone)
    {
      assert weights[..i + 1][..i] == weights[..i];
      var given := weights[i].topologies;
      var sorted := SortByName(given);
      if weights[i].name != name {
        continue;
      }
      if region != "" {
        var costs := CostsOf(sorted, given, REGION, region);
        r := EnterCosts(r, region, costs);
      }
      if zone != "" {
        var costs := CostsOf(sorted, given, ZONE, zone);
        r := EnterCosts(r, zone, costs);
      }
    }
    assert weights[..|weights|] == weights;
  }

  /** Entering overrides exactly the entries of that origin that the costs name. */
  lemma {:induction false} EnteredOverrides(a: CostMap, b: CostMap, origin: string, costs: seq<CostInfo>, k: CostKey)
    ensures k.origin == origin && (exists i :: 0 <= i < |costs| && costs[i].destination == k.destination) ==>
              && k in Entered(a, origin, costs) && k in Entered(b, origin, costs)
              && Entered(a, origin, costs)[k] == Entered(b, origin, costs)[k]
    ensures !(k.origin == origin && exists i :: 0 <= i < |costs| && costs[i].destination == k.destination) ==>
              (k in Entered(a, origin, costs) <==> k in a) && (k in a ==> Entered(a, origin, costs)[k] == a[k])
  {
    if costs != [] {
      EnteredOverrides(a, b, origin, costs[..|costs| - 1], k);
    }
  }

  /** Zone costs win: for a destination the zone lists, the region's costs make no difference. */
  lemma ZoneOverridesRegion(m: CostMap, ts: seq<TopologyInfo>, region: string, zone: string, destination: string)
    requires zone != "" && exists i :: 0 <= i < |ListFor(ListFor(ts, ZONE), zone)|
                                     && ListFor(ListFor(ts, ZONE), zone)[i].destination == destination
    ensures var k := CostKey(zone, destination);
      var both := EnteredFor(EnteredFor(m, ts, REGION, region), ts, ZONE, zone);
      var zoneOnly := EnteredFor(m, ts, ZONE, zone);
      k in both && k in zoneOnly && both[k] == zoneOnly[k]
  {
    EnteredOverrides(EnteredFor(m, ts, REGION, region), m, zone, ListFor(ListFor(ts, ZONE), zone),
        CostKey(zone, destination));
  }
}
