/**
  The OverReserve cache as a value: what each of its lock-protected methods does to the
  cached state, and what a query answers.
 */
module OverReserveModel {
  import opened NodeTopology
  import opened Sums

  /** Requests tracked since the last flush of a node, by pod key. */
  type Tracked = map<string, ResourceList>

  datatype Cache = Cache(
    generation: nat,
    nrts: map<string, seq<Zone>>,
    assumed: map<string, Tracked>,
    maybeOverreserved: map<string, nat>,
    foreign: map<string, nat>,
    attrUpdate: map<string, nat>)

  datatype Answer = Answer(isFresh: bool, generation: nat, zones: Option<seq<Zone>>)

  /** The new NRT of one node, as handed to a flush. */
  datatype Update = Update(node: string, zones: seq<Zone>)

  /** How much of resource `name` each tracked pod asks for. */
  ghost function Wanted(data: Tracked, name: string): string -> int
  {
    k => if k in data then Quantity(data[k], name) else 0
  }

  ghost function Demand(data: Tracked, name: string): (d: int)
    ensures 0 <= d
  {
    SumNonNegative(data.Keys, Wanted(data, name));
    Sum(data.Keys, Wanted(data, name))
  }

  ghost function DemandOf(data: Tracked): string -> int
  {
    r => Demand(data, r)
  }

  /** The pessimistic view: the whole tracked demand taken out of every zone. */
  ghost function Pessimistic(zones: seq<Zone>, data: Tracked): seq<Zone>
  {
    Lowered(zones, DemandOf(data))
  }

  function Count(c: map<string, nat>, key: string): nat
  {
    if key in c then c[key] else 0
  }

  function Incremented(c: map<string, nat>, key: string): map<string, nat>
  {
    c[key := Count(c, key) + 1]
  }

  function TrackedOn(c: Cache, node: string): Tracked
  {
    if node in c.assumed then c.assumed[node] else map[]
  }

  ghost function Query(c: Cache, node: string): Answer
  {
    if node in c.foreign then Answer(false, c.generation, None)
    else if node !in c.nrts then Answer(true, c.generation, None)
    else Answer(true, c.generation, Some(Pessimistic(c.nrts[node], TrackedOn(c, node))))
  }

  function Reserve(c: Cache, node: string, key: string, request: ResourceList): Cache
  {
    c.(assumed := c.assumed[node := TrackedOn(c, node)[key := request]],
       maybeOverreserved := c.maybeOverreserved - {node})
  }

  function Unreserve(c: Cache, node: string, key: string): Cache
  {
    if node !in c.assumed then c else c.(assumed := c.assumed[node := c.assumed[node] - {key}])
  }

  function MarkDiscarded(c: Cache, node: string): Cache
  {
    c.(maybeOverreserved := Incremented(c.maybeOverreserved, node))
  }

  function MarkForeign(c: Cache, node: string): Cache
  {
    if node !in c.nrts then c else c.(foreign := Incremented(c.foreign, node))
  }

  function MarkAttributes(c: Cache, node: string): Cache
  {
    c.(attrUpdate := Incremented(c.attrUpdate, node))
  }

  function FlushOne(c: Cache, u: Update): Cache
  {
    c.(nrts := c.nrts[u.node := u.zones],
       assumed := c.assumed - {u.node},
       maybeOverreserved := c.maybeOverreserved - {u.node},
       foreign := c.foreign - {u.node},
       attrUpdate := c.attrUpdate - {u.node})
  }

  function FlushAll(c: Cache, us: seq<Update>): Cache
  {
    if us == [] then c else FlushOne(FlushAll(c, us[..|us| - 1]), us[|us| - 1])
  }

  function Flush(c: Cache, us: seq<Update>): Cache
  {
    if us == [] then c else FlushAll(c, us).(generation := c.generation + 1)
  }

  /** With nothing tracked, the view is the cached NRT itself. */
  lemma PessimisticOfNothing(zones: seq<Zone>)
    ensures Pessimistic(zones, map[]) == zones
  {
    var v := Pessimistic(zones, map[]);
    forall z | 0 <= z < |zones| ensures v[z] == zones[z] {
      forall i | 0 <= i < |zones[z].resources| ensures v[z].resources[i] == zones[z].resources[i] {
        assert Demand(map[], zones[z].resources[i].name) == 0;
      }
      assert v[z].resources == zones[z].resources;
    }
  }

  /**
    `after` is `before` with what all tracked pods ask for of a resource gone from each entry, as far
    as there was any; zones, names and order are kept.
   */
  ghost predicate TakenOut(before: seq<Zone>, after: seq<Zone>, data: Tracked)
  {
    && |after| == |before|
    && (forall z :: 0 <= z < |before| ==> SameShape(before[z], after[z]))
    && forall z, i :: 0 <= z < |before| && 0 <= i < |before[z].resources| ==>
         var was, left := before[z].resources[i], after[z].resources[i].available;
         var asked := Sum(data.Keys, k => if k in data && was.name in data[k] then data[k][was.name] else 0);
         left == if asked <= was.available then was.available - asked else 0
  }

  lemma PessimisticTakesOut(zones: seq<Zone>, data: Tracked)
    ensures TakenOut(zones, Pessimistic(zones, data), data)
  {
    forall z, i | 0 <= z < |zones| && 0 <= i < |zones[z].resources| {
      PessimisticEntry(zones, data, z, i);
    }
  }

  lemma PessimisticIsLowered(zones: seq<Zone>, data: Tracked)
    ensures Pessimistic(zones, data) == Lowered(zones, DemandOf(data))
  {
  }

  /** Entry by entry: what all tracked pods ask for of the resource is gone, as far as there was any. */
  lemma PessimisticEntry(zones: seq<Zone>, data: Tracked, z: nat, i: nat)
    requires z < |zones| && i < |zones[z].resources|
    ensures var asked := Sum(data.Keys, k => if k in data && zones[z].resources[i].name in data[k]
                                             then data[k][zones[z].resources[i].name] else 0);
      var left := if asked <= zones[z].resources[i].available then zones[z].resources[i].available - asked else 0;
      Pessimistic(zones, data)[z].resources[i] == ResourceInfo(zones[z].resources[i].name, left)
  {
    var r := zones[z].resources[i].name;
    SumSame(data.Keys, Wanted(data, r), k => if k in data && r in data[k] then data[k][r] else 0);
  }

  lemma DemandWithOneMore(data: Tracked, key: string, request: ResourceList, r: string)
    requires key !in data
    ensures Demand(data[key := request], r) == Demand(data, r) + Quantity(request, r)
  {
    var more := data[key := request];
    SumTake(more.Keys, key, Wanted(more, r));
    assert more.Keys - {key} == data.Keys;
    SumSame(data.Keys, Wanted(data, r), Wanted(more, r));
  }

  /** Reserving a pod that is not tracked lowers every entry of the answer by its request, or by all that is shown. */
  lemma ReserveLowersAnswer(c: Cache, node: string, key: string, request: ResourceList, z: nat, i: nat)
    requires key !in TrackedOn(c, node) && Query(c, node).zones.Some?
    requires z < |Query(c, node).zones.value| && i < |Query(c, node).zones.value[z].resources|
    ensures var after := Query(Reserve(c, node, key, request), node);
      && after.isFresh && after.zones.Some? && |after.zones.value| == |Query(c, node).zones.value|
      && |after.zones.value[z].resources| == |Query(c, node).zones.value[z].resources|
      && var shown, left := Query(c, node).zones.value[z].resources[i], after.zones.value[z].resources[i];
         var asked := if shown.name in request then request[shown.name] else 0;
         left.name == shown.name
         && left.available == if asked <= shown.available then shown.available - asked else 0
  {
    DemandWithOneMore(TrackedOn(c, node), key, request, c.nrts[node][z].resources[i].name);
  }

  /** And unreserving it restores the answer. */
  lemma UnreserveRestoresAnswer(c: Cache, node: string, key: string, request: ResourceList)
    requires key !in TrackedOn(c, node)
    ensures Query(Unreserve(Reserve(c, node, key, request), node, key), node) == Query(c, node)
  {
    assert TrackedOn(c, node)[key := request] - {key} == TrackedOn(c, node);
  }

  lemma FlushKeepsGeneration(c: Cache, us: seq<Update>)
    ensures FlushAll(c, us).generation == c.generation
  {
  }

  ghost predicate Names(us: seq<Update>, n: string)
  {
    exists i :: 0 <= i < |us| && us[i].node == n
  }

  /** After a flush a node holds the last NRT handed in for it and nothing else; other nodes are untouched. */
  lemma {:induction false} FlushOnNode(c: Cache, us: seq<Update>, n: string) returns (last: int)
    ensures var c' := FlushAll(c, us);
      if Names(us, n) then
        && 0 <= last < |us| && us[last].node == n
        && (forall i :: last < i < |us| ==> us[i].node != n)
        && n in c'.nrts && c'.nrts[n] == us[last].zones && n !in c'.assumed && n !in c'.foreign
        && n !in c'.maybeOverreserved && n !in c'.attrUpdate
      else
        && (n in c'.nrts <==> n in c.nrts) && (n in c.nrts ==> c'.nrts[n] == c.nrts[n])
        && Count(c'.foreign, n) == Count(c.foreign, n) && (n in c'.foreign <==> n in c.foreign)
        && Count(c'.maybeOverreserved, n) == Count(c.maybeOverreserved, n)
        && (n in c'.maybeOverreserved <==> n in c.maybeOverreserved)
        && Count(c'.attrUpdate, n) == Count(c.attrUpdate, n) && (n in c'.attrUpdate <==> n in c.attrUpdate)
        && TrackedOn(c', n) == TrackedOn(c, n)
  {
    last := 0;
    if us != [] {
      last := FlushOnNode(c, us[..|us| - 1], n);
      if us[|us| - 1].node == n {
        last := |us| - 1;
      }
    }
  }

  // ----- resync

  /** What other threads may do to the cache while a resync is not holding its lock. */
  datatype Call =
    | Reserving(node: string, key: string, request: ResourceList)
    | Unreserving(node: string, key: string)
    | MarkingForeign(node: string)
    | MarkingDiscarded(node: string)
    | UpdatingAttributes(node: string)

  function CallStep(c: Cache, call: Call): Cache
  {
    match call
    case Reserving(n, k, request) => Reserve(c, n, k, request)
    case Unreserving(n, k) => Unreserve(c, n, k)
    case MarkingForeign(n) => MarkForeign(c, n)
    case MarkingDiscarded(n) => MarkDiscarded(c, n)
    case UpdatingAttributes(n) => MarkAttributes(c, n)
  }

  function AfterCalls(c: Cache, calls: seq<Call>): Cache
  {
    if calls == [] then c else CallStep(AfterCalls(c, calls[..|calls| - 1]), calls[|calls| - 1])
  }

  /** An NRT read from the API server, with its pod fingerprint, empty when it carries none. */
  datatype Fetched = Fetched(zones: seq<Zone>, fingerprint: string)

  /** What a resync sees: the NRTs it can read, the pods listed per node, and whether a fingerprint is theirs. */
  datatype Sources = Sources(
    fetch: string -> Option<Fetched>, podsOn: map<string, seq<string>>, matches: (seq<string>, string) -> bool)

  /** A dirty node is refreshed only when the fingerprint of its NRT is that of the pods listed on it. */
  predicate IsResynced(s: Sources, n: string)
  {
    && s.fetch(n).Some? && n in s.podsOn && s.fetch(n).value.fingerprint != ""
    && s.matches(s.podsOn[n], s.fetch(n).value.fingerprint)
  }

  /** A node whose attributes changed is refreshed whenever its NRT can be read. */
  ghost predicate IsRefreshed(c: Cache, s: Sources, n: string)
  {
    || ((n in c.foreign || n in c.maybeOverreserved) && IsResynced(s, n))
    || (n in c.attrUpdate && s.fetch(n).Some?)
  }

  /** One node after a resync that found `c` and flushed `mid`. */
  ghost predicate NodeAfterResync(c: Cache, s: Sources, mid: Cache, c': Cache, n: string)
  {
    if IsRefreshed(c, s, n) then
      Query(c', n) == Answer(true, c'.generation, Some(s.fetch(n).value.zones)) && TrackedOn(c', n) == map[]
    else
      Query(c', n) == Query(mid, n).(generation := c'.generation) && TrackedOn(c', n) == TrackedOn(mid, n)
  }

  /**
    The cache after a resync, node by node. The nodes to refresh are those desynced in `c`, the
    cache when the resync began; all else is as in `mid`, the cache when it came to flush.
   */
  ghost predicate AfterResync(c: Cache, s: Sources, mid: Cache, c': Cache)
  {
    && c'.generation == mid.generation + (if exists n :: IsRefreshed(c, s, n) then 1 else 0)
    && forall n :: NodeAfterResync(c, s, mid, c', n)
  }

  /** The updates a resync collects: all the refreshed nodes and no others, with the NRTs it read. */
  ghost predicate AreUpdates(c: Cache, s: Sources, us: seq<Update>)
  {
    && (forall i :: 0 <= i < |us| ==> IsRefreshed(c, s, us[i].node) && us[i].zones == s.fetch(us[i].node).value.zones)
    && forall n :: IsRefreshed(c, s, n) ==> Names(us, n)
  }

  /** Flushing what was collected from `c` into whatever the cache has become meanwhile. */
  lemma ResyncByNode(c: Cache, s: Sources, us: seq<Update>, mid: Cache)
    requires AreUpdates(c, s, us)
    ensures AfterResync(c, s, mid, Flush(mid, us))
  {
    var c' := Flush(mid, us);
    FlushKeepsGeneration(mid, us);
    assert us != [] ==> IsRefreshed(c, s, us[0].node);
    forall n ensures NodeAfterResync(c, s, mid, c', n) {
      var last := FlushOnNode(mid, us, n);
      if IsRefreshed(c, s, n) {
        PessimisticOfNothing(us[last].zones);
      }
    }
  }
}
