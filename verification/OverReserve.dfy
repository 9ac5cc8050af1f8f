/**
  The OverReserve cache and its stores as mutable objects. Each method is one critical
  section of the plugin and is tied to the corresponding function of OverReserveModel.
 */
module OverReserve {
  import opened NodeTopology
  import opened Sums
  import M = OverReserveModel

  /** A copy of an NRT, owned by the caller that asked for it. */
  class Topology {
    var zones: seq<Zone>

    constructor (zones: seq<Zone>)
      ensures this.zones == zones
    {
      this.zones := zones;
    }
  }

  /** Requests of the pods tracked on one node. */
  class ResourceStore {
    var data: M.Tracked

    constructor ()
      ensures data == map[]
    {
      data := map[];
    }

    method AddPod(key: string, request: ResourceList) returns (existed: bool)
      modifies this
      ensures data == old(data)[key := request]
      ensures existed <==> key in old(data)
    {
      existed := key in data;
      data := data[key := request];
    }

    method DeletePod(key: string) returns (existed: bool)
      modifies this
      ensures data == old(data) - {key}
      ensures existed <==> key in old(data)
    {
      existed := key in data;
      data := data - {key};
    }

    /** One zone, entry by entry. */
    method DecrementZone(zone: Zone, request: ResourceList) returns (lowered: Zone)
      ensures lowered == zone.(resources := LoweredEntries(zone.resources, r => Quantity(request, r)))
    {
      ghost var take := r => Quantity(request, r);
      var entries := zone.resources;
      for ri := 0 to |entries|
        invariant |entries| == |zone.resources|
        invariant forall i :: 0 <= i < ri ==> entries[i] == LoweredEntry(zone.resources[i], take)
        invariant forall i :: ri <= i < |entries| ==> entries[i] == zone.resources[i]
      {
        var zr := entries[ri];
        if zr.name in request {
          var qty := request[zr.name];
          var left := if zr.available < qty then 0 else zr.available - qty;
          entries := entries[ri := zr.(available := left)];
        }
      }
      assert entries == LoweredEntries(zone.resources, take);
      return zone.(resources := entries);
    }

    /** Takes one pod's request out of every zone that reports the resource. */
    method Decrement(nrt: Topology, request: ResourceList)
      modifies nrt
      ensures nrt.zones == Lowered(old(nrt.zones), r => Quantity(request, r))
    {
      ghost var take := (r: string) => Quantity(request, r) as int;
      ghost var before := nrt.zones;
      var zi := 0;
      while zi < |nrt.zones|
        invariant zi <= |nrt.zones| == |before|
        invariant nrt.zones[..zi] == Lowered(before, take)[..zi]
        invariant nrt.zones[zi..] == before[zi..]
      {
        assert nrt.zones[zi] == before[zi];
        var zone := DecrementZone(nrt.zones[zi], request);
        assert zone == Lowered(before, take)[zi];
        nrt.zones := nrt.zones[zi := zone];
        zi := zi + 1;
      }
      assert nrt.zones == Lowered(before, take);
    }

    /** Takes every tracked request out of every zone; the pods come in map order, so any order. */
    method UpdateNRT(nrt: Topology)
      modifies nrt
      ensures nrt.zones == M.Pessimistic(old(nrt.zones), data)
      ensures M.TakenOut(old(nrt.zones), nrt.zones, data)
    {
      hide M.TakenOut, M.Pessimistic;
      var left := data.Keys;
      ghost var before := nrt.zones;
      ghost var seen: set<string> := {};
      SubtractedNothing(before, data);
      while left != {}
        invariant left + seen == data.Keys && left !! seen
        invariant nrt.zones == Lowered(before, SeenDemand(seen, data))
        decreases left
      {
        var key :| key in left;
        Decrement(nrt, data[key]);
        SubtractedOneMore(before, data, seen, key);
        left, seen := left - {key}, seen + {key};
      }
      assert seen == data.Keys;
      LoweredSame(before, SeenDemand(seen, data), M.DemandOf(data));
      M.PessimisticIsLowered(before, data);
      M.PessimisticTakesOut(before, data);
    }
  }

  ghost function SeenDemand(seen: set<string>, data: M.Tracked): string -> int
  {
    r => Sum(seen, M.Wanted(data, r))
  }

  lemma LoweredSame(zones: seq<Zone>, f: string -> int, g: string -> int)
    requires forall r :: f(r) == g(r)
    ensures Lowered(zones, f) == Lowered(zones, g)
  {
    forall z | 0 <= z < |zones| ensures Lowered(zones, f)[z] == Lowered(zones, g)[z] {
      assert LoweredEntries(zones[z].resources, f) == LoweredEntries(zones[z].resources, g);
    }
  }

  lemma SubtractedNothing(zones: seq<Zone>, data: M.Tracked)
    ensures Lowered(zones, SeenDemand({}, data)) == zones
  {
    M.PessimisticOfNothing(zones);
    LoweredSame(zones, SeenDemand({}, data), M.DemandOf(map[]));
  }

  lemma SubtractedOneMore(zones: seq<Zone>, data: M.Tracked, seen: set<string>, key: string)
    requires key in data && key !in seen
    ensures Lowered(Lowered(zones, SeenDemand(seen, data)), r => Quantity(data[key], r))
         == Lowered(zones, SeenDemand(seen + {key}, data))
  {
    forall r ensures 0 <= SeenDemand(seen, data)(r)
                  && SeenDemand(seen + {key}, data)(r) == SeenDemand(seen, data)(r) + Quantity(data[key], r) {
      SumNonNegative(seen, M.Wanted(data, r));
      SumTake(seen + {key}, key, M.Wanted(data, r));
      assert seen + {key} - {key} == seen;
    }
    LoweredTwice(zones, SeenDemand(seen, data), r => Quantity(data[key], r), SeenDemand(seen + {key}, data));
  }

  class OverReserve {
    var generation: nat
    var nrts: map<string, seq<Zone>>
    var assumed: map<string, ResourceStore>
    var maybeOverreserved: map<string, nat>
    var foreign: map<string, nat>
    var attrUpdate: map<string, nat>

    /** No two nodes share a store. */
    ghost predicate Valid()
      reads this
    {
      forall a, b :: a in assumed && b in assumed && a != b ==> assumed[a] != assumed[b]
    }

    ghost function State(): M.Cache
      reads this, assumed.Values
    {
      M.Cache(generation, nrts, map n | n in assumed :: assumed[n].data, maybeOverreserved, foreign, attrUpdate)
    }

    constructor (listed: map<string, seq<Zone>>)
      ensures Valid()
      ensures State() == M.Cache(0, listed, map[], map[], map[], map[])
    {
      generation, nrts, assumed := 0, listed, map[];
      maybeOverreserved, foreign, attrUpdate := map[], map[], map[];
    }

    method GetCachedNRTCopy(node: string) returns (nrt: Topology?, isFresh: bool, gen: nat)
      requires Valid()
      ensures nrt != null ==> old(!allocated(nrt))
      ensures M.Query(State(), node)
           == M.Answer(isFresh, gen, if nrt == null then None else Some(nrt.zones))
      ensures gen == generation && (isFresh <==> node !in foreign)
      ensures nrt == null <==> node in foreign || node !in nrts
      ensures nrt != null ==> M.TakenOut(nrts[node], nrt.zones, if node in assumed then assumed[node].data else map[])
    {
      hide M.TakenOut, M.Pessimistic;
      gen := generation;
      if node in foreign {
        return null, false, gen;
      }
      isFresh := true;
      if node !in nrts {
        return null, isFresh, gen;
      }
      nrt := new Topology(nrts[node]);
      if node !in assumed {
        M.PessimisticOfNothing(nrts[node]);
        M.PessimisticTakesOut(nrts[node], map[]);
        return nrt, isFresh, gen;
      }
      assumed[node].UpdateNRT(nrt);
    }

    method NodeMaybeOverReserved(node: string)
      requires Valid()
      modifies this`maybeOverreserved
      ensures Valid() && State() == M.MarkDiscarded(old(State()), node)
      ensures var n := if node in old(maybeOverreserved) then old(maybeOverreserved)[node] else 0;
        maybeOverreserved == old(maybeOverreserved)[node := n + 1]
    {
      maybeOverreserved := M.Incremented(maybeOverreserved, node);
    }

    method NodeHasForeignPods(node: string)
      requires Valid()
      modifies this`foreign
      ensures Valid() && State() == M.MarkForeign(old(State()), node)
      ensures var n := if node in old(foreign) then old(foreign)[node] else 0;
        foreign == if node in nrts then old(foreign)[node := n + 1] else old(foreign)
    {
      if node !in nrts {
        return;
      }
      foreign := M.Incremented(foreign, node);
    }

    /** A node tracked for the first time gets a store of its own. */
    method EnsureStore(node: string)
      requires Valid()
      modifies this`assumed
      ensures Valid() && node in assumed
      ensures State() == old(State()).(assumed := old(State()).assumed[node := M.TrackedOn(old(State()), node)])
      ensures assumed.Keys == old(assumed).Keys + {node}
      ensures forall n :: n in old(assumed) ==> assumed[n] == old(assumed)[n]
      ensures node !in old(assumed) ==> fresh(assumed[node]) && assumed[node].data == map[]
    {
      if node !in assumed {
        var store := new ResourceStore();
        assumed := assumed[node := store];
      }
      assert State().assumed == old(State()).assumed[node := M.TrackedOn(old(State()), node)];
    }

    method TrackPod(node: string, key: string, request: ResourceList)
      requires Valid() && node in assumed
      modifies assumed[node]
      ensures var c := old(State());
        State() == c.(assumed := c.assumed[node := c.assumed[node][key := request]])
      ensures assumed[node].data == old(assumed[node].data)[key := request]
    {
      var _ := assumed[node].AddPod(key, request);
      assert State().assumed == old(State()).assumed[node := old(State()).assumed[node][key := request]];
    }

    method ResetDiscards(node: string)
      modifies this`maybeOverreserved
      ensures State() == old(State()).(maybeOverreserved := old(State()).maybeOverreserved - {node})
      ensures maybeOverreserved == old(maybeOverreserved) - {node}
    {
      maybeOverreserved := maybeOverreserved - {node};
    }

    method ReserveNodeResources(node: string, key: string, request: ResourceList)
      requires Valid()
      modifies this, assumed.Values
      ensures Valid() && State() == M.Reserve(old(State()), node, key, request)
      ensures var before: M.Tracked := if node in old(assumed) then old(assumed[node].data) else map[];
        node in assumed && assumed[node].data == before[key := request]
      ensures forall n :: n != node ==>
                (n in assumed <==> n in old(assumed)) && (n in assumed ==> assumed[n].data == old(assumed[n].data))
      ensures maybeOverreserved == old(maybeOverreserved) - {node}
      ensures nrts == old(nrts) && foreign == old(foreign) && attrUpdate == old(attrUpdate)
      ensures generation == old(generation)
      ensures forall n :: n in assumed ==> fresh(assumed[n]) || assumed[n] in old(assumed.Values)
    {
      hide State;
      EnsureStore(node);
      TrackPod(node, key, request);
      ResetDiscards(node);
    }

    method UnreserveNodeResources(node: string, key: string)
      requires Valid()
      modifies assumed.Values
      ensures Valid() && State() == M.Unreserve(old(State()), node, key)
      ensures forall n :: n in assumed ==>
                assumed[n].data == if n == node then old(assumed[n].data) - {key} else old(assumed[n].data)
    {
      if node !in assumed {
        return;
      }
      var _ := assumed[node].DeletePod(key);
      assert State().assumed == M.Unreserve(old(State()), node, key).assumed;
    }

    /** Drops everything cached about one node and installs its new NRT. */
    method FlushNode(u: M.Update)
      requires Valid()
      modifies this
      ensures Valid() && State() == M.FlushOne(old(State()), u)
    {
      nrts := nrts[u.node := u.zones];
      assumed := assumed - {u.node};
      maybeOverreserved := maybeOverreserved - {u.node};
      foreign := foreign - {u.node};
      attrUpdate := attrUpdate - {u.node};
      assert State().assumed == M.FlushOne(old(State()), u).assumed;
    }

    method FlushNodes(updates: seq<M.Update>) returns (gen: nat)
      requires Valid()
      modifies this
      ensures Valid() && State() == M.Flush(old(State()), updates)
      ensures gen == generation
    {
      var i := 0;
      while i < |updates|
        invariant i <= |updates| && Valid()
        invariant State() == M.FlushAll(old(State()), updates[..i])
      {
        FlushNode(updates[i]);
        assert updates[..i + 1][..i] == updates[..i];
        i := i + 1;
      }
      assert updates[..|updates|] == updates;
      if |updates| == 0 {
        return generation;
      }
      M.FlushKeepsGeneration(old(State()), updates);
      generation := generation + 1;
      return generation;
    }

    /** The dirty nodes, foreign or discarded before, and those whose attributes changed. */
    method GetDesyncedNodes() returns (dirty: set<string>, changed: set<string>)
      ensures dirty == foreign.Keys + maybeOverreserved.Keys && changed == attrUpdate.Keys
    {
      var nodes := foreign;
      var left := maybeOverreserved.Keys;
      while left != {}
        invariant left <= maybeOverreserved.Keys
        invariant nodes.Keys == foreign.Keys + (maybeOverreserved.Keys - left)
        decreases left
      {
        var n :| n in left;
        left := left - {n};
        nodes := M.Incremented(nodes, n);
      }
      return nodes.Keys, attrUpdate.Keys;
    }

    /** What the attribute watcher does when an NRT changes its attributes. */
    method NodeAttributesChanged(node: string)
      requires Valid()
      modifies this`attrUpdate
      ensures Valid() && State() == M.MarkAttributes(old(State()), node)
    {
      attrUpdate := M.Incremented(attrUpdate, node);
    }

    method Perform(call: M.Call)
      requires Valid()
      modifies this, assumed.Values
      ensures Valid() && State() == M.CallStep(old(State()), call)
      ensures forall n :: n in assumed ==> fresh(assumed[n]) || assumed[n] in old(assumed.Values)
    {
      hide State;
      match call {
        case Reserving(n, k, request) => ReserveNodeResources(n, k, request);
        case Unreserving(n, k) => UnreserveNodeResources(n, k);
        case MarkingForeign(n) => NodeHasForeignPods(n);
        case MarkingDiscarded(n) => NodeMaybeOverReserved(n);
        case UpdatingAttributes(n) => NodeAttributesChanged(n);
      }
    }

    method PerformAll(calls: seq<M.Call>)
      requires Valid()
      modifies this, assumed.Values
      ensures Valid() && State() == M.AfterCalls(old(State()), calls)
    {
      hide State;
      for i := 0 to |calls|
        invariant Valid() && State() == M.AfterCalls(old(State()), calls[..i])
        invariant forall n :: n in assumed ==> fresh(assumed[n]) || assumed[n] in old(assumed.Values)
      {
        assert calls[..i + 1][..i] == calls[..i];
        Perform(calls[i]);
      }
      assert calls[..|calls|] == calls;
    }

    /**
      One resync round. It holds the lock while it looks up the desynced nodes and while it flushes;
      in between, other threads get `meanwhile` in. `listed` is false when the pods cannot be listed.
     */
    method Resync(s: M.Sources, listed: bool, meanwhile: seq<M.Call>)
      requires Valid()
      modifies this, assumed.Values
      ensures Valid()
      ensures var mid := M.AfterCalls(old(State()), meanwhile);
        if listed then M.AfterResync(old(State()), s, mid, State()) else State() == mid
    {
      hide State;
      ghost var c := State();
      var dirty, changed := GetDesyncedNodes();
      assert dirty == c.foreign.Keys + c.maybeOverreserved.Keys && changed == c.attrUpdate.Keys by {
        DesyncedInState();
      }
      PerformAll(meanwhile);
      if dirty == {} && changed == {} {
        M.ResyncByNode(c, s, [], State());
        return;
      }
      if !listed {
        return;
      }
      var updates := CollectUpdates(s, dirty, changed, c);
      M.ResyncByNode(c, s, updates, State());
      var _ := FlushNodes(updates);
    }

    lemma DesyncedInState()
      ensures State().foreign == foreign && State().maybeOverreserved == maybeOverreserved
      ensures State().attrUpdate == attrUpdate
    {
    }
  }

  /** Reads the NRT of every dirty or changed node and keeps those that may replace the cached ones. */
  method CollectUpdates(s: M.Sources, dirty: set<string>, changed: set<string>,
      ghost c: M.Cache) returns (updates: seq<M.Update>)
    requires dirty == c.foreign.Keys + c.maybeOverreserved.Keys && changed == c.attrUpdate.Keys
    ensures M.AreUpdates(c, s, updates)
    ensures forall n :: M.Names(updates, n) <==>
              || (n in dirty && s.fetch(n).Some? && n in s.podsOn && s.fetch(n).value.fingerprint != ""
                  && s.matches(s.podsOn[n], s.fetch(n).value.fingerprint))
              || (n in changed && s.fetch(n).Some?)
    ensures forall i :: 0 <= i < |updates| ==>
              s.fetch(updates[i].node).Some? && updates[i].zones == s.fetch(updates[i].node).value.zones
  {
    updates := [];
    var left := dirty;
    while left != {}
      invariant left <= dirty
      invariant forall i :: 0 <= i < |updates| ==>
                  M.IsRefreshed(c, s, updates[i].node) && updates[i].zones == s.fetch(updates[i].node).value.zones
      invariant forall n :: n in dirty - left && M.IsResynced(s, n) ==> M.Names(updates, n)
      decreases left
    {
      var n :| n in left;
      left := left - {n};
      var fetched := s.fetch(n);
      if fetched.None? || n !in s.podsOn || fetched.value.fingerprint == "" {
        continue;
      }
      if !s.matches(s.podsOn[n], fetched.value.fingerprint) {
        continue;
      }
      updates := Appended(updates, M.Update(n, fetched.value.zones));
    }
    left := changed;
    while left != {}
      invariant left <= changed
      invariant forall i :: 0 <= i < |updates| ==>
                  M.IsRefreshed(c, s, updates[i].node) && updates[i].zones == s.fetch(updates[i].node).value.zones
      invariant forall n :: n in dirty && M.IsResynced(s, n) ==> M.Names(updates, n)
      invariant forall n :: n in changed - left && s.fetch(n).Some? ==> M.Names(updates, n)
      decreases left
    {
      var n :| n in left;
      left := left - {n};
      if s.fetch(n).Some? {
        updates := Appended(updates, M.Update(n, s.fetch(n).value.zones));
      }
    }
  }

  method Appended(us: seq<M.Update>, u: M.Update) returns (r: seq<M.Update>)
    ensures r == us + [u] && forall n :: M.Names(r, n) <==> M.Names(us, n) || n == u.node
  {
    r := us + [u];
    forall n | M.Names(us, n) ensures M.Names(r, n) {
      var i :| 0 <= i < |us| && us[i].node == n;
      assert r[i].node == n;
    }
    assert r[|us|].node == u.node;
  }
}
