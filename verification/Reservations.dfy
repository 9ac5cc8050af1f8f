/**
  The rescheduler's reservation table: resources set aside on nodes for pods that are being
  bound, and the overload check that guards it.
 */
module Reservations {
  import opened NodeTopology
  import opened Sums

  /** CPU in millicores and memory in bytes. */
  datatype Amounts = Amounts(cpu: int, memory: int)

  datatype Reservation = Reservation(node: string, amounts: Amounts, timestamp: int)

  type Table = map<string, Reservation>

  ghost predicate NonNegative(a: Amounts)
  {
    0 <= a.cpu && 0 <= a.memory
  }

  ghost function CpuOn(t: Table, node: string): string -> int
  {
    k => if k in t && t[k].node == node then t[k].amounts.cpu else 0
  }

  ghost function MemoryOn(t: Table, node: string): string -> int
  {
    k => if k in t && t[k].node == node then t[k].amounts.memory else 0
  }

  ghost function Reserved(t: Table, node: string): Amounts
  {
    Amounts(Sum(t.Keys, CpuOn(t, node)), Sum(t.Keys, MemoryOn(t, node)))
  }

  ghost predicate AllNonNegative(t: Table)
  {
    forall k :: k in t ==> NonNegative(t[k].amounts)
  }

  // ----- usage

  function Percent(used: int, capacity: int): real
  {
    if capacity > 0 then used as real / capacity as real * 100.0 else 0.0
  }

  predicate IsOverloaded(used: Amounts, capacity: Amounts)
  {
    Percent(used.cpu, capacity.cpu) > 95.0 || Percent(used.memory, capacity.memory) > 95.0
  }

  lemma OrderTimes(a: real, b: real, c: real)
    requires c > 0.0
    ensures a <= b <==> a * c <= b * c
  {
    if a > b {
      assert (a - b) * c > 0.0;
    } else {
      assert (b - a) * c >= 0.0;
    }
  }

  lemma PercentAtMost(used: int, capacity: int)
    requires capacity > 0
    ensures Percent(used, capacity) <= 95.0 <==> 100 * used <= 95 * capacity
  {
    var u, c := used as real, capacity as real;
    var q := u / c;
    assert q * c == u;
    OrderTimes(q * 100.0, 95.0, c);
    assert q * 100.0 * c == 100.0 * u;
    assert 100.0 * u == (100 * used) as real && 95.0 * c == (95 * capacity) as real;
  }

  /** A pod as the usage calculation sees it. */
  datatype RunningPod = RunningPod(node: string, running: bool, request: Amounts)

  /** A node; an unschedulable one counts as unused. */
  datatype Node = Node(name: string, unschedulable: bool, capacity: Amounts)

  function UsageOf(node: Node, pods: seq<RunningPod>): Amounts
  {
    if pods == [] || node.unschedulable then Amounts(0, 0) else
      var rest, p := UsageOf(node, pods[..|pods| - 1]), pods[|pods| - 1];
      if p.running && p.node != "" && p.node == node.name
        then Amounts(rest.cpu + p.request.cpu, rest.memory + p.request.memory) else rest
  }

  /** The running pods of a schedulable node. */
  ghost function RunningOn(node: Node, pods: seq<RunningPod>): set<int>
  {
    set i | 0 <= i < |pods| && pods[i].running && pods[i].node == node.name && node.name != "" && !node.unschedulable
  }

  ghost function CpuAt(pods: seq<RunningPod>): int -> int
  {
    i => if 0 <= i < |pods| then pods[i].request.cpu else 0
  }

  ghost function MemoryAt(pods: seq<RunningPod>): int -> int
  {
    i => if 0 <= i < |pods| then pods[i].request.memory else 0
  }

  lemma {:induction false} UsageIsSum(node: Node, pods: seq<RunningPod>)
    ensures UsageOf(node, pods)
         == Amounts(Sum(RunningOn(node, pods), CpuAt(pods)), Sum(RunningOn(node, pods), MemoryAt(pods)))
  {
    if pods == [] || node.unschedulable {
      assert RunningOn(node, pods) == {};
    } else {
      var rest, n := pods[..|pods| - 1], |pods| - 1;
      UsageIsSum(node, rest);
      SumSame(RunningOn(node, rest), CpuAt(rest), CpuAt(pods));
      SumSame(RunningOn(node, rest), MemoryAt(rest), MemoryAt(pods));
      if n in RunningOn(node, pods) {
        assert RunningOn(node, pods) - {n} == RunningOn(node, rest);
        SumTake(RunningOn(node, pods), n, CpuAt(pods));
        SumTake(RunningOn(node, pods), n, MemoryAt(pods));
      } else {
        assert RunningOn(node, pods) == RunningOn(node, rest);
      }
    }
  }

  /** In plain words: one resource with a positive capacity is used beyond 95 percent of it. */
  lemma OverloadedMeans(used: Amounts, capacity: Amounts)
    ensures IsOverloaded(used, capacity) <==>
      || (capacity.cpu > 0 && 100 * used.cpu > 95 * capacity.cpu)
      || (capacity.memory > 0 && 100 * used.memory > 95 * capacity.memory)
  {
    hide Percent;
    if capacity.cpu > 0 {
      PercentAtMost(used.cpu, capacity.cpu);
    } else {
      NoCapacity(used.cpu, capacity.cpu);
    }
    if capacity.memory > 0 {
      PercentAtMost(used.memory, capacity.memory);
    } else {
      NoCapacity(used.memory, capacity.memory);
    }
  }

  lemma NoCapacity(used: int, capacity: int)
    requires capacity <= 0
    ensures Percent(used, capacity) == 0.0
  {
  }

  method GetNodeUsage(node: Node, pods: seq<RunningPod>) returns (usage: Amounts)
    ensures usage == UsageOf(node, pods)
    ensures usage.cpu == Sum(RunningOn(node, pods), CpuAt(pods))
    ensures usage.memory == Sum(RunningOn(node, pods), MemoryAt(pods))
    ensures (forall i :: 0 <= i < |pods| ==> NonNegative(pods[i].request)) ==> NonNegative(usage)
  {
    UsageIsSum(node, pods);
    usage := Amounts(0, 0);
    if node.unschedulable {
      return;
    }
    for i := 0 to |pods|
      invariant usage == UsageOf(node, pods[..i])
      invariant (forall j :: 0 <= j < i ==> NonNegative(pods[j].request)) ==> NonNegative(usage)
    {
      assert pods[..i + 1][..i] == pods[..i];
      var p := pods[i];
      if !p.running || p.node == "" || p.node != node.name {
        continue;
      }
      usage := Amounts(usage.cpu + p.request.cpu, usage.memory + p.request.memory);
    }
    assert pods[..|pods|] == pods;
  }

  // ----- the table as a value

  function Predicted(usage: Amounts, reserved: Amounts, request: Amounts): Amounts
  {
    Amounts(usage.cpu + reserved.cpu + request.cpu, usage.memory + reserved.memory + request.memory)
  }

  /**
    Reserving enters the pod, over any reservation it had, and takes it out again when the
    prediction, made before entering it, overloads the node.
   */
  ghost function AfterReserve(t: Table, key: string, node: Node, request: Amounts, usage: Amounts, now: int): Table
  {
    if IsOverloaded(Predicted(usage, Reserved(t, node.name), request), node.capacity) then t - {key}
    else t[key := Reservation(node.name, request, now)]
  }

  function Unexpired(t: Table, now: int, expiration: int): Table
  {
    map k | k in t && now - t[k].timestamp <= expiration :: t[k]
  }

  class ReservationManager {
    var reservations: Table

    constructor ()
      ensures reservations == map[]
    {
      reservations := map[];
    }

    method Reserve(key: string, node: string, amounts: Amounts, now: int)
      modifies this
      ensures reservations == old(reservations)[key := Reservation(node, amounts, now)]
    {
      reservations := reservations[key := Reservation(node, amounts, now)];
    }

    method Unreserve(key: string) returns (released: Option<Reservation>)
      modifies this
      ensures reservations == old(reservations) - {key}
      ensures released == if key in old(reservations) then Some(old(reservations)[key]) else None
    {
      released := None;
      if key in reservations {
        released := Some(reservations[key]);
        reservations := reservations - {key};
      }
    }

    method GetTotalReservedResources(node: string) returns (total: Amounts)
      ensures total == Reserved(reservations, node)
    {
      total := Amounts(0, 0);
      var left := reservations.Keys;
      ghost var seen: set<string> := {};
      while left != {}
        invariant left + seen == reservations.Keys && left !! seen
        invariant total.cpu == Sum(seen, CpuOn(reservations, node))
        invariant total.memory == Sum(seen, MemoryOn(reservations, node))
        decreases left
      {
        var k :| k in left;
        SumTake(seen + {k}, k, CpuOn(reservations, node));
        SumTake(seen + {k}, k, MemoryOn(reservations, node));
        assert seen + {k} - {k} == seen;
        if reservations[k].node == node {
          total := Amounts(total.cpu + reservations[k].amounts.cpu, total.memory + reservations[k].amounts.memory);
        }
        left, seen := left - {k}, seen + {k};
      }
      assert seen == reservations.Keys;
    }

    method CleanupExpiredReservations(now: int, expiration: int)
      modifies this
      ensures reservations == Unexpired(old(reservations), now, expiration)
      ensures forall k :: k in reservations <==>
                k in old(reservations) && now - old(reservations)[k].timestamp <= expiration
      ensures forall k :: k in reservations ==> reservations[k] == old(reservations)[k]
    {
      var left := reservations.Keys;
      ghost var before := reservations;
      while left != {}
        invariant left <= before.Keys && left <= reservations.Keys <= before.Keys
        invariant forall k :: k in reservations ==> reservations[k] == before[k]
        invariant forall k :: k in before && k !in left ==>
                    (k in reservations <==> now - before[k].timestamp <= expiration)
        decreases left
      {
        var k :| k in left;
        left := left - {k};
        if now - reservations[k].timestamp > expiration {
          reservations := reservations - {k};
        }
      }
    }
  }

  /** The plugin's Reserve: predict, enter, and withdraw on overload. */
  method ReserveOnNode(manager: ReservationManager, enabled: bool, node: Option<Node>, pods: seq<RunningPod>,
                       key: string, request: Amounts, now: int) returns (ok: bool)
    modifies manager
    ensures !enabled || node.None? ==> manager.reservations == old(manager.reservations) && ok == !enabled
    ensures enabled && node.Some? ==>
              && manager.reservations
                 == AfterReserve(old(manager.reservations), key, node.value, request, UsageOf(node.value, pods), now)
              && (ok <==> !IsOverloaded(
                    Predicted(UsageOf(node.value, pods), Reserved(old(manager.reservations), node.value.name), request),
                    node.value.capacity))
    ensures enabled && node.Some? ==>
              var table, there, name := old(manager.reservations), RunningOn(node.value, pods), node.value.name;
              var cpu := Sum(there, CpuAt(pods)) + Sum(table.Keys, CpuOn(table, name)) + request.cpu;
              var memory := Sum(there, MemoryAt(pods)) + Sum(table.Keys, MemoryOn(table, name)) + request.memory;
              var tooMuch := || (node.value.capacity.cpu > 0 && 100 * cpu > 95 * node.value.capacity.cpu)
                             || (node.value.capacity.memory > 0 && 100 * memory > 95 * node.value.capacity.memory);
              && ok == !tooMuch
              && manager.reservations
                 == if tooMuch then table - {key} else table[key := Reservation(name, request, now)]
  {
    if !enabled {
      return true;
    }
    if node.None? {
      return false;
    }
    var usage := GetNodeUsage(node.value, pods);
    ghost var table := manager.reservations;
    OverloadedMeans(Predicted(usage, Reserved(table, node.value.name), request), node.value.capacity);
    var reserved := manager.GetTotalReservedResources(node.value.name);
    manager.Reserve(key, node.value.name, request, now);
    ok := !IsOverloaded(Predicted(usage, reserved, request), node.value.capacity);
    if !ok {
      var _ := manager.Unreserve(key);
    }
  }

  // ----- over whole runs

  datatype Event =
    | ReserveEvent(key: string, node: string, request: Amounts, usage: Amounts, now: int)
    | UnreserveEvent(key: string)
    | CleanupEvent(now: int, expiration: int)

  type Capacities = map<string, Amounts>

  ghost predicate Enabled(e: Event, capacities: Capacities)
  {
    e.ReserveEvent? ==> e.node in capacities && NonNegative(e.request) && NonNegative(e.usage)
  }

  ghost function Step(t: Table, e: Event, capacities: Capacities): Table
    requires Enabled(e, capacities)
  {
    match e
    case ReserveEvent(key, node, request, usage, now) =>
      AfterReserve(t, key, Node(node, false, capacities[node]), request, usage, now)
    case UnreserveEvent(key) => t - {key}
    case CleanupEvent(now, expiration) => Unexpired(t, now, expiration)
  }

  ghost function After(t: Table, es: seq<Event>, capacities: Capacities): Table
    requires forall i :: 0 <= i < |es| ==> Enabled(es[i], capacities)
  {
    if es == [] then t else Step(After(t, es[..|es| - 1], capacities), es[|es| - 1], capacities)
  }

  /** At most 95 percent of each capacity that is positive. */
  ghost predicate WithinShare(reserved: Amounts, capacity: Amounts)
  {
    && (capacity.cpu > 0 ==> 100 * reserved.cpu <= 95 * capacity.cpu)
    && (capacity.memory > 0 ==> 100 * reserved.memory <= 95 * capacity.memory)
  }

  ghost predicate Safe(t: Table, capacities: Capacities)
  {
    AllNonNegative(t) && forall n :: n in capacities ==> WithinShare(Reserved(t, n), capacities[n])
  }

  lemma PartReservesLess(part: Table, t: Table, node: string)
    requires AllNonNegative(t) && part.Keys <= t.Keys && forall k :: k in part ==> part[k] == t[k]
    ensures Reserved(part, node).cpu <= Reserved(t, node).cpu && Reserved(part, node).memory <= Reserved(t, node).memory
  {
    SumSame(part.Keys, CpuOn(part, node), CpuOn(t, node));
    SumSubset(part.Keys, t.Keys, CpuOn(t, node));
    SumSame(part.Keys, MemoryOn(part, node), MemoryOn(t, node));
    SumSubset(part.Keys, t.Keys, MemoryOn(t, node));
  }

  lemma PartIsSafe(part: Table, t: Table, capacities: Capacities)
    requires Safe(t, capacities) && part.Keys <= t.Keys && forall k :: k in part ==> part[k] == t[k]
    ensures Safe(part, capacities)
  {
    forall n | n in capacities ensures WithinShare(Reserved(part, n), capacities[n]) {
      PartReservesLess(part, t, n);
    }
  }

  /** Entering a pod reserves its request on its node on top of all other pods. */
  lemma EnteringReserves(t: Table, key: string, r: Reservation, node: string)
    ensures var t' := t[key := r];
      && Reserved(t', node).cpu == Reserved(t - {key}, node).cpu + (if r.node == node then r.amounts.cpu else 0)
      && Reserved(t', node).memory
         == Reserved(t - {key}, node).memory + (if r.node == node then r.amounts.memory else 0)
  {
    var t', rest := t[key := r], t - {key};
    SumTake(t'.Keys, key, CpuOn(t', node));
    SumTake(t'.Keys, key, MemoryOn(t', node));
    assert t'.Keys - {key} == rest.Keys;
    SumSame(rest.Keys, CpuOn(t', node), CpuOn(rest, node));
    SumSame(rest.Keys, MemoryOn(t', node), MemoryOn(rest, node));
  }

  lemma NotOverloaded(used: Amounts, capacity: Amounts)
    requires !IsOverloaded(used, capacity)
    ensures WithinShare(used, capacity)
  {
    hide Percent;
    if capacity.cpu > 0 {
      PercentAtMost(used.cpu, capacity.cpu);
    }
    if capacity.memory > 0 {
      PercentAtMost(used.memory, capacity.memory);
    }
  }

  lemma ReserveIsSafe(t: Table, key: string, node: Node, request: Amounts, usage: Amounts, now: int,
      capacities: Capacities)
    requires Safe(t, capacities) && NonNegative(request) && NonNegative(usage)
    requires node.name in capacities && node.capacity == capacities[node.name]
    ensures Safe(AfterReserve(t, key, node, request, usage, now), capacities)
  {
    hide IsOverloaded, Reserved;
    PartIsSafe(t - {key}, t, capacities);
    var predicted := Predicted(usage, Reserved(t, node.name), request);
    if !IsOverloaded(predicted, node.capacity) {
      NotOverloaded(predicted, node.capacity);
      var r := Reservation(node.name, request, now);
      forall n | n in capacities ensures WithinShare(Reserved(t[key := r], n), capacities[n]) {
        EnteringReserves(t, key, r, n);
        PartReservesLess(t - {key}, t, n);
      }
    }
  }

  /**
    Over every run of reserves, repeated reserves of a pod on the same or another node, unreserves
    and cleanups, what is reserved on a node stays within 95 percent of its capacity.
   */
  lemma {:induction false} ReservationsStayWithinShare(es: seq<Event>, capacities: Capacities)
    requires forall i :: 0 <= i < |es| ==> Enabled(es[i], capacities)
    requires forall n :: n in capacities ==> NonNegative(capacities[n])
    ensures Safe(After(map[], es, capacities), capacities)
  {
    if es == [] {
      assert forall n :: Reserved(map[], n) == Amounts(0, 0);
    } else {
      var e, t := es[|es| - 1], After(map[], es[..|es| - 1], capacities);
      ReservationsStayWithinShare(es[..|es| - 1], capacities);
      match e {
        case ReserveEvent(key, node, request, usage, now) =>
          ReserveIsSafe(t, key, Node(node, false, capacities[node]), request, usage, now, capacities);
        case UnreserveEvent(key) => PartIsSafe(t - {key}, t, capacities);
        case CleanupEvent(now, expiration) => PartIsSafe(Unexpired(t, now, expiration), t, capacities);
      }
    }
  }

  /** The event reserves the pod or gives its reservation up. */
  predicate IsAbout(e: Event, key: string)
  {
    (e.ReserveEvent? || e.UnreserveEvent?) && e.key == key
  }

  /**
    In every run a reservation in the table is that of the pod's last reserve, which was accepted. A
    pod whose last reserve was rejected has none, whatever it had before.
   */
  lemma {:induction false} ReservationIsLastReserve(es: seq<Event>, capacities: Capacities,
      key: string) returns (i: nat)
    requires forall j :: 0 <= j < |es| ==> Enabled(es[j], capacities)
    requires key in After(map[], es, capacities)
    ensures i < |es| && es[i].ReserveEvent? && es[i].key == key
    ensures After(map[], es, capacities)[key] == Reservation(es[i].node, es[i].request, es[i].now)
    ensures !IsOverloaded(
              Predicted(es[i].usage, Reserved(After(map[], es[..i], capacities), es[i].node), es[i].request),
              capacities[es[i].node])
    ensures forall j :: i < j < |es| ==> !IsAbout(es[j], key)
  {
    hide IsOverloaded, Predicted, Reserved;
    var before, e := es[..|es| - 1], es[|es| - 1];
    i := |es| - 1;
    if !(e.ReserveEvent? && e.key == key) {
      i := ReservationIsLastReserve(before, capacities, key);
      assert before[..i] == es[..i];
    }
  }

  /** A rejected reserve also forgets the reservation the pod had before: the table survives only if it had none. */
  lemma RejectedReserveForgets(t: Table, key: string, node: Node, request: Amounts, usage: Amounts, now: int)
    requires IsOverloaded(Predicted(usage, Reserved(t, node.name), request), node.capacity)
    ensures AfterReserve(t, key, node, request, usage, now) == t <==> key !in t
  {
    if key !in t {
      assert t - {key} == t;
    } else {
      assert key !in (t - {key}).Keys;
    }
  }

  const OnN: Table := map["p" := Reservation("n", Amounts(10, 10), 0)]

  lemma FirstReserveAccepted(node: Node)
    requires node == Node("n", false, Amounts(100, 100))
    ensures AfterReserve(map[], "p", node, Amounts(10, 10), Amounts(0, 0), 0) == OnN
  {
    hide Percent;
    assert Reserved(map[], "n") == Amounts(0, 0);
    PercentAtMost(10, 100);
  }

  lemma SecondReserveRejected(node: Node)
    requires node == Node("n", false, Amounts(100, 100))
    ensures AfterReserve(OnN, "p", node, Amounts(10, 10), Amounts(90, 90), 1) == map[]
  {
    hide Percent, Reserved;
    var none: Table := map[];
    EnteringReserves(none, "p", OnN["p"], "n");
    assert none["p" := OnN["p"]] == OnN && none - {"p"} == none;
    NothingReserved("n");
    PercentAtMost(110, 100);
    RejectedReserveForgets(OnN, "p", node, Amounts(10, 10), Amounts(90, 90), 1);
    assert OnN - {"p"} == map[];
  }

  lemma NothingReserved(node: string)
    ensures Reserved(map[], node) == Amounts(0, 0)
  {
  }

  lemma AfterTwo(a: Event, b: Event, capacities: Capacities)
    requires Enabled(a, capacities) && Enabled(b, capacities)
    ensures After(map[], [a], capacities) == Step(map[], a, capacities)
    ensures After(map[], [a, b], capacities) == Step(Step(map[], a, capacities), b, capacities)
  {
    hide Step, Enabled;
    assert [a, b][..1] == [a] && [a][..0] == [];
  }

  lemma StepOfReserve(t: Table, e: Event, capacities: Capacities, capacity: Amounts)
    requires Enabled(e, capacities) && e.ReserveEvent? && capacities[e.node] == capacity
    ensures Step(t, e, capacities) == AfterReserve(t, e.key, Node(e.node, false, capacity), e.request, e.usage, e.now)
  {
    hide AfterReserve;
  }

  /**
    For instance: a pod reserved on an empty node of 100 is tried again when pods that use 90 have
    come. The second reserve is rejected, and the first reservation is gone as well.
   */
  lemma RetriedReserveForgets(a: Event, b: Event, capacities: Capacities)
    requires "n" in capacities && capacities["n"] == Amounts(100, 100)
    requires a == ReserveEvent("p", "n", Amounts(10, 10), Amounts(0, 0), 0)
    requires b == ReserveEvent("p", "n", Amounts(10, 10), Amounts(90, 90), 1)
    ensures Enabled(a, capacities) && Enabled(b, capacities)
    ensures After(map[], [a], capacities) == OnN && After(map[], [a, b], capacities) == map[]
  {
    assert Enabled(a, capacities) && Enabled(b, capacities);
    FirstReserveAccepted(Node("n", false, Amounts(100, 100)));
    SecondReserveRejected(Node("n", false, Amounts(100, 100)));
    hide *;
    StepOfReserve(map[], a, capacities, Amounts(100, 100));
    StepOfReserve(OnN, b, capacities, Amounts(100, 100));
    AfterTwo(a, b, capacities);
  }
}
