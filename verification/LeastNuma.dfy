/**
  The least-NUMA-nodes score: the smallest group of NUMA nodes that together hold a request,
  closest to each other among those, and the accounting of one container after another.
 */
module LeastNuma {
  import opened NodeTopology
  import opened NumaNodes
  import opened Sums

  /** Unknown distance, and the largest one a System Locality Information Table can state. */
  const MAX_DISTANCE := 255
  const DISTANCE_LIMIT := 256.0

  const MIN_NODE_SCORE := 0
  const MAX_NODE_SCORE := 100

  // ----- groups of NUMA nodes

  /** A group of `k` node indices from `lo` up to `n`, listed in increasing order. */
  predicate IsGroup(c: seq<nat>, lo: nat, n: nat, k: nat)
  {
    && |c| == k
    && (forall i :: 0 <= i < k ==> lo <= c[i] < n)
    && (forall i, j :: 0 <= i < j < k ==> c[i] < c[j])
  }

  /** All groups, in lexicographic order. */
  function Combinations(lo: nat, n: nat, k: nat): seq<seq<nat>>
    decreases n - lo
  {
    if k == 0 then [[]]
    else if lo >= n then []
    else Prefixed(lo, Combinations(lo + 1, n, k - 1)) + Combinations(lo + 1, n, k)
  }

  function Prefixed(x: nat, cs: seq<seq<nat>>): (r: seq<seq<nat>>)
    ensures |r| == |cs| && forall i :: 0 <= i < |cs| ==> r[i] == [x] + cs[i]
  {
    seq(|cs|, i requires 0 <= i < |cs| => [x] + cs[i])
  }

  /** Nothing but groups is generated. */
  lemma {:induction false} CombinationsSound(lo: nat, n: nat, k: nat, p: nat)
    requires p < |Combinations(lo, n, k)|
    ensures IsGroup(Combinations(lo, n, k)[p], lo, n, k)
    decreases n - lo
  {
    if k != 0 {
      var with := Combinations(lo + 1, n, k - 1);
      if p < |with| {
        CombinationsSound(lo + 1, n, k - 1, p);
      } else {
        CombinationsSound(lo + 1, n, k, p - |with|);
      }
    }
  }

  /** Every group is generated. */
  lemma {:induction false} CombinationsComplete(lo: nat, n: nat, k: nat, c: seq<nat>) returns (p: nat)
    requires IsGroup(c, lo, n, k)
    ensures p < |Combinations(lo, n, k)| && Combinations(lo, n, k)[p] == c
    decreases n - lo
  {
    hide Combinations;
    p := 0;
    if k == 0 {
      NoneOfNothing(lo, n);
    } else {
      assert lo <= c[0] < n;
      CombinationsSplit(lo, n, k);
      if c[0] == lo {
        p := CombinationsComplete(lo + 1, n, k - 1, c[1..]);
        assert c == [lo] + c[1..];
      } else {
        p := CombinationsComplete(lo + 1, n, k, c);
        p := p + |Combinations(lo + 1, n, k - 1)|;
      }
    }
  }

  lemma NoneOfNothing(lo: nat, n: nat)
    ensures Combinations(lo, n, 0) == [[]]
  {
  }

  /** The groups with `lo` come first, then those without. */
  lemma CombinationsSplit(lo: nat, n: nat, k: nat)
    requires k > 0 && lo < n
    ensures var with, without := Combinations(lo + 1, n, k - 1), Combinations(lo + 1, n, k);
      && |Combinations(lo, n, k)| == |with| + |without|
      && (forall i :: 0 <= i < |with| ==> Combinations(lo, n, k)[i] == [lo] + with[i])
      && (forall i :: 0 <= i < |without| ==> Combinations(lo, n, k)[|with| + i] == without[i])
  {
    CombinationsUnfold(lo, n, k);
    hide Combinations, Prefixed;
  }

  lemma CombinationsUnfold(lo: nat, n: nat, k: nat)
    requires k > 0 && lo < n
    ensures Combinations(lo, n, k) == Prefixed(lo, Combinations(lo + 1, n, k - 1)) + Combinations(lo + 1, n, k)
  {
  }

  // ----- distance

  function Distance(nodes: seq<NumaNode>, a: nat, b: nat): int
    requires a < |nodes| && b < |nodes|
  {
    if nodes[b].id in nodes[a].costs then nodes[a].costs[nodes[b].id] else MAX_DISTANCE
  }

  predicate InRange(nodes: seq<NumaNode>, c: seq<nat>)
  {
    forall i :: 0 <= i < |c| ==> c[i] < |nodes|
  }

  function DistancesFrom(nodes: seq<NumaNode>, a: nat, c: seq<nat>): int
    requires a < |nodes| && InRange(nodes, c)
  {
    if c == [] then 0 else DistancesFrom(nodes, a, c[..|c| - 1]) + Distance(nodes, a, c[|c| - 1])
  }

  function Distances(nodes: seq<NumaNode>, rows: seq<nat>, c: seq<nat>): int
    requires InRange(nodes, rows) && InRange(nodes, c)
  {
    if rows == [] then 0 else Distances(nodes, rows[..|rows| - 1], c) + DistancesFrom(nodes, rows[|rows| - 1], c)
  }

  /** Mean of the distances between all ordered pairs of the group, each node with itself included. */
  function AvgDistance(nodes: seq<NumaNode>, c: seq<nat>): real
    requires InRange(nodes, c)
  {
    if c == [] then MAX_DISTANCE as real else Distances(nodes, c, c) as real / (|c| * |c|) as real
  }

  /** The distance from node `a` to each node of the group; 255 where none is known. */
  ghost function DistanceTo(nodes: seq<NumaNode>, a: int, c: seq<nat>): int -> int
  {
    j => if 0 <= a < |nodes| && 0 <= j < |c| && c[j] < |nodes| && nodes[c[j]].id in nodes[a].costs
         then nodes[a].costs[nodes[c[j]].id] else 255
  }

  ghost function DistancesOf(nodes: seq<NumaNode>, rows: seq<nat>, c: seq<nat>): int -> int
  {
    i => if 0 <= i < |rows| then Sum(Indices(|c|), DistanceTo(nodes, rows[i], c)) else 0
  }

  lemma {:induction false} DistancesFromIsSum(nodes: seq<NumaNode>, a: nat, c: seq<nat>)
    requires a < |nodes| && InRange(nodes, c)
    ensures DistancesFrom(nodes, a, c) == Sum(Indices(|c|), DistanceTo(nodes, a, c))
  {
    if c == [] {
      IndicesGrow(0);
    } else {
      var n := |c| - 1;
      IndicesGrow(n);
      DistancesFromIsSum(nodes, a, c[..n]);
      SumSame(Indices(n), DistanceTo(nodes, a, c[..n]), DistanceTo(nodes, a, c));
      SumTake(Indices(|c|), n, DistanceTo(nodes, a, c));
    }
  }

  lemma {:induction false} DistancesIsSum(nodes: seq<NumaNode>, rows: seq<nat>, c: seq<nat>)
    requires InRange(nodes, rows) && InRange(nodes, c)
    ensures Distances(nodes, rows, c) == Sum(Indices(|rows|), DistancesOf(nodes, rows, c))
  {
    hide DistanceTo;
    if rows == [] {
      IndicesGrow(0);
    } else {
      var n := |rows| - 1;
      DistancesIsSum(nodes, rows[..n], c);
      DistancesFromIsSum(nodes, rows[n], c);
      IndicesGrow(n);
      SumSame(Indices(n), DistancesOf(nodes, rows[..n], c), DistancesOf(nodes, rows, c));
      SumTake(Indices(|rows|), n, DistancesOf(nodes, rows, c));
    }
  }

  /** In plain words: the mean of the distances of all ordered pairs of the group. */
  lemma AvgIsMean(nodes: seq<NumaNode>, c: seq<nat>)
    requires InRange(nodes, c)
    ensures c == [] ==> AvgDistance(nodes, c) == 255.0
    ensures c != [] ==>
              AvgDistance(nodes, c) == Sum(Indices(|c|), DistancesOf(nodes, c, c)) as real / (|c| * |c|) as real
  {
    DistancesIsSum(nodes, c, c);
  }

  ghost predicate DistancesBounded(nodes: seq<NumaNode>)
  {
    forall a, b :: 0 <= a < |nodes| && b in nodes[a].costs ==> nodes[a].costs[b] <= MAX_DISTANCE
  }

  lemma {:induction false} DistancesFromBounded(nodes: seq<NumaNode>, a: nat, c: seq<nat>)
    requires a < |nodes| && InRange(nodes, c) && DistancesBounded(nodes)
    ensures DistancesFrom(nodes, a, c) <= MAX_DISTANCE * |c|
  {
    if c != [] {
      DistancesFromBounded(nodes, a, c[..|c| - 1]);
    }
  }

  lemma {:induction false} DistancesTotalBounded(nodes: seq<NumaNode>, rows: seq<nat>, c: seq<nat>)
    requires InRange(nodes, rows) && InRange(nodes, c) && DistancesBounded(nodes)
    ensures Distances(nodes, rows, c) <= MAX_DISTANCE * |c| * |rows|
  {
    if rows != [] {
      var n := |rows| - 1;
      DistancesTotalBounded(nodes, rows[..n], c);
      DistancesFromBounded(nodes, rows[n], c);
      assert MAX_DISTANCE * |c| * |rows| == MAX_DISTANCE * |c| * n + MAX_DISTANCE * |c|;
    }
  }

  lemma QuotientAtMost(x: int, n: nat, bound: int)
    requires n > 0 && x <= bound * n
    ensures x as real / n as real <= bound as real
  {
    assert x as real <= bound as real * n as real;
  }

  lemma AvgDistanceBounded(nodes: seq<NumaNode>, c: seq<nat>)
    requires InRange(nodes, c) && DistancesBounded(nodes)
    ensures AvgDistance(nodes, c) <= MAX_DISTANCE as real
  {
    if c != [] {
      DistancesTotalBounded(nodes, c, c);
      assert |c| * |c| > 0;
      assert MAX_DISTANCE * |c| * |c| == MAX_DISTANCE * (|c| * |c|);
      QuotientAtMost(Distances(nodes, c, c), |c| * |c|, MAX_DISTANCE);
    }
  }

  method NodesAvgDistance(nodes: seq<NumaNode>, c: seq<nat>) returns (avg: real)
    requires InRange(nodes, c)
    ensures avg == AvgDistance(nodes, c)
  {
    if |c| == 0 {
      return MAX_DISTANCE as real;
    }
    var accu := 0;
    for i := 0 to |c|
      invariant accu == Distances(nodes, c[..i], c)
    {
      ghost var sofar := accu;
      for j := 0 to |c|
        invariant accu == sofar + DistancesFrom(nodes, c[i], c[..j])
      {
        assert c[..j + 1][..j] == c[..j];
        var cost := if nodes[c[j]].id in nodes[c[i]].costs then nodes[c[i]].costs[nodes[c[j]].id] else MAX_DISTANCE;
        accu := accu + cost;
      }
      assert c[..|c|] == c && c[..i + 1][..i] == c[..i];
    }
    assert c[..|c|] == c;
    return accu as real / (|c| * |c|) as real;
  }

  method MinAvgDistanceInCombinations(nodes: seq<NumaNode>, groups: seq<seq<nat>>) returns (least: real)
    requires forall p :: 0 <= p < |groups| ==> InRange(nodes, groups[p])
    ensures least <= MAX_DISTANCE as real
    ensures forall p :: 0 <= p < |groups| ==> least <= AvgDistance(nodes, groups[p])
    ensures least == MAX_DISTANCE as real || exists p :: 0 <= p < |groups| && least == AvgDistance(nodes, groups[p])
  {
    least := MAX_DISTANCE as real;
    for i := 0 to |groups|
      invariant least <= MAX_DISTANCE as real
      invariant forall p :: 0 <= p < i ==> least <= AvgDistance(nodes, groups[p])
      invariant least == MAX_DISTANCE as real || exists p :: 0 <= p < i && least == AvgDistance(nodes, groups[p])
    {
      var d := NodesAvgDistance(nodes, groups[i]);
      if d < least {
        least := d;
      }
    }
  }

  // ----- fit

  ghost function HeldBy(nodes: seq<NumaNode>, r: string): int -> int
  {
    i => if 0 <= i < |nodes| then Quantity(nodes[i].resources, r) else 0
  }

  function Members(c: seq<nat>): set<int>
  {
    set i | i in c
  }

  /** How much of `r` the nodes in `s` hold together. */
  ghost function Held(nodes: seq<NumaNode>, s: set<int>, r: string): (h: int)
    ensures 0 <= h
  {
    SumNonNegative(s, HeldBy(nodes, r));
    Sum(s, HeldBy(nodes, r))
  }

  /** Every node of the group lists every requested resource, and together they have enough of each. */
  ghost predicate Fits(nodes: seq<NumaNode>, qos: QoS, request: ResourceList, c: seq<nat>)
    requires InRange(nodes, c)
  {
    forall r :: r in request ==>
      && (forall i :: 0 <= i < |c| ==> r in nodes[c[i]].resources)
      && (request[r] == 0 || Exempt(qos, r) || request[r] <= Held(nodes, Members(c), r))
  }

  /**
    In plain words: every node of the group lists every requested resource, and together they have
    what is asked for, unless it is CPUs, memory or huge pages of a pod that is not Guaranteed.
   */
  lemma FitsMeans(nodes: seq<NumaNode>, qos: QoS, request: ResourceList, c: seq<nat>)
    requires InRange(nodes, c)
    ensures Fits(nodes, qos, request, c) <==>
      && (forall r, i :: r in request && 0 <= i < |c| ==> r in nodes[c[i]].resources)
      && (forall r :: r in request && request[r] > 0 ==>
            || request[r] <= Sum(Members(c), HeldBy(nodes, r))
            || (qos != Guaranteed && (r == "cpu" || r == "memory" || (|r| >= 10 && r[..10] == "hugepages-"))))
  {
    hide Exempt, HeldBy;
    forall r {
      ExemptMeans(qos, r);
    }
  }

  lemma HeldExtends(nodes: seq<NumaNode>, c: seq<nat>, k: nat, r: string)
    requires InRange(nodes, c) && k < |c| && forall i, j :: 0 <= i < j < |c| ==> c[i] < c[j]
    ensures Held(nodes, Members(c[..k + 1]), r) == Held(nodes, Members(c[..k]), r) + Quantity(nodes[c[k]].resources, r)
  {
    assert c[..k + 1] == c[..k] + [c[k]];
    SumTake(Members(c[..k + 1]), c[k], HeldBy(nodes, r));
    assert Members(c[..k + 1]) - {c[k] as int} == Members(c[..k]);
  }

  method CombineResources(nodes: seq<NumaNode>, c: seq<nat>) returns (resources: ResourceList)
    requires InRange(nodes, c) && forall i, j :: 0 <= i < j < |c| ==> c[i] < c[j]
    ensures forall r :: Quantity(resources, r) == Held(nodes, Members(c), r)
  {
    resources := map[];
    for k := 0 to |c|
      invariant forall r :: Quantity(resources, r) == Held(nodes, Members(c[..k]), r)
    {
      forall r
        ensures Held(nodes, Members(c[..k + 1]), r)
             == Held(nodes, Members(c[..k]), r) + Quantity(nodes[c[k]].resources, r)
      {
        HeldExtends(nodes, c, k, r);
      }
      resources := AddResources(resources, nodes[c[k]].resources);
    }
    assert c[..|c|] == c;
  }

  method AddResources(a: ResourceList, b: ResourceList) returns (sum: ResourceList)
    ensures forall r :: Quantity(sum, r) == Quantity(a, r) + Quantity(b, r)
  {
    sum := a;
    var left := b.Keys;
    while left != {}
      invariant left <= b.Keys
      invariant forall r :: Quantity(sum, r) == Quantity(a, r) + if r in left then 0 else Quantity(b, r)
      decreases left
    {
      var r :| r in left;
      left := left - {r};
      if r in sum {
        sum := sum[r := sum[r] + b[r]];
      } else {
        sum := sum[r := b[r]];
      }
    }
  }

  method IsValidCombineResources(nodes: seq<NumaNode>, request: ResourceList, c: seq<nat>) returns (valid: bool)
    requires InRange(nodes, c)
    ensures valid <==> forall i, r :: 0 <= i < |c| && r in request ==> r in nodes[c[i]].resources
  {
    for i := 0 to |c|
      invariant forall j, r :: 0 <= j < i && r in request ==> r in nodes[c[j]].resources
    {
      if r :| r in request && r !in nodes[c[i]].resources {
        return false;
      }
    }
    return true;
  }

  method CheckResourcesFit(qos: QoS, request: ResourceList, combined: ResourceList) returns (fit: bool)
    ensures fit <==> forall r :: r in request ==>
              request[r] == 0 || IsSuitable(qos, r, request[r], Quantity(combined, r))
    ensures fit <==> forall r :: r in request && request[r] > 0 ==>
              || (r in combined && request[r] <= combined[r])
              || (qos != Guaranteed && (r == "cpu" || r == "memory" || (|r| >= 10 && r[..10] == "hugepages-")))
  {
    hide Exempt;
    forall r {
      ExemptMeans(qos, r);
    }
    var left := request.Keys;
    while left != {}
      invariant left <= request.Keys
      invariant forall r :: r in request && r !in left ==>
                  request[r] == 0 || IsSuitable(qos, r, request[r], Quantity(combined, r))
      decreases left
    {
      var r :| r in left;
      left := left - {r};
      if request[r] != 0 && !IsSuitable(qos, r, request[r], Quantity(combined, r)) {
        return false;
      }
    }
    return true;
  }

  method GroupFits(nodes: seq<NumaNode>, qos: QoS, request: ResourceList, c: seq<nat>) returns (fit: bool)
    requires InRange(nodes, c) && forall i, j :: 0 <= i < j < |c| ==> c[i] < c[j]
    ensures fit <==> Fits(nodes, qos, request, c)
  {
    fit := IsValidCombineResources(nodes, request, c);
    if fit {
      var combined := CombineResources(nodes, c);
      fit := CheckResourcesFit(qos, request, combined);
    }
  }

  // ----- the search

  /** The search passes over a fitting group whose nodes are too far apart. */
  ghost predicate Usable(nodes: seq<NumaNode>, qos: QoS, request: ResourceList, c: seq<nat>)
    requires InRange(nodes, c)
  {
    Fits(nodes, qos, request, c) && AvgDistance(nodes, c) < DISTANCE_LIMIT
  }

  lemma UsableMeans(nodes: seq<NumaNode>, qos: QoS, request: ResourceList, c: seq<nat>)
    requires InRange(nodes, c)
    ensures Usable(nodes, qos, request, c) <==> Fits(nodes, qos, request, c) && AvgDistance(nodes, c) < 256.0
  {
    hide Fits, AvgDistance;
  }

  /** With distances of at most 255 no fitting group is passed over. */
  lemma BoundedFitIsUsable(nodes: seq<NumaNode>, qos: QoS, request: ResourceList, c: seq<nat>)
    requires InRange(nodes, c) && DistancesBounded(nodes)
    ensures Usable(nodes, qos, request, c) <==> Fits(nodes, qos, request, c)
    ensures AvgDistance(nodes, c) <= MAX_DISTANCE as real
  {
    AvgDistanceBounded(nodes, c);
  }

  /** Beyond that one can be: a single node 256 away from itself has the room but is never chosen. */
  lemma FarGroupIsPassedOver(nodes: seq<NumaNode>, request: ResourceList)
    requires nodes == [NumaNode(0, map["cpu" := 1], map[0 := 256])] && request == map["cpu" := 1]
    ensures InRange(nodes, [0]) && Fits(nodes, Guaranteed, request, [0])
    ensures forall c :: InRange(nodes, c) && |c| == 1 ==> !Usable(nodes, Guaranteed, request, c)
  {
    HeldExtends(nodes, [0], 0, "cpu");
    assert [0][..1] == [0] && [0][..0] == [];
    forall c | InRange(nodes, c) && |c| == 1 ensures !Usable(nodes, Guaranteed, request, c) {
      assert c == [0] && c[..0] == [];
      assert DistancesFrom(nodes, 0, c) == 256;
      assert Distances(nodes, c, c) == 256;
    }
  }

  /** `groups[p]` is usable, closest among the fitting, and comes first among the equally close fitting ones. */
  ghost predicate IsChoice(nodes: seq<NumaNode>, qos: QoS, request: ResourceList, groups: seq<seq<nat>>, p: int)
    requires forall q :: 0 <= q < |groups| ==> InRange(nodes, groups[q])
  {
    && 0 <= p < |groups| && Usable(nodes, qos, request, groups[p])
    && forall q :: 0 <= q < |groups| && Fits(nodes, qos, request, groups[q]) ==>
         if q < p then AvgDistance(nodes, groups[p]) < AvgDistance(nodes, groups[q])
         else AvgDistance(nodes, groups[p]) <= AvgDistance(nodes, groups[q])
  }

  ghost predicate IsClosest(nodes: seq<NumaNode>, groups: seq<seq<nat>>, p: int)
    requires 0 <= p < |groups| && forall q :: 0 <= q < |groups| ==> InRange(nodes, groups[q])
  {
    forall q :: 0 <= q < |groups| ==> AvgDistance(nodes, groups[p]) <= AvgDistance(nodes, groups[q])
  }

  ghost predicate AllInRange(nodes: seq<NumaNode>, groups: seq<seq<nat>>)
  {
    forall q :: 0 <= q < |groups| ==> InRange(nodes, groups[q])
  }

  /** Where the search stands before group `i`: the best usable group so far, none of them as close as `least`. */
  ghost predicate Searched(
    nodes: seq<NumaNode>, qos: QoS, request: ResourceList, groups: seq<seq<nat>>, i: nat, chosen: int,
    minDistance: real, least: real)
    requires AllInRange(nodes, groups) && i <= |groups|
  {
    && -1 <= chosen < i
    && (if chosen == -1 then
          minDistance == DISTANCE_LIMIT && forall q :: 0 <= q < i ==> !Usable(nodes, qos, request, groups[q])
        else
          && minDistance == AvgDistance(nodes, groups[chosen]) && Usable(nodes, qos, request, groups[chosen])
          && forall q :: 0 <= q < i && Fits(nodes, qos, request, groups[q]) ==>
               if q < chosen then minDistance < AvgDistance(nodes, groups[q])
               else minDistance <= AvgDistance(nodes, groups[q]))
    && forall q :: 0 <= q < i && Fits(nodes, qos, request, groups[q]) ==> least < AvgDistance(nodes, groups[q])
  }

  ghost predicate IsLowerBound(nodes: seq<NumaNode>, groups: seq<seq<nat>>, least: real)
    requires AllInRange(nodes, groups)
  {
    && least <= MAX_DISTANCE as real
    && (forall p :: 0 <= p < |groups| ==> least <= AvgDistance(nodes, groups[p]))
    && (least == MAX_DISTANCE as real || exists p :: 0 <= p < |groups| && least == AvgDistance(nodes, groups[p]))
  }

  lemma SearchGoesOn(
    nodes: seq<NumaNode>, qos: QoS, request: ResourceList, groups: seq<seq<nat>>, i: nat, chosen: int,
    minDistance: real, least: real)
    requires AllInRange(nodes, groups) && i < |groups|
    requires Searched(nodes, qos, request, groups, i, chosen, minDistance, least)
    requires Fits(nodes, qos, request, groups[i]) ==> least < AvgDistance(nodes, groups[i])
    ensures var taken := Fits(nodes, qos, request, groups[i]) && AvgDistance(nodes, groups[i]) < minDistance;
      Searched(nodes, qos, request, groups, i + 1, if taken then i else chosen,
               if taken then AvgDistance(nodes, groups[i]) else minDistance, least)
  {
    hide Fits, AvgDistance;
  }

  lemma SearchStops(
    nodes: seq<NumaNode>, qos: QoS, request: ResourceList, groups: seq<seq<nat>>, i: nat, chosen: int,
    minDistance: real, least: real)
    requires AllInRange(nodes, groups) && i < |groups| && IsLowerBound(nodes, groups, least)
    requires Searched(nodes, qos, request, groups, i, chosen, minDistance, least)
    requires Fits(nodes, qos, request, groups[i]) && least == AvgDistance(nodes, groups[i])
    ensures IsChoice(nodes, qos, request, groups, i)
    ensures IsClosest(nodes, groups, i) && AvgDistance(nodes, groups[i]) <= MAX_DISTANCE as real
  {
    hide Fits, AvgDistance;
  }

  lemma SearchEnds(
    nodes: seq<NumaNode>, qos: QoS, request: ResourceList, groups: seq<seq<nat>>, chosen: int, minDistance: real,
    least: real)
    requires AllInRange(nodes, groups) && IsLowerBound(nodes, groups, least)
    requires Searched(nodes, qos, request, groups, |groups|, chosen, minDistance, least)
    ensures chosen == -1 ==> forall q :: 0 <= q < |groups| ==> !Usable(nodes, qos, request, groups[q])
    ensures chosen >= 0 ==> IsChoice(nodes, qos, request, groups, chosen)
    ensures chosen >= 0 ==>
              !(IsClosest(nodes, groups, chosen) && AvgDistance(nodes, groups[chosen]) <= MAX_DISTANCE as real)
  {
    hide Fits, AvgDistance;
  }

  method FindSuitableCombination(nodes: seq<NumaNode>, qos: QoS, request: ResourceList, groups: seq<seq<nat>>, k: nat)
    returns (chosen: int, isMinDistance: bool)
    requires forall q :: 0 <= q < |groups| ==> IsGroup(groups[q], 0, |nodes|, k) && InRange(nodes, groups[q])
    ensures -1 <= chosen < |groups|
    ensures chosen == -1 ==> !isMinDistance && forall q :: 0 <= q < |groups| ==> !Usable(nodes, qos, request, groups[q])
    ensures chosen >= 0 ==> IsChoice(nodes, qos, request, groups, chosen)
    ensures chosen >= 0 ==> (isMinDistance <==>
              IsClosest(nodes, groups, chosen) && AvgDistance(nodes, groups[chosen]) <= MAX_DISTANCE as real)
  {
    hide Searched, IsLowerBound, Fits, AvgDistance, IsChoice, IsClosest;
    var least := MinAvgDistanceInCombinations(nodes, groups);
    assert IsLowerBound(nodes, groups, least) by {
      LowerBound(nodes, groups, least);
    }
    chosen := -1;
    var minDistance := DISTANCE_LIMIT;
    NothingSearched(nodes, qos, request, groups, least);
    for i := 0 to |groups|
      invariant Searched(nodes, qos, request, groups, i, chosen, minDistance, least)
    {
      var fit := GroupFits(nodes, qos, request, groups[i]);
      if fit {
        var distance := NodesAvgDistance(nodes, groups[i]);
        if distance == least {
          SearchStops(nodes, qos, request, groups, i, chosen, minDistance, least);
          return i, true;
        }
        LeastIsLess(nodes, groups, least, i);
        SearchGoesOn(nodes, qos, request, groups, i, chosen, minDistance, least);
        if distance < minDistance {
          minDistance, chosen := distance, i;
        }
      } else {
        SearchGoesOn(nodes, qos, request, groups, i, chosen, minDistance, least);
      }
    }
    SearchEnds(nodes, qos, request, groups, chosen, minDistance, least);
    ChosenInRange(nodes, qos, request, groups, chosen, minDistance, least);
    return chosen, false;
  }

  lemma LowerBound(nodes: seq<NumaNode>, groups: seq<seq<nat>>, least: real)
    requires AllInRange(nodes, groups) && least <= MAX_DISTANCE as real
    requires forall p :: 0 <= p < |groups| ==> least <= AvgDistance(nodes, groups[p])
    requires least == MAX_DISTANCE as real || exists p :: 0 <= p < |groups| && least == AvgDistance(nodes, groups[p])
    ensures IsLowerBound(nodes, groups, least)
  {
  }

  lemma LeastIsLess(nodes: seq<NumaNode>, groups: seq<seq<nat>>, least: real, i: nat)
    requires AllInRange(nodes, groups) && IsLowerBound(nodes, groups, least) && i < |groups|
    ensures least == AvgDistance(nodes, groups[i]) || least < AvgDistance(nodes, groups[i])
  {
  }

  lemma NothingSearched(nodes: seq<NumaNode>, qos: QoS, request: ResourceList, groups: seq<seq<nat>>, least: real)
    requires AllInRange(nodes, groups)
    ensures Searched(nodes, qos, request, groups, 0, -1, DISTANCE_LIMIT, least)
  {
  }

  lemma ChosenInRange(
    nodes: seq<NumaNode>, qos: QoS, request: ResourceList, groups: seq<seq<nat>>, chosen: int, minDistance: real,
    least: real)
    requires AllInRange(nodes, groups) && Searched(nodes, qos, request, groups, |groups|, chosen, minDistance, least)
    ensures -1 <= chosen < |groups|
  {
  }

  ghost predicate AnyGroup(nodes: seq<NumaNode>, c: seq<nat>)
  {
    |c| > 0 && IsGroup(c, 0, |nodes|, |c|) && InRange(nodes, c)
  }

  /** No usable group is smaller, and none of this size is closer. */
  ghost predicate IsLeast(nodes: seq<NumaNode>, qos: QoS, request: ResourceList, c: seq<nat>)
    requires AnyGroup(nodes, c)
  {
    && Usable(nodes, qos, request, c)
    && forall d :: AnyGroup(nodes, d) && Usable(nodes, qos, request, d) ==>
         |c| < |d| || (|c| == |d| && AvgDistance(nodes, c) <= AvgDistance(nodes, d))
  }

  /** The mask of a group; ids that do not fit a mask are not set in it. */
  function IdsOf(nodes: seq<NumaNode>, c: seq<nat>): set<int>
    requires InRange(nodes, c)
  {
    set i | 0 <= i < |c| && nodes[c[i]].id < MASK_BITS :: nodes[c[i]].id
  }

  lemma GroupsOfSize(nodes: seq<NumaNode>, k: nat)
    ensures forall q :: 0 <= q < |Combinations(0, |nodes|, k)| ==>
              IsGroup(Combinations(0, |nodes|, k)[q], 0, |nodes|, k) && InRange(nodes, Combinations(0, |nodes|, k)[q])
  {
    forall q | 0 <= q < |Combinations(0, |nodes|, k)|
      ensures IsGroup(Combinations(0, |nodes|, k)[q], 0, |nodes|, k)
    {
      CombinationsSound(0, |nodes|, k, q);
    }
  }

  /** The verdict on the generated list is a verdict on all groups of that size. */
  lemma ChoiceAmongAll(nodes: seq<NumaNode>, qos: QoS, request: ResourceList, k: nat, p: int, d: seq<nat>)
    requires AnyGroup(nodes, d) && |d| == k
    requires forall q :: 0 <= q < |Combinations(0, |nodes|, k)| ==> InRange(nodes, Combinations(0, |nodes|, k)[q])
    ensures p == -1 && (forall q :: 0 <= q < |Combinations(0, |nodes|, k)| ==>
        !Usable(nodes, qos, request, Combinations(0, |nodes|, k)[q])) ==>
              !Usable(nodes, qos, request, d)
    ensures IsChoice(nodes, qos, request, Combinations(0, |nodes|, k), p) && Fits(nodes, qos, request, d) ==>
              AvgDistance(nodes, Combinations(0, |nodes|, k)[p]) <= AvgDistance(nodes, d)
    ensures 0 <= p < |Combinations(0, |nodes|, k)| && IsClosest(nodes, Combinations(0, |nodes|, k), p) ==>
              AvgDistance(nodes, Combinations(0, |nodes|, k)[p]) <= AvgDistance(nodes, d)
  {
    var q := CombinationsComplete(0, |nodes|, k, d);
  }

  /**
    Returns the ids of a usable group of the least possible size and, of those, the closest;
    nothing only if no group is usable; and the flag exactly when the mean distance is at most 255
    and no group of that size, fitting or not, is closer.
   */
  method NumaNodesRequired(nodes: seq<NumaNode>, qos: QoS, request: ResourceList)
    returns (mask: Option<set<int>>, isMinDistance: bool, ghost group: seq<nat>)
    ensures mask.None? ==> !isMinDistance && forall d :: AnyGroup(nodes, d) ==> !Usable(nodes, qos, request, d)
    ensures mask.Some? ==> AnyGroup(nodes, group) && mask.value == IdsOf(nodes, group)
    ensures mask.Some? ==> IsLeast(nodes, qos, request, group)
    ensures mask.Some? ==> (isMinDistance <==>
              AvgDistance(nodes, group) <= MAX_DISTANCE as real
              && forall d :: AnyGroup(nodes, d) && |d| == |group| ==>
                  AvgDistance(nodes, group) <= AvgDistance(nodes, d))
  {
    group := [];
    for k := 1 to |nodes| + 1
      invariant forall d :: AnyGroup(nodes, d) && |d| < k ==> !Usable(nodes, qos, request, d)
    {
      var groups := Combinations(0, |nodes|, k);
      GroupsOfSize(nodes, k);
      var chosen, isMin := FindSuitableCombination(nodes, qos, request, groups, k);
      forall d | AnyGroup(nodes, d) && |d| == k
        ensures chosen == -1 ==> !Usable(nodes, qos, request, d)
        ensures chosen >= 0 && Fits(nodes, qos, request, d) ==>
            AvgDistance(nodes, groups[chosen]) <= AvgDistance(nodes, d)
        ensures chosen >= 0 && isMin ==> AvgDistance(nodes, groups[chosen]) <= AvgDistance(nodes, d)
      {
        ChoiceAmongAll(nodes, qos, request, k, chosen, d);
      }
      if chosen >= 0 {
        group := groups[chosen];
        var ids := CollectIds(nodes, groups[chosen]);
        assert !isMin && AvgDistance(nodes, group) <= MAX_DISTANCE as real ==>
            exists q :: 0 <= q < |groups| && AnyGroup(nodes, groups[q])
                     && AvgDistance(nodes, groups[q]) < AvgDistance(nodes, group);
        return Some(ids), isMin, group;
      }
    }
    assert forall d :: AnyGroup(nodes, d) ==> |d| <= |nodes| by {
      forall d | AnyGroup(nodes, d) ensures |d| <= |nodes| {
        GroupSize(d, 0, |nodes|);
      }
    }
    return None, false, group;
  }

  lemma {:induction false} GroupSize(d: seq<nat>, lo: nat, n: nat)
    requires lo <= n && IsGroup(d, lo, n, |d|)
    ensures |d| <= n - lo
    decreases |d|
  {
    if d != [] {
      GroupSize(d[1..], d[0] + 1, n);
    }
  }

  method CollectIds(nodes: seq<NumaNode>, c: seq<nat>) returns (ids: set<int>)
    requires InRange(nodes, c)
    ensures ids == IdsOf(nodes, c)
  {
    ids := {};
    for i := 0 to |c|
      invariant ids == set j | 0 <= j < i && nodes[c[j]].id < MASK_BITS :: nodes[c[j]].id
    {
      if nodes[c[i]].id < MASK_BITS {
        ids := ids + {nodes[c[i]].id};
      }
    }
  }

  // ----- taking a request out of a group

  ghost predicate Increasing(zones: seq<nat>)
  {
    forall i, j :: 0 <= i < j < |zones| ==> zones[i] < zones[j]
  }

  /** What is left of `r` on the `i`-th zone after a request of `q` drained the zones before it first. */
  ghost function DrainedLeft(nodes: seq<NumaNode>, zones: seq<nat>, i: nat, r: string, q: nat): nat
    requires InRange(nodes, zones) && i < |zones|
  {
    AtLeastZero(Quantity(nodes[zones[i]].resources, r) - AtLeastZero(q - Held(nodes, Members(zones[..i]), r)))
  }

  ghost predicate SameButFor(a: NumaNode, b: NumaNode, rs: set<string>)
  {
    && a.id == b.id && a.costs == b.costs && a.resources.Keys == b.resources.Keys
    && forall r :: r in a.resources && r !in rs ==> a.resources[r] == b.resources[r]
  }

  /** The resources in `rs` have been drained from `zones`; nothing else has changed. */
  ghost predicate IsDrained(before: seq<NumaNode>, after: seq<NumaNode>, zones: seq<nat>, request: ResourceList,
      rs: set<string>)
    requires InRange(before, zones)
  {
    && |after| == |before|
    && (forall z :: 0 <= z < |before| && z !in zones ==> after[z] == before[z])
    && (forall i :: 0 <= i < |zones| ==> SameButFor(before[zones[i]], after[zones[i]], rs))
    && (forall i, r :: 0 <= i < |zones| && r in rs ==>
          Quantity(after[zones[i]].resources, r) == DrainedLeft(before, zones, i, r, Quantity(request, r)))
  }

  /** One zone gives what it has, up to what is still missing. */
  method DrainNode(node: NumaNode, r: string, quantity: nat) returns (result: NumaNode, missing: nat)
    ensures SameButFor(node, result, {r})
    ensures Quantity(result.resources, r) == AtLeastZero(Quantity(node.resources, r) - quantity)
    ensures missing == AtLeastZero(quantity - Quantity(node.resources, r))
  {
    result, missing := node, quantity;
    if quantity != 0 && r in node.resources {
      var available := node.resources[r];
      if quantity >= available {
        missing := quantity - available;
        result := node.(resources := node.resources[r := 0]);
      } else {
        result := node.(resources := node.resources[r := available - quantity]);
        missing := 0;
      }
    }
  }

  lemma DrainedLeftOfPrefix(nodes: seq<NumaNode>, zones: seq<nat>, i: nat, j: nat, r: string, q: nat)
    requires InRange(nodes, zones) && j < i <= |zones|
    ensures DrainedLeft(nodes, zones[..i], j, r, q) == DrainedLeft(nodes, zones, j, r, q)
  {
    assert zones[..i][..j] == zones[..j];
  }

  lemma DrainNextZone(before: seq<NumaNode>, mid: seq<NumaNode>, zones: seq<nat>, i: nat, r: string, q: nat,
      result: NumaNode)
    requires InRange(before, zones) && Increasing(zones) && i < |zones|
    requires IsDrained(before, mid, zones[..i], map[r := q], {r})
    requires SameButFor(before[zones[i]], result, {r})
    requires Quantity(result.resources, r) == DrainedLeft(before, zones, i, r, q)
    ensures IsDrained(before, mid[zones[i] := result], zones[..i + 1], map[r := q], {r})
  {
    hide DrainedLeft, SameButFor;
    var after, done := mid[zones[i] := result], zones[..i + 1];
    forall j | 0 <= j < |done|
      ensures SameButFor(before[done[j]], after[done[j]], {r})
      ensures Quantity(after[done[j]].resources, r) == DrainedLeft(before, done, j, r, q)
    {
      DrainedLeftOfPrefix(before, zones, i + 1, j, r, q);
      assert done[j] == zones[j];
      if j < i {
        DrainedLeftOfPrefix(before, zones, i, j, r, q);
        assert zones[..i][j] == zones[j] && zones[j] != zones[i];
      }
    }
    forall z | 0 <= z < |before| && z !in done ensures after[z] == before[z] {
      assert zones[i] == done[i] && z !in zones[..i];
    }
  }

  /** The loop over the zones for one resource. */
  method DrainResource(nodes: array<NumaNode>, zones: seq<nat>, r: string, q: nat)
    requires InRange(nodes[..], zones) && Increasing(zones)
    modifies nodes
    ensures IsDrained(old(nodes[..]), nodes[..], zones, map[r := q], {r})
  {
    ghost var before := nodes[..];
    var quantity := q;
    for i := 0 to |zones|
      invariant quantity == AtLeastZero(q - Held(before, Members(zones[..i]), r))
      invariant IsDrained(before, nodes[..], zones[..i], map[r := q], {r})
    {
      assert zones[i] !in zones[..i];
      var result, missing := DrainNode(nodes[zones[i]], r, quantity);
      DrainNextZone(before, nodes[..], zones, i, r, q, result);
      HeldExtends(before, zones, i, r);
      nodes[zones[i]], quantity := result, missing;
    }
    assert zones[..|zones|] == zones;
  }

  /** Held amounts of a resource that was not touched are as before. */
  lemma DrainedKeepsOther(before: seq<NumaNode>, after: seq<NumaNode>, zones: seq<nat>, request: ResourceList,
      rs: set<string>, s: set<int>, r: string)
    requires InRange(before, zones) && IsDrained(before, after, zones, request, rs) && r !in rs
    ensures Held(after, s, r) == Held(before, s, r)
  {
    forall z | z in s ensures HeldBy(after, r)(z) == HeldBy(before, r)(z) {
      if 0 <= z < |before| && z in zones {
        var i :| 0 <= i < |zones| && zones[i] == z;
        assert SameButFor(before[zones[i]], after[zones[i]], rs);
      }
    }
    SumSame(s, HeldBy(after, r), HeldBy(before, r));
  }

  lemma DrainOneMore(start: seq<NumaNode>, mid: seq<NumaNode>, end: seq<NumaNode>, zones: seq<nat>,
      request: ResourceList, rs: set<string>, r: string)
    requires InRange(start, zones) && r in request && r !in rs
    requires IsDrained(start, mid, zones, request, rs) && IsDrained(mid, end, zones, map[r := request[r]], {r})
    ensures IsDrained(start, end, zones, request, rs + {r})
  {
    forall i | 0 <= i < |zones|
      ensures SameButFor(start[zones[i]], end[zones[i]], rs + {r})
      ensures Quantity(end[zones[i]].resources, r) == DrainedLeft(start, zones, i, r, request[r])
    {
      assert SameButFor(start[zones[i]], mid[zones[i]], rs);
      assert SameButFor(mid[zones[i]], end[zones[i]], {r});
      DrainedKeepsOther(start, mid, zones, request, rs, Members(zones[..i]), r);
    }
    forall i, x | 0 <= i < |zones| && x in rs
      ensures Quantity(end[zones[i]].resources, x) == DrainedLeft(start, zones, i, x, Quantity(request, x))
    {
      assert SameButFor(mid[zones[i]], end[zones[i]], {r});
    }
  }

  method SubtractFromNUMAs(request: ResourceList, nodes: array<NumaNode>, zones: seq<nat>)
    requires InRange(nodes[..], zones) && Increasing(zones)
    modifies nodes
    ensures IsDrained(old(nodes[..]), nodes[..], zones, request, request.Keys)
  {
    ghost var before := nodes[..];
    var left := request.Keys;
    ghost var seen: set<string> := {};
    while left != {}
      invariant left + seen == request.Keys && left !! seen
      invariant IsDrained(before, nodes[..], zones, request, seen)
      decreases left
    {
      var r :| r in left;
      ghost var mid := nodes[..];
      DrainResource(nodes, zones, r, request[r]);
      DrainOneMore(before, mid, nodes[..], zones, request, seen, r);
      left, seen := left - {r}, seen + {r};
    }
    assert seen == request.Keys;
  }

  lemma {:induction false} DrainedPrefix(before: seq<NumaNode>, after: seq<NumaNode>, zones: seq<nat>, r: string,
      q: nat, k: nat)
    requires InRange(before, zones) && InRange(after, zones) && Increasing(zones) && k <= |zones|
    requires forall i :: 0 <= i < |zones| ==>
               Quantity(after[zones[i]].resources, r) == DrainedLeft(before, zones, i, r, q)
    ensures Held(after, Members(zones[..k]), r) == AtLeastZero(Held(before, Members(zones[..k]), r) - q)
    decreases k
  {
    hide Held, Members, Quantity;
    if k == 0 {
      NothingHeld(before, r);
      NothingHeld(after, r);
    } else {
      DrainedPrefix(before, after, zones, r, q, k - 1);
      HeldExtends(before, zones, k - 1, r);
      HeldExtends(after, zones, k - 1, r);
      assert Quantity(after[zones[k - 1]].resources, r) == DrainedLeft(before, zones, k - 1, r, q);
    }
  }

  lemma NothingHeld(nodes: seq<NumaNode>, r: string)
    ensures Held(nodes, Members([]), r) == 0
  {
  }

  /** Zones are drained in order: one gives something only after all before it have given everything. */
  lemma DrainsInOrder(
    before: seq<NumaNode>, after: seq<NumaNode>, zones: seq<nat>, request: ResourceList, r: string, i: nat, j: nat)
    requires InRange(before, zones) && Increasing(zones) && IsDrained(before, after, zones, request, request.Keys)
    requires i < j < |zones| && InRange(after, zones)
    requires Quantity(after[zones[j]].resources, r) < Quantity(before[zones[j]].resources, r)
    ensures Quantity(after[zones[i]].resources, r) == 0
  {
    hide SameButFor, Quantity;
    if r !in request {
      Untouched(before[zones[j]], after[zones[j]], request.Keys, r);
    } else {
      HeldExtends(before, zones, i, r);
      assert Members(zones[..i + 1]) <= Members(zones[..j]);
      SumSubset(Members(zones[..i + 1]), Members(zones[..j]), HeldBy(before, r));
      assert Quantity(after[zones[i]].resources, r) == DrainedLeft(before, zones, i, r, Quantity(request, r));
      assert Quantity(after[zones[j]].resources, r) == DrainedLeft(before, zones, j, r, Quantity(request, r));
    }
  }

  lemma Untouched(a: NumaNode, b: NumaNode, rs: set<string>, r: string)
    requires SameButFor(a, b, rs) && r !in rs
    ensures Quantity(a.resources, r) == Quantity(b.resources, r)
  {
  }

  ghost predicate IsIndex(nodes: seq<NumaNode>, z: int)
  {
    0 <= z < |nodes|
  }

  ghost function Everything(nodes: seq<NumaNode>): set<int>
  {
    set z | 0 <= z < |nodes| && IsIndex(nodes, z)
  }

  /** Of each resource exactly the request leaves the node, or all the group had if that is less. */
  lemma DrainConserves(before: seq<NumaNode>, after: seq<NumaNode>, zones: seq<nat>, request: ResourceList, r: string)
    requires InRange(before, zones) && Increasing(zones) && IsDrained(before, after, zones, request, request.Keys)
    ensures var had := Held(before, Members(zones), r);
      var removed := if Quantity(request, r) <= had then Quantity(request, r) else had;
      && Held(after, Members(zones), r) == had - removed
      && Held(after, Everything(after), r) == Held(before, Everything(before), r) - removed
  {
    var all, some := Everything(before), Members(zones);
    assert zones[..|zones|] == zones;
    if r in request {
      DrainedPrefix(before, after, zones, r, request[r], |zones|);
    } else {
      DrainedKeepsOther(before, after, zones, request, request.Keys, some, r);
    }
    SumSame(all - some, HeldBy(after, r), HeldBy(before, r));
    SumUnion(some, all - some, HeldBy(before, r));
    SumUnion(some, all - some, HeldBy(after, r));
    assert some + (all - some) == all;
    assert Everything(after) == all;
  }

  // ----- container by container

  /** The request names nothing that any NUMA node lists. */
  predicate OnlyNonNUMAResources(nodes: seq<NumaNode>, request: ResourceList)
  {
    forall r, z :: r in request && 0 <= z < |nodes| ==> r !in nodes[z].resources
  }

  /** Zones are listed at their own ids, which fit a mask: the subtraction indexes the list with ids. */
  ghost predicate AtOwnIds(nodes: seq<NumaNode>)
  {
    |nodes| <= MASK_BITS && forall z :: 0 <= z < |nodes| ==> nodes[z].id == z
  }

  /** One container: skipped, or placed on a least group, whose nodes it drains. */
  ghost predicate Placement(before: seq<NumaNode>, after: seq<NumaNode>, qos: QoS, request: ResourceList,
      group: seq<nat>, closest: bool)
  {
    if OnlyNonNUMAResources(before, request) then
      after == before && group == [] && closest
    else
      && AnyGroup(before, group) && IsLeast(before, qos, request, group)
      && (closest <==>
            AvgDistance(before, group) <= MAX_DISTANCE as real
            && forall d :: AnyGroup(before, d) && |d| == |group| ==>
                AvgDistance(before, group) <= AvgDistance(before, d))
      && IsDrained(before, after, group, request, request.Keys)
  }

  /** The whole loop: the node list before each container and after the last. */
  ghost predicate IsTrace(states: seq<seq<NumaNode>>, groups: seq<seq<nat>>, closest: seq<bool>, qos: QoS,
      containers: seq<ResourceList>)
  {
    && |states| == |groups| + 1 && |closest| == |groups| <= |containers|
    && forall i :: 0 <= i < |groups| ==> Placement(states[i], states[i + 1], qos, containers[i], groups[i], closest[i])
  }

  ghost function LargestGroup(groups: seq<seq<nat>>): nat
  {
    if groups == [] then 0 else
      var rest := LargestGroup(groups[..|groups| - 1]);
      if |groups[|groups| - 1]| > rest then |groups[|groups| - 1]| else rest
  }

  function NormalizeScore(count: nat, optimal: bool): int
  {
    var step := MAX_NODE_SCORE / HIGHEST_NUMA_ID;
    MAX_NODE_SCORE - count * step + if optimal then step / 2 else 0
  }

  /** In plain words: every node costs 12 points, and the closest groups gain 6. */
  lemma NormalizeScoreMeans(count: nat, optimal: bool)
    ensures NormalizeScore(count, optimal) == 100 - 12 * count + if optimal then 6 else 0
  {
  }

  /** Fewer nodes always score higher, and among equally many the closest ones do. */
  lemma FewerNodesScoreHigher(few: nat, many: nat, a: bool, b: bool)
    ensures few < many ==> NormalizeScore(few, a) > NormalizeScore(many, b)
    ensures NormalizeScore(few, true) > NormalizeScore(few, false)
  {
    NormalizeScoreMeans(few, a);
    NormalizeScoreMeans(many, b);
  }

  /** No group is larger, and some group is as large unless there is none. */
  lemma {:induction false} LargestGroupMeans(groups: seq<seq<nat>>)
    ensures forall i :: 0 <= i < |groups| ==> |groups[i]| <= LargestGroup(groups)
    ensures LargestGroup(groups) == 0 || exists i :: 0 <= i < |groups| && |groups[i]| == LargestGroup(groups)
  {
    if groups != [] {
      var rest := groups[..|groups| - 1];
      LargestGroupMeans(rest);
      forall i | 0 <= i < |groups| ensures |groups[i]| <= LargestGroup(groups) {
        if i < |rest| {
          assert rest[i] == groups[i];
        }
      }
      if LargestGroup(groups) == LargestGroup(rest) && LargestGroup(rest) != 0 {
        var i :| 0 <= i < |rest| && |rest[i]| == LargestGroup(rest);
        assert groups[i] == rest[i];
      }
    }
  }

  /** The bits of a mask, lowest first. */
  method GetBits(mask: set<int>) returns (bits: seq<nat>)
    requires forall id :: id in mask ==> 0 <= id < MASK_BITS
    ensures Increasing(bits) && forall id: int :: id in mask <==> id >= 0 && id in bits
  {
    bits := [];
    for i := 0 to MASK_BITS
      invariant Increasing(bits)
      invariant forall j :: 0 <= j < |bits| ==> bits[j] < i
      invariant forall id: int :: id in mask && id < i <==> id >= 0 && id in bits
    {
      if i in mask {
        bits := bits + [i];
      }
    }
  }

  lemma LastOfIncreasing(a: seq<nat>, x: nat)
    requires Increasing(a) && a != []
    ensures x in a[..|a| - 1] <==> x in a && x != a[|a| - 1]
  {
    if x in a && x != a[|a| - 1] {
      var i :| 0 <= i < |a| && a[i] == x;
      assert a[..|a| - 1][i] == x;
    }
  }

  /** An increasing listing of a set is the only one. */
  lemma {:induction false} IncreasingUnique(a: seq<nat>, b: seq<nat>)
    requires Increasing(a) && Increasing(b) && forall x :: x in a <==> x in b
    ensures a == b
    decreases |a|
  {
    assert a != [] ==> a[0] in b;
    assert b != [] ==> b[0] in a;
    if a != [] {
      var la, lb := a[|a| - 1], b[|b| - 1];
      assert la in b && lb in a;
      assert la == lb;
      var a', b' := a[..|a| - 1], b[..|b| - 1];
      forall x ensures x in a' <==> x in b' {
        LastOfIncreasing(a, x);
        LastOfIncreasing(b, x);
      }
      IncreasingUnique(a', b');
      assert a == a' + [la] && b == b' + [lb];
    }
  }

  lemma MaskIsGroup(nodes: seq<NumaNode>, group: seq<nat>, bits: seq<nat>)
    requires AtOwnIds(nodes) && AnyGroup(nodes, group) && Increasing(bits)
    requires forall id: int :: id in IdsOf(nodes, group) <==> id >= 0 && id in bits
    ensures bits == group
  {
    forall x: nat ensures x in bits <==> x in group {
      assert x in bits <==> x as int in IdsOf(nodes, group);
      if x in group {
        var i :| 0 <= i < |group| && group[i] == x;
        assert nodes[group[i]].id == x;
      }
    }
    IncreasingUnique(bits, group);
  }

  /** The shape a drained list shares with the list it came from. */
  ghost predicate SameNodes(a: seq<NumaNode>, b: seq<NumaNode>)
  {
    && |a| == |b|
    && forall z :: 0 <= z < |a| ==> SameButFor(a[z], b[z], a[z].resources.Keys)
  }

  lemma DrainedSameNodes(before: seq<NumaNode>, after: seq<NumaNode>, zones: seq<nat>, request: ResourceList)
    requires InRange(before, zones) && IsDrained(before, after, zones, request, request.Keys)
    ensures SameNodes(before, after)
  {
    forall z | 0 <= z < |before| ensures SameButFor(before[z], after[z], before[z].resources.Keys) {
      if z in zones {
        var i :| 0 <= i < |zones| && zones[i] == z;
        assert SameButFor(before[zones[i]], after[zones[i]], request.Keys);
      }
    }
  }

  /** One turn of the loop. A container without a usable group leaves the nodes as they are. */
  method PlaceContainer(nodes: array<NumaNode>, qos: QoS, request: ResourceList)
    returns (fits: bool, size: nat, isClosest: bool, ghost group: seq<nat>)
    requires AtOwnIds(nodes[..])
    modifies nodes
    ensures fits ==> Placement(old(nodes[..]), nodes[..], qos, request, group, isClosest) && size == |group|
    ensures fits ==> SameNodes(old(nodes[..]), nodes[..])
    ensures fits ==> (group == [] <==>
              forall r, z :: r in request && 0 <= z < nodes.Length ==> r !in old(nodes[..])[z].resources)
    ensures !fits ==> nodes[..] == old(nodes[..])
    ensures !fits ==> forall d :: AnyGroup(nodes[..], d) ==> !Usable(nodes[..], qos, request, d)
  {
    if OnlyNonNUMAResources(nodes[..], request) {
      return true, 0, true, [];
    }
    var mask, isMin, least := NumaNodesRequired(nodes[..], qos, request);
    if mask.None? {
      return false, 0, false, [];
    }
    var bits := GetBits(mask.value);
    MaskIsGroup(nodes[..], least, bits);
    ghost var before := nodes[..];
    SubtractFromNUMAs(request, nodes, bits);
    DrainedSameNodes(before, nodes[..], bits, request);
    return true, |bits|, isMin, least;
  }

  lemma TraceExtends(
    states: seq<seq<NumaNode>>, groups: seq<seq<nat>>, closest: seq<bool>, qos: QoS, containers: seq<ResourceList>,
    after: seq<NumaNode>, group: seq<nat>, isClosest: bool)
    requires IsTrace(states, groups, closest, qos, containers) && |groups| < |containers|
    requires Placement(states[|groups|], after, qos, containers[|groups|], group, isClosest)
    ensures IsTrace(states + [after], groups + [group], closest + [isClosest], qos, containers)
    ensures LargestGroup(groups + [group]) == if |group| > LargestGroup(groups) then |group| else LargestGroup(groups)
  {
    hide Placement;
    assert (groups + [group])[..|groups|] == groups;
    var states', groups', closest' := states + [after], groups + [group], closest + [isClosest];
    forall i | 0 <= i < |groups'|
      ensures Placement(states'[i], states'[i + 1], qos, containers[i], groups'[i], closest'[i])
    {
      if i < |groups| {
        assert Placement(states[i], states[i + 1], qos, containers[i], groups[i], closest[i]);
      }
    }
  }

  /**
    Scores a pod by the largest group any of its containers needs, when each is placed in what the
    ones before it left. Returns the lowest score as soon as a container has no usable group.
   */
  method LeastNUMAContainerScopeScore(zones: seq<Zone>, qos: QoS, containers: seq<ResourceList>)
    returns (score: int, ghost states: seq<seq<NumaNode>>, ghost groups: seq<seq<nat>>, ghost closest: seq<bool>)
    requires AtOwnIds(NodesOf(zones))
    ensures IsTrace(states, groups, closest, qos, containers) && states[0] == NodesOf(zones)
    ensures forall i :: 0 <= i < |states| ==> SameNodes(states[0], states[i])
    ensures |groups| < |containers| ==>
              && score == MIN_NODE_SCORE
              && forall d :: AnyGroup(states[|groups|], d) ==> !Usable(states[|groups|], qos, containers[|groups|], d)
    ensures |groups| == |containers| ==>
              score == if LargestGroup(groups) == 0 then MAX_NODE_SCORE
                       else NormalizeScore(LargestGroup(groups), false !in closest)
    ensures |groups| == |containers| ==>
              score == if LargestGroup(groups) == 0 then 100
                       else 100 - 12 * LargestGroup(groups) + if false !in closest then 6 else 0
    ensures |groups| < |containers| ==> score == 0
  {
    hide Placement, SameNodes, AtOwnIds, AnyGroup, Usable, Fits, NodesOf, NormalizeScore;
    var list := CreateNUMANodeList(zones);
    var nodes := new NumaNode[|list|](i requires 0 <= i < |list| => list[i]);
    assert nodes[..] == list;
    SameNodesReflexive(list);
    var maxCount, allClosest := 0, true;
    states, groups, closest := [list], [], [];
    for i := 0 to |containers|
      invariant |groups| == i && IsTrace(states, groups, closest, qos, containers)
      invariant states[0] == list && states[i] == nodes[..]
      invariant forall j :: 0 <= j < |states| ==> SameNodes(list, states[j])
      invariant maxCount == LargestGroup(groups)
      invariant allClosest <==> false !in closest
    {
      SameNodesKeep(list, nodes[..]);
      var fits, size, isMin, group := PlaceContainer(nodes, qos, containers[i]);
      if !fits {
        return MIN_NODE_SCORE, states, groups, closest;
      }
      allClosest := allClosest && isMin;
      if size > maxCount {
        maxCount := size;
      }
      SameNodesTransitive(list, states[i], nodes[..]);
      TraceExtends(states, groups, closest, qos, containers, nodes[..], group, isMin);
      states, groups, closest := states + [nodes[..]], groups + [group], closest + [isMin];
    }
    if maxCount == 0 {
      return MAX_NODE_SCORE, states, groups, closest;
    }
    NormalizeScoreMeans(maxCount, allClosest);
    return NormalizeScore(maxCount, allClosest), states, groups, closest;
  }

  lemma SameNodesReflexive(a: seq<NumaNode>)
    ensures SameNodes(a, a)
  {
  }

  lemma SameNodesKeep(a: seq<NumaNode>, b: seq<NumaNode>)
    requires SameNodes(a, b)
    ensures AtOwnIds(a) ==> AtOwnIds(b)
  {
  }

  lemma SameNodesTransitive(a: seq<NumaNode>, b: seq<NumaNode>, c: seq<NumaNode>)
    requires SameNodes(a, b) && SameNodes(b, c)
    ensures SameNodes(a, c)
  {
  }

  /** What the containers that were not skipped asked for. */
  ghost function Asked(nodes: seq<NumaNode>, containers: seq<ResourceList>, r: string): nat
  {
    if containers == [] then 0 else
      var last := containers[|containers| - 1];
      Asked(nodes, containers[..|containers| - 1], r)
        + if OnlyNonNUMAResources(nodes, last) then 0 else Quantity(last, r)
  }

  lemma PlacementConserves(before: seq<NumaNode>, after: seq<NumaNode>, request: ResourceList, group: seq<nat>,
      closest: bool, r: string)
    requires Placement(before, after, Guaranteed, request, group, closest)
    ensures Held(after, Everything(after), r)
            + (if OnlyNonNUMAResources(before, request) then 0 else Quantity(request, r))
         == Held(before, Everything(before), r)
  {
    if !OnlyNonNUMAResources(before, request) {
      DrainConserves(before, after, group, request, r);
      assert Quantity(request, r) <= Held(before, Members(group), r);
    }
  }

  /**
    Conservation for a Guaranteed pod: at every point of the loop, what the containers placed so
    far asked for is exactly what has left the node's zones, resource by resource.
   */
  lemma {:induction false} GuaranteedIsConserved(
    states: seq<seq<NumaNode>>, groups: seq<seq<nat>>, closest: seq<bool>, containers: seq<ResourceList>, i: nat,
    r: string)
    requires IsTrace(states, groups, closest, Guaranteed, containers) && i < |states|
    requires forall j :: 0 <= j < |states| ==> SameNodes(states[0], states[j])
    ensures Held(states[i], Everything(states[i]), r) + Asked(states[0], containers[..i], r)
         == Held(states[0], Everything(states[0]), r)
    decreases i
  {
    hide Placement, Held;
    if i > 0 {
      GuaranteedIsConserved(states, groups, closest, containers, i - 1, r);
      assert containers[..i][..i - 1] == containers[..i - 1];
      var k := i - 1;
      assert Placement(states[k], states[k + 1], Guaranteed, containers[k], groups[k], closest[k]);
      PlacementConserves(states[k], states[k + 1], containers[k], groups[k], closest[k], r);
      assert SameNodes(states[0], states[k]);
      assert OnlyNonNUMAResources(states[0], containers[k]) <==> OnlyNonNUMAResources(states[k], containers[k]);
    }
  }
}
