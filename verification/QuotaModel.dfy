/**
  Elastic quotas as values: how pods are accounted to the quota of their namespace, and the
  comparisons the capacity plugin makes against min and max.
 */
module QuotaModel {
  import opened NodeTopology
  import opened Pods
  import opened Sums

  /** Bound for a maximum that is not given. */
  const UPPER_BOUND_OF_MAX := 0x7fff_ffff_ffff_ffff

  /** Bound for a minimum that is not given. */
  const LOWER_BOUND_OF_MIN := 0

  // ----- resource vectors, dimension by dimension

  datatype Dim = MilliCpu | Memory | Ephemeral | PodNumber | Scalar(name: string)

  function ScalarOf(r: Resource, name: string): int
  {
    if name in r.scalars then r.scalars[name] else 0
  }

  function Get(r: Resource, d: Dim): int
  {
    match d
    case MilliCpu => r.milliCpu
    case Memory => r.memory
    case Ephemeral => r.ephemeral
    case PodNumber => r.podNumber
    case Scalar(name) => ScalarOf(r, name)
  }

  function Plus(a: Resource, b: Resource): (r: Resource)
    ensures forall d :: Get(r, d) == Get(a, d) + Get(b, d)
  {
    Resource(a.milliCpu + b.milliCpu, a.memory + b.memory, a.ephemeral + b.ephemeral, a.podNumber + b.podNumber,
             map n | n in a.scalars.Keys + b.scalars.Keys :: ScalarOf(a, n) + ScalarOf(b, n))
  }

  function Minus(a: Resource, b: Resource): (r: Resource)
    ensures forall d :: Get(r, d) == Get(a, d) - Get(b, d)
  {
    Resource(a.milliCpu - b.milliCpu, a.memory - b.memory, a.ephemeral - b.ephemeral, a.podNumber - b.podNumber,
             map n | n in a.scalars.Keys + b.scalars.Keys :: ScalarOf(a, n) - ScalarOf(b, n))
  }

  ghost predicate NonNegative(r: Resource)
  {
    forall d :: 0 <= Get(r, d)
  }

  /** The comparison looks at scalar resources only where its first operand names them. */
  predicate IsChecked(x: Resource, d: Dim)
  {
    d.Scalar? ==> d.name in x.scalars
  }

  function Limit(y: Resource, d: Dim, bound: int): int
  {
    if d.Scalar? && d.name !in y.scalars then bound else Get(y, d)
  }

  /** x1 + x2 exceeds y somewhere, with `bound` standing in for scalar resources y does not name. */
  predicate Exceeds(x1: Resource, x2: Resource, y: Resource, bound: int)
  {
    || x1.milliCpu + x2.milliCpu > y.milliCpu
    || x1.memory + x2.memory > y.memory
    || x1.ephemeral + x2.ephemeral > y.ephemeral
    || x1.podNumber + x2.podNumber > y.podNumber
    || exists n :: n in x1.scalars && x1.scalars[n] + ScalarOf(x2, n) > (if n in y.scalars then y.scalars[n] else bound)
  }

  ghost predicate ExceedsIn(x1: Resource, x2: Resource, y: Resource, bound: int, d: Dim)
  {
    IsChecked(x1, d) && Get(x1, d) + Get(x2, d) > Limit(y, d, bound)
  }

  /** The chain of comparisons is a comparison in every dimension that is checked. */
  lemma ExceedsSomewhere(x1: Resource, x2: Resource, y: Resource, bound: int)
    ensures Exceeds(x1, x2, y, bound) <==> exists d :: ExceedsIn(x1, x2, y, bound, d)
  {
    if Exceeds(x1, x2, y, bound) {
      if n :| n in x1.scalars && x1.scalars[n] + ScalarOf(x2, n) > (if n in y.scalars then y.scalars[n] else bound) {
        assert ExceedsIn(x1, x2, y, bound, Scalar(n));
      } else {
        assert ExceedsIn(x1, x2, y, bound, MilliCpu) || ExceedsIn(x1, x2, y, bound, Memory)
            || ExceedsIn(x1, x2, y, bound, Ephemeral) || ExceedsIn(x1, x2, y, bound, PodNumber);
      }
    }
    if d :| ExceedsIn(x1, x2, y, bound, d) {
      match d {
        case Scalar(n) => assert n in x1.scalars;
        case _ =>
      }
    }
  }

  /** Larger operands exceed whatever smaller ones do. */
  lemma ExceedsIsMonotone(a1: Resource, a2: Resource, b1: Resource, b2: Resource, y: Resource, bound: int)
    requires a1.scalars.Keys <= b1.scalars.Keys
    requires forall d :: Get(a1, d) <= Get(b1, d) && Get(a2, d) <= Get(b2, d)
    requires Exceeds(a1, a2, y, bound)
    ensures Exceeds(b1, b2, y, bound)
  {
    ExceedsSomewhere(a1, a2, y, bound);
    var d :| ExceedsIn(a1, a2, y, bound, d);
    assert ExceedsIn(b1, b2, y, bound, d);
    ExceedsSomewhere(b1, b2, y, bound);
  }

  // ----- one quota

  datatype Quota = Quota(namespace: string, pods: set<string>, min: Resource, max: Resource, used: Resource)

  datatype Spec = Spec(min: Option<Resource>, max: Option<Resource>)

  function BoundFor(bound: int): Resource
  {
    Resource(bound, bound, bound, 0, map[])
  }

  function NewQuota(namespace: string, spec: Spec): Quota
  {
    Quota(namespace, {},
          if spec.min.Some? then spec.min.value else BoundFor(LOWER_BOUND_OF_MIN),
          if spec.max.Some? then spec.max.value else BoundFor(UPPER_BOUND_OF_MAX),
          Nothing)
  }

  /** A pod without a UID has no key and is not accounted. */
  function WithPod(q: Quota, p: Pod): Quota
  {
    if p.uid == "" || p.uid in q.pods then q else q.(pods := q.pods + {p.uid}, used := Plus(q.used, p.request))
  }

  function WithoutPod(q: Quota, p: Pod): Quota
  {
    if p.uid == "" || p.uid !in q.pods then q else q.(pods := q.pods - {p.uid}, used := Minus(q.used, p.request))
  }

  predicate UsedOverMin(q: Quota)
  {
    Exceeds(q.used, Nothing, q.min, LOWER_BOUND_OF_MIN)
  }

  predicate UsedOverMinWith(q: Quota, request: Resource)
  {
    Exceeds(request, q.used, q.min, LOWER_BOUND_OF_MIN)
  }

  predicate UsedOverMaxWith(q: Quota, request: Resource)
  {
    Exceeds(request, q.used, q.max, UPPER_BOUND_OF_MAX)
  }

  /** With minimums that are not negative, being over min is being over it in some dimension. */
  lemma OverMinSomewhere(q: Quota)
    requires NonNegative(q.min)
    ensures UsedOverMin(q) <==> exists d :: Get(q.used, d) > Get(q.min, d)
  {
    ExceedsSomewhere(q.used, Nothing, q.min, LOWER_BOUND_OF_MIN);
    forall d ensures ExceedsIn(q.used, Nothing, q.min, LOWER_BOUND_OF_MIN, d) <==> Get(q.used, d) > Get(q.min, d) {
      assert Get(Nothing, d) == 0;
      assert 0 <= Get(q.min, d);
    }
  }

  /** In plain words: some dimension the use names is above the min. */
  lemma UsedOverMinMeans(q: Quota)
    ensures UsedOverMin(q) <==>
      exists d: Dim :: (d.Scalar? ==> d.name in q.used.scalars) && Get(q.used, d) > Get(q.min, d)
  {
    ExceedsSomewhere(q.used, Nothing, q.min, LOWER_BOUND_OF_MIN);
    forall d ensures ExceedsIn(q.used, Nothing, q.min, LOWER_BOUND_OF_MIN, d) <==>
                     (d.Scalar? ==> d.name in q.used.scalars) && Get(q.used, d) > Get(q.min, d) {
      assert Get(Nothing, d) == 0;
    }
  }

  /** In plain words: in some dimension the request names, the use with it is above the min. */
  lemma UsedOverMinWithMeans(q: Quota, request: Resource)
    ensures UsedOverMinWith(q, request) <==>
      exists d: Dim :: (d.Scalar? ==> d.name in request.scalars) && Get(q.used, d) + Get(request, d) > Get(q.min, d)
  {
    ExceedsSomewhere(request, q.used, q.min, LOWER_BOUND_OF_MIN);
    forall d ensures ExceedsIn(request, q.used, q.min, LOWER_BOUND_OF_MIN, d) <==>
                     (d.Scalar? ==> d.name in request.scalars) && Get(q.used, d) + Get(request, d) > Get(q.min, d) {
    }
  }

  /** In plain words: the same for the max, which bounds scalar resources it does not name by the largest integer. */
  lemma UsedOverMaxWithMeans(q: Quota, request: Resource)
    ensures UsedOverMaxWith(q, request) <==>
      exists d: Dim ::
        && (d.Scalar? ==> d.name in request.scalars)
        && Get(q.used, d) + Get(request, d)
           > if d.Scalar? && d.name !in q.max.scalars then 0x7fff_ffff_ffff_ffff else Get(q.max, d)
  {
    ExceedsSomewhere(request, q.used, q.max, UPPER_BOUND_OF_MAX);
    forall d ensures ExceedsIn(request, q.used, q.max, UPPER_BOUND_OF_MAX, d) <==>
        && (d.Scalar? ==> d.name in request.scalars)
        && Get(q.used, d) + Get(request, d)
           > if d.Scalar? && d.name !in q.max.scalars then 0x7fff_ffff_ffff_ffff else Get(q.max, d) {
    }
  }

  // ----- all quotas

  type Quotas = map<string, Quota>

  function AddTo(qs: Quotas, p: Pod): Quotas
  {
    if p.namespace in qs then qs[p.namespace := WithPod(qs[p.namespace], p)] else qs
  }

  function RemoveFrom(qs: Quotas, p: Pod): Quotas
  {
    if p.namespace in qs then qs[p.namespace := WithoutPod(qs[p.namespace], p)] else qs
  }

  ghost function UsedIn(qs: Quotas, d: Dim): string -> int
  {
    n => if n in qs then Get(qs[n].used, d) else 0
  }

  ghost function MinIn(qs: Quotas, d: Dim): string -> int
  {
    n => if n in qs then Get(qs[n].min, d) else 0
  }

  ghost function TotalUsed(qs: Quotas, d: Dim): int
  {
    Sum(qs.Keys, UsedIn(qs, d))
  }

  ghost function TotalMin(qs: Quotas, d: Dim): int
  {
    Sum(qs.Keys, MinIn(qs, d))
  }

  ghost predicate MinsNonNegative(qs: Quotas)
  {
    forall n :: n in qs ==> NonNegative(qs[n].min)
  }

  /** All quotas together, with the request on top, exceed their joint minimum in some dimension. */
  ghost predicate AggregatedOverMin(qs: Quotas, request: Resource)
  {
    exists d :: TotalUsed(qs, d) + Get(request, d) > TotalMin(qs, d)
  }

  method AggregatedUsedOverMinWith(qs: Quotas, request: Resource) returns (over: bool)
    requires MinsNonNegative(qs)
    ensures over <==> AggregatedOverMin(qs, request)
  {
    var used, min := Nothing, Nothing;
    var left := qs.Keys;
    ghost var seen: set<string> := {};
    while left != {}
      invariant left + seen == qs.Keys && left !! seen
      invariant forall d :: Get(used, d) == Sum(seen, UsedIn(qs, d))
      invariant forall d :: Get(min, d) == Sum(seen, MinIn(qs, d))
      decreases left
    {
      var n :| n in left;
      forall d ensures Sum(seen + {n}, UsedIn(qs, d)) == Sum(seen, UsedIn(qs, d)) + Get(qs[n].used, d)
               ensures Sum(seen + {n}, MinIn(qs, d)) == Sum(seen, MinIn(qs, d)) + Get(qs[n].min, d) {
        SumTake(seen + {n}, n, UsedIn(qs, d));
        SumTake(seen + {n}, n, MinIn(qs, d));
        assert seen + {n} - {n} == seen;
      }
      used, min := Plus(used, qs[n].used), Plus(min, qs[n].min);
      left, seen := left - {n}, seen + {n};
    }
    assert seen == qs.Keys;
    used := Plus(used, request);
    over := Exceeds(used, Nothing, min, LOWER_BOUND_OF_MIN);
    SummedOverMin(qs, request, used, min);
  }

  lemma SummedOverMin(qs: Quotas, request: Resource, used: Resource, min: Resource)
    requires MinsNonNegative(qs)
    requires forall d :: Get(used, d) == TotalUsed(qs, d) + Get(request, d)
    requires forall d :: Get(min, d) == TotalMin(qs, d)
    ensures Exceeds(used, Nothing, min, LOWER_BOUND_OF_MIN) <==> AggregatedOverMin(qs, request)
  {
    ExceedsSomewhere(used, Nothing, min, LOWER_BOUND_OF_MIN);
    forall d ensures ExceedsIn(used, Nothing, min, LOWER_BOUND_OF_MIN, d) <==>
                     TotalUsed(qs, d) + Get(request, d) > TotalMin(qs, d) {
      SumNonNegative(qs.Keys, MinIn(qs, d));
      assert Get(Nothing, d) == 0;
    }
  }

  /** Moving one quota's use moves the total by as much. */
  lemma TotalUsedMoves(qs: Quotas, n: string, q: Quota, d: Dim)
    requires n in qs && q.min == qs[n].min
    ensures TotalUsed(qs[n := q], d) == TotalUsed(qs, d) + Get(q.used, d) - Get(qs[n].used, d)
    ensures TotalMin(qs[n := q], d) == TotalMin(qs, d)
  {
    var qs' := qs[n := q];
    assert qs'.Keys == qs.Keys;
    SumTake(qs.Keys, n, UsedIn(qs, d));
    SumTake(qs.Keys, n, UsedIn(qs', d));
    SumSame(qs.Keys - {n}, UsedIn(qs, d), UsedIn(qs', d));
    SumSame(qs.Keys, MinIn(qs, d), MinIn(qs', d));
  }
}
