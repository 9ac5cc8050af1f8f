/**
  The cache protocol over whole runs. The world couples the scheduler's cache with what is
  really free in each NUMA zone, which only the kubelets know. The scheduler reserves and
  unreserves pods, kubelets place reserved pods wherever they like, pods finish, other
  schedulers start foreign pods, and resyncs flush nodes. The claim is the one the cache was
  designed for: its pessimistic answers never promise more than there is.
 */
module OverReserveRuns {
  import opened NodeTopology
  import opened Sums
  import opened OverReserveModel

  /** An amount for each zone index and resource name. */
  type Amount = (nat, string) -> int

  /**
    One node as its kubelet sees it: what is free in each zone, the pods the scheduler has
    reserved here that have not been placed yet, and where the running ones were placed.
   */
  datatype Kubelet = Kubelet(free: Amount, pending: Tracked, running: map<string, Amount>)

  datatype World = World(cache: Cache, kubelets: map<string, Kubelet>)

  datatype Event =
    | Reserved(node: string, key: string, request: ResourceList)
    | Unreserved(node: string, key: string)
    | Admitted(node: string, key: string, placement: Amount)
    | Finished(node: string, key: string)
    | ForeignAdmitted(node: string, taken: Amount)
    | ForeignFinished(node: string, given: Amount)
    | ForeignMarked(node: string)
    | Discarded(node: string)
    | AttributesChanged(node: string)
    | Flushed(updates: seq<Update>)

  // ----- what the environment may do

  ghost predicate NonNegative(a: Amount)
  {
    forall z, r :: 0 <= a(z, r)
  }

  ghost predicate Within(a: Amount, b: Amount)
  {
    forall z, r :: a(z, r) <= b(z, r)
  }

  /**
    An NRT accounts for the pods reserved on its node when every availability it reports
    leaves room for all of them to be placed in that very zone.
   */
  ghost predicate Accounts(zones: seq<Zone>, t: Kubelet)
  {
    forall z, i :: 0 <= z < |zones| && 0 <= i < |zones[z].resources| ==>
      var e := zones[z].resources[i];
      e.available > 0 ==> e.available + Demand(t.pending, e.name) <= t.free(z, e.name)
  }

  /**
    Guards are about the environment only; the cache has none. A pod is reserved while no pod
    of that name is on the node, unreserved only if it never started, and placed within its
    request and the free resources. A flushed NRT accounts for the pods reserved on its node.
   */
  ghost predicate Enabled(w: World, e: Event)
  {
    match e
    case Reserved(n, k, _) =>
      n in w.kubelets && k !in w.kubelets[n].pending && k !in w.kubelets[n].running
    case Unreserved(n, k) =>
      n in w.kubelets && k !in w.kubelets[n].running
    case Admitted(n, k, placement) =>
      && n in w.kubelets && k in w.kubelets[n].pending
      && NonNegative(placement) && Within(placement, w.kubelets[n].free)
      && forall z, r :: placement(z, r) <= Quantity(w.kubelets[n].pending[k], r)
    case Finished(n, k) =>
      n in w.kubelets && k in w.kubelets[n].running
    case ForeignAdmitted(n, taken) =>
      n in w.kubelets && NonNegative(taken) && Within(taken, w.kubelets[n].free)
    case ForeignFinished(n, given) =>
      n in w.kubelets && NonNegative(given)
    case Flushed(us) =>
      forall i :: 0 <= i < |us| && us[i].node in w.kubelets ==> Accounts(us[i].zones, w.kubelets[us[i].node])
    case _ => true
  }

  // ----- steps

  ghost function Minus(a: Amount, b: Amount): Amount
  {
    (z: nat, r: string) => a(z, r) - b(z, r)
  }

  ghost function Plus(a: Amount, b: Amount): Amount
  {
    (z: nat, r: string) => a(z, r) + b(z, r)
  }

  ghost function CacheStep(c: Cache, e: Event): Cache
  {
    match e
    case Reserved(n, k, request) => Reserve(c, n, k, request)
    case Unreserved(n, k) => Unreserve(c, n, k)
    case Admitted(_, _, _) => c
    case Finished(_, _) => c
    case ForeignAdmitted(n, _) => MarkForeign(c, n)
    case ForeignFinished(_, _) => c
    case ForeignMarked(n) => MarkForeign(c, n)
    case Discarded(n) => MarkDiscarded(c, n)
    case AttributesChanged(n) => MarkAttributes(c, n)
    case Flushed(us) => Flush(c, us)
  }

  ghost function KubeletStep(t: Kubelet, e: Event): Kubelet
  {
    match e
    case Reserved(_, k, request) => t.(pending := t.pending[k := request])
    case Unreserved(_, k) => t.(pending := t.pending - {k})
    case Admitted(_, k, p) =>
      Kubelet(Minus(t.free, p), t.pending - {k}, t.running[k := p])
    case Finished(_, k) =>
      if k in t.running then Kubelet(Plus(t.free, t.running[k]), t.pending, t.running - {k}) else t
    case ForeignAdmitted(_, taken) => t.(free := Minus(t.free, taken))
    case ForeignFinished(_, given) => t.(free := Plus(t.free, given))
    case _ => t
  }

  ghost predicate Concerns(e: Event, node: string)
  {
    match e
    case Flushed(us) => Names(us, node)
    case _ => e.node == node
  }

  ghost function Step(w: World, e: Event): World
  {
    World(CacheStep(w.cache, e),
          map n | n in w.kubelets :: if Concerns(e, n) then KubeletStep(w.kubelets[n], e) else w.kubelets[n])
  }

  ghost function After(w: World, es: seq<Event>): World
  {
    if es == [] then w else Step(After(w, es[..|es| - 1]), es[|es| - 1])
  }

  ghost predicate IsRun(w: World, es: seq<Event>)
  {
    es == [] || (IsRun(w, es[..|es| - 1]) && Enabled(After(w, es[..|es| - 1]), es[|es| - 1]))
  }

  /** The cache as it is built from a listing of NRT objects, before any pod is reserved. */
  ghost predicate Start(w: World)
  {
    && w.cache == Cache(0, w.cache.nrts, map[], map[], map[], map[])
    && forall n :: n in w.kubelets ==>
         var t := w.kubelets[n];
         && NonNegative(t.free) && t.pending == map[]
         && (forall k :: k in t.running ==> NonNegative(t.running[k]))
         && (n in w.cache.nrts ==> Accounts(w.cache.nrts[n], t))
  }

  // ----- the invariant

  ghost function Placed(running: map<string, Amount>, z: nat, r: string): string -> int
  {
    k => if k in running then running[k](z, r) else 0
  }

  /**
    The balance a stale availability keeps: raised by the reserved pods the cache has
    forgotten, it is at most what is free plus what the remembered running pods hold there.
   */
  ghost predicate Balanced(available: nat, z: nat, r: string, tracked: Tracked, t: Kubelet)
  {
    available + Sum(t.pending.Keys - tracked.Keys, Wanted(t.pending, r))
      <= t.free(z, r) + Sum(t.running.Keys * tracked.Keys, Placed(t.running, z, r))
  }

  ghost predicate Covered(zones: seq<Zone>, tracked: Tracked, t: Kubelet)
  {
    forall z, i :: 0 <= z < |zones| && 0 <= i < |zones[z].resources| && zones[z].resources[i].available > 0 ==>
      Balanced(zones[z].resources[i].available, z, zones[z].resources[i].name, tracked, t)
  }

  ghost predicate Consistent(tracked: Tracked, t: Kubelet)
  {
    && NonNegative(t.free)
    && t.pending.Keys !! t.running.Keys
    && (forall k :: k in t.running ==> NonNegative(t.running[k]))
    && (forall k :: k in t.running && k in tracked ==>
          forall z, r :: t.running[k](z, r) <= Quantity(tracked[k], r))
    && (forall k :: k in t.pending && k in tracked ==> t.pending[k] == tracked[k])
  }

  ghost predicate NodeOk(c: Cache, n: string, t: Kubelet)
  {
    && Consistent(TrackedOn(c, n), t)
    && (n in c.nrts && n !in c.foreign ==> Covered(c.nrts[n], TrackedOn(c, n), t))
  }

  ghost predicate Invariant(w: World)
  {
    forall n :: n in w.kubelets ==> NodeOk(w.cache, n, w.kubelets[n])
  }

  // ----- each kind of event keeps the balance

  lemma ReserveBalances(a: nat, z: nat, r: string, tracked: Tracked, t: Kubelet, k: string, request: ResourceList)
    requires Balanced(a, z, r, tracked, t) && k !in t.pending && k !in t.running
    ensures Balanced(a, z, r, tracked[k := request], t.(pending := t.pending[k := request]))
  {
    var pending' := t.pending[k := request];
    assert pending'.Keys - tracked[k := request].Keys == t.pending.Keys - tracked.Keys - {k};
    assert t.pending.Keys - tracked.Keys - {k} == t.pending.Keys - tracked.Keys;
    SumSame(t.pending.Keys - tracked.Keys, Wanted(t.pending, r), Wanted(pending', r));
    assert t.running.Keys * tracked[k := request].Keys == t.running.Keys * tracked.Keys;
  }

  lemma UnreserveBalances(a: nat, z: nat, r: string, tracked: Tracked, t: Kubelet, k: string)
    requires Balanced(a, z, r, tracked, t) && k !in t.running
    ensures Balanced(a, z, r, tracked - {k}, t.(pending := t.pending - {k}))
  {
    var pending' := t.pending - {k};
    var forgotten := pending'.Keys - (tracked - {k}).Keys;
    assert forgotten <= t.pending.Keys - tracked.Keys;
    SumSubset(forgotten, t.pending.Keys - tracked.Keys, Wanted(t.pending, r));
    SumSame(forgotten, Wanted(t.pending, r), Wanted(pending', r));
    assert t.running.Keys * (tracked - {k}).Keys == t.running.Keys * tracked.Keys;
  }

  /** A pod the cache remembers is placed: what is free and what is held move by the same amount. */
  lemma AdmitTrackedBalances(a: nat, z: nat, r: string, tracked: Tracked, t: Kubelet, k: string, p: Amount)
    requires Balanced(a, z, r, tracked, t) && k in t.pending && k !in t.running && k in tracked
    ensures Balanced(a, z, r, tracked, Kubelet(Minus(t.free, p), t.pending - {k}, t.running[k := p]))
  {
    var pending', running' := t.pending - {k}, t.running[k := p];
    var forgotten, held := pending'.Keys - tracked.Keys, t.running.Keys * tracked.Keys;
    assert forgotten == t.pending.Keys - tracked.Keys;
    SumSame(forgotten, Wanted(t.pending, r), Wanted(pending', r));
    SumSame(held, Placed(t.running, z, r), Placed(running', z, r));
    assert running'.Keys * tracked.Keys - {k} == held;
    SumTake(running'.Keys * tracked.Keys, k, Placed(running', z, r));
  }

  /** A pod the cache has forgotten is placed: it takes no more than was kept for it. */
  lemma AdmitForgottenBalances(a: nat, z: nat, r: string, tracked: Tracked, t: Kubelet, k: string, p: Amount)
    requires Balanced(a, z, r, tracked, t) && k in t.pending && k !in t.running && k !in tracked
    requires p(z, r) <= Quantity(t.pending[k], r)
    ensures Balanced(a, z, r, tracked, Kubelet(Minus(t.free, p), t.pending - {k}, t.running[k := p]))
  {
    var pending', running' := t.pending - {k}, t.running[k := p];
    var forgotten, held := pending'.Keys - tracked.Keys, t.running.Keys * tracked.Keys;
    SumSame(forgotten, Wanted(t.pending, r), Wanted(pending', r));
    SumSame(held, Placed(t.running, z, r), Placed(running', z, r));
    SumTake(t.pending.Keys - tracked.Keys, k, Wanted(t.pending, r));
    assert t.pending.Keys - tracked.Keys - {k} == forgotten;
    assert running'.Keys * tracked.Keys == held;
  }

  lemma FinishBalances(a: nat, z: nat, r: string, tracked: Tracked, t: Kubelet, k: string)
    requires Balanced(a, z, r, tracked, t) && k in t.running && 0 <= t.running[k](z, r)
    ensures Balanced(a, z, r, tracked, Kubelet(Plus(t.free, t.running[k]), t.pending, t.running - {k}))
  {
    var running' := t.running - {k};
    var held := running'.Keys * tracked.Keys;
    SumSame(held, Placed(t.running, z, r), Placed(running', z, r));
    if k in tracked {
      SumTake(t.running.Keys * tracked.Keys, k, Placed(t.running, z, r));
      assert t.running.Keys * tracked.Keys - {k} == held;
    } else {
      assert held == t.running.Keys * tracked.Keys;
    }
  }

  /** A flush forgets every pod, so the balance it leaves is exactly that the new NRT accounts for them. */
  lemma FlushBalances(zones: seq<Zone>, t: Kubelet)
    ensures Covered(zones, map[], t) <==> Accounts(zones, t)
  {
    var none: Tracked := map[];
    assert t.pending.Keys - none.Keys == t.pending.Keys;
    assert t.running.Keys * none.Keys == {};
    forall z, i | 0 <= z < |zones| && 0 <= i < |zones[z].resources|
      ensures var e := zones[z].resources[i];
              Balanced(e.available, z, e.name, none, t) <==>
                  e.available + Demand(t.pending, e.name) <= t.free(z, e.name)
    {
    }
  }

  lemma ReserveConsistent(tracked: Tracked, t: Kubelet, k: string, request: ResourceList)
    requires Consistent(tracked, t) && k !in t.running
    ensures Consistent(tracked[k := request], t.(pending := t.pending[k := request]))
  {
  }

  lemma UnreserveConsistent(tracked: Tracked, t: Kubelet, k: string)
    requires Consistent(tracked, t) && k !in t.running
    ensures Consistent(tracked - {k}, t.(pending := t.pending - {k}))
  {
  }

  lemma AdmitConsistent(tracked: Tracked, t: Kubelet, k: string, p: Amount)
    requires Consistent(tracked, t) && k in t.pending && NonNegative(p) && Within(p, t.free)
    requires forall z, r :: p(z, r) <= Quantity(t.pending[k], r)
    ensures Consistent(tracked, Kubelet(Minus(t.free, p), t.pending - {k}, t.running[k := p]))
  {
  }

  lemma StepKeepsConsistent(w: World, n: string, e: Event)
    requires n in w.kubelets && Enabled(w, e) && Consistent(TrackedOn(w.cache, n), w.kubelets[n])
    ensures Consistent(TrackedOn(Step(w, e).cache, n), Step(w, e).kubelets[n])
  {
    hide Consistent, Flush;
    var tracked, t := TrackedOn(w.cache, n), w.kubelets[n];
    if Concerns(e, n) {
      match e {
        case Reserved(_, k, request) => ReserveConsistent(tracked, t, k, request);
        case Unreserved(_, k) =>
          UnreserveConsistent(tracked, t, k);
          assert TrackedOn(Step(w, e).cache, n) == tracked - {k};
        case Admitted(_, k, p) => AdmitConsistent(tracked, t, k, p);
        case Finished(_, k) => FinishConsistent(tracked, t, k);
        case ForeignAdmitted(_, taken) => FreeChanges(tracked, t, Minus(t.free, taken));
        case ForeignFinished(_, given) => FreeGrows(tracked, t, given);
        case Flushed(us) => FlushConsistent(w.cache, us, n, t);
        case _ =>
      }
    } else if e.Flushed? {
      FlushConsistent(w.cache, e.updates, n, t);
    }
  }

  lemma FinishConsistent(tracked: Tracked, t: Kubelet, k: string)
    requires Consistent(tracked, t) && k in t.running
    ensures Consistent(tracked, Kubelet(Plus(t.free, t.running[k]), t.pending, t.running - {k}))
  {
  }

  lemma FreeChanges(tracked: Tracked, t: Kubelet, free: Amount)
    requires Consistent(tracked, t) && NonNegative(free)
    ensures Consistent(tracked, t.(free := free))
  {
  }

  lemma FreeGrows(tracked: Tracked, t: Kubelet, given: Amount)
    requires Consistent(tracked, t) && NonNegative(given)
    ensures Consistent(tracked, t.(free := Plus(t.free, given)))
  {
  }

  lemma FlushConsistent(c: Cache, us: seq<Update>, n: string, t: Kubelet)
    requires Consistent(TrackedOn(c, n), t)
    ensures Consistent(TrackedOn(Flush(c, us), n), t)
  {
    var _ := FlushOnNode(c, us, n);
  }

  lemma EventBalances(a: nat, z: nat, r: string, w: World, n: string, e: Event)
    requires n in w.kubelets && Enabled(w, e) && !e.Flushed? && !e.ForeignAdmitted? && Concerns(e, n)
    requires Consistent(TrackedOn(w.cache, n), w.kubelets[n])
    requires Balanced(a, z, r, TrackedOn(w.cache, n), w.kubelets[n])
    ensures Balanced(a, z, r, TrackedOn(CacheStep(w.cache, e), n), KubeletStep(w.kubelets[n], e))
  {
    var tracked, t := TrackedOn(w.cache, n), w.kubelets[n];
    match e {
      case Reserved(_, k, request) => ReserveBalances(a, z, r, tracked, t, k, request);
      case Unreserved(_, k) =>
        UnreserveBalances(a, z, r, tracked, t, k);
        assert TrackedOn(CacheStep(w.cache, e), n) == tracked - {k};
      case Admitted(_, k, p) =>
        if k in tracked {
          AdmitTrackedBalances(a, z, r, tracked, t, k, p);
        } else {
          AdmitForgottenBalances(a, z, r, tracked, t, k, p);
        }
      case Finished(_, k) => FinishBalances(a, z, r, tracked, t, k);
      case _ =>
    }
  }

  lemma StepKeepsCovered(w: World, n: string, e: Event)
    requires n in w.kubelets && Enabled(w, e) && NodeOk(w.cache, n, w.kubelets[n])
    requires n in Step(w, e).cache.nrts && n !in Step(w, e).cache.foreign
    ensures Covered(Step(w, e).cache.nrts[n], TrackedOn(Step(w, e).cache, n), Step(w, e).kubelets[n])
  {
    hide Balanced, Consistent;
    var c', zones := CacheStep(w.cache, e), CacheStep(w.cache, e).nrts[n];
    if e.Flushed? {
      var last := FlushOnNode(w.cache, e.updates, n);
      FlushBalances(zones, w.kubelets[n]);
    } else if Concerns(e, n) {
      forall z, i | 0 <= z < |zones| && 0 <= i < |zones[z].resources| && zones[z].resources[i].available > 0
        ensures Balanced(zones[z].resources[i].available, z, zones[z].resources[i].name,
                         TrackedOn(c', n), KubeletStep(w.kubelets[n], e))
      {
        EventBalances(zones[z].resources[i].available, z, zones[z].resources[i].name, w, n, e);
      }
    }
  }

  /** Every enabled event keeps the invariant. */
  lemma StepKeepsInvariant(w: World, e: Event)
    requires Invariant(w) && Enabled(w, e)
    ensures Invariant(Step(w, e))
  {
    forall n | n in w.kubelets ensures NodeOk(Step(w, e).cache, n, Step(w, e).kubelets[n]) {
      StepKeepsConsistent(w, n, e);
      if n in Step(w, e).cache.nrts && n !in Step(w, e).cache.foreign {
        StepKeepsCovered(w, n, e);
      }
    }
  }

  lemma StartInvariant(w: World)
    requires Start(w)
    ensures Invariant(w)
  {
    forall n | n in w.kubelets && n in w.cache.nrts {
      FlushBalances(w.cache.nrts[n], w.kubelets[n]);
    }
  }

  lemma {:induction false} RunKeepsInvariant(w: World, es: seq<Event>)
    requires Start(w) && IsRun(w, es)
    ensures Invariant(After(w, es)) && After(w, es).kubelets.Keys == w.kubelets.Keys
  {
    if es == [] {
      StartInvariant(w);
    } else {
      RunKeepsInvariant(w, es[..|es| - 1]);
      StepKeepsInvariant(After(w, es[..|es| - 1]), es[|es| - 1]);
    }
  }

  // ----- what the invariant gives

  /**
    What a fresh answer promises: no zone entry exceeds what is free, and an entry that shows
    anything at all would still be there after every reserved pod was placed in that zone.
   */
  ghost predicate PromiseKept(view: seq<Zone>, t: Kubelet)
  {
    forall z, i :: 0 <= z < |view| && 0 <= i < |view[z].resources| ==>
      var e := view[z].resources[i];
      && e.available <= t.free(z, e.name)
      && (e.available > 0 ==> e.available + Demand(t.pending, e.name) <= t.free(z, e.name))
  }

  /** The tracked demand covers what tracked pods hold, and what tracked reserved pods will ask for. */
  lemma DemandSplits(z: nat, r: string, tracked: Tracked, t: Kubelet)
    requires Consistent(tracked, t)
    ensures Sum(t.running.Keys * tracked.Keys, Placed(t.running, z, r))
            + Sum(t.pending.Keys * tracked.Keys, Wanted(t.pending, r))
         <= Demand(tracked, r)
    ensures Demand(t.pending, r)
         == Sum(t.pending.Keys * tracked.Keys, Wanted(t.pending, r))
            + Sum(t.pending.Keys - tracked.Keys, Wanted(t.pending, r))
  {
    var held, soon := t.running.Keys * tracked.Keys, t.pending.Keys * tracked.Keys;
    SumAtMost(held, Placed(t.running, z, r), Wanted(tracked, r));
    SumSame(soon, Wanted(t.pending, r), Wanted(tracked, r));
    SumUnion(held, soon, Wanted(tracked, r));
    SumSubset(held + soon, tracked.Keys, Wanted(tracked, r));
    SumUnion(soon, t.pending.Keys - tracked.Keys, Wanted(t.pending, r));
    assert soon + (t.pending.Keys - tracked.Keys) == t.pending.Keys;
  }

  lemma InvariantKeepsPromise(c: Cache, n: string, t: Kubelet)
    requires NodeOk(c, n, t) && Query(c, n).zones.Some?
    ensures PromiseKept(Query(c, n).zones.value, t)
  {
    var tracked, zones, view := TrackedOn(c, n), c.nrts[n], Query(c, n).zones.value;
    forall z, i | 0 <= z < |view| && 0 <= i < |view[z].resources|
      ensures var e := view[z].resources[i];
        && e.available <= t.free(z, e.name)
        && (e.available > 0 ==> e.available + Demand(t.pending, e.name) <= t.free(z, e.name))
    {
      var stale := zones[z].resources[i];
      assert view[z].resources[i] == LoweredEntry(stale, DemandOf(tracked));
      if view[z].resources[i].available > 0 {
        assert Balanced(stale.available, z, stale.name, tracked, t);
        DemandSplits(z, stale.name, tracked, t);
      }
    }
  }

  /**
    No false positives: in every run, wherever the kubelets placed the reserved pods, a fresh
    copy of any node's NRT shows no more than what is really free, with room left for every pod
    still to be placed.
   */
  lemma FreshCopyNeverOverstates(w: World, es: seq<Event>, n: string)
    requires Start(w) && IsRun(w, es) && n in w.kubelets
    ensures n in After(w, es).kubelets
    ensures var w' := After(w, es);
      Query(w'.cache, n).zones.Some? ==> PromiseKept(Query(w'.cache, n).zones.value, w'.kubelets[n])
  {
    RunKeepsInvariant(w, es);
    var w' := After(w, es);
    if Query(w'.cache, n).zones.Some? {
      InvariantKeepsPromise(w'.cache, n, w'.kubelets[n]);
    }
  }

  /** A node marked foreign gives no fresh copy, whatever happens, until it is flushed. */
  lemma {:induction false} ForeignUntilFlushed(w: World, es: seq<Event>, n: string)
    requires n in w.cache.foreign
    requires forall i :: 0 <= i < |es| && es[i].Flushed? ==> !Concerns(es[i], n)
    ensures n in After(w, es).cache.foreign && !Query(After(w, es).cache, n).isFresh
  {
    if es != [] {
      var before, e := es[..|es| - 1], es[|es| - 1];
      ForeignUntilFlushed(w, before, n);
      if e.Flushed? {
        var _ := FlushOnNode(After(w, before).cache, e.updates, n);
      }
    }
  }

  lemma StepGeneration(c: Cache, e: Event)
    ensures var c' := CacheStep(c, e);
      c'.generation == c.generation + 1 || (c'.generation == c.generation && c'.nrts == c.nrts)
  {
    if e.Flushed? {
      FlushKeepsGeneration(c, e.updates);
    }
  }

  /** Between two states of one generation no cached NRT has been replaced. */
  lemma {:induction false} GenerationNamesTheNrts(w: World, es: seq<Event>)
    ensures After(w, es).cache.generation >= w.cache.generation
    ensures After(w, es).cache.generation == w.cache.generation ==> After(w, es).cache.nrts == w.cache.nrts
  {
    if es != [] {
      var before, e := es[..|es| - 1], es[|es| - 1];
      GenerationNamesTheNrts(w, before);
      StepGeneration(After(w, before).cache, e);
    }
  }

  /**
    What a resync collected from the cache `c` as it began may be flushed later, in a world with any
    other cache, as long as the NRTs account for the pods reserved by then.
   */
  lemma ResyncKeepsInvariant(w: World, c: Cache, s: Sources, us: seq<Update>)
    requires Invariant(w) && AreUpdates(c, s, us)
    requires forall n :: n in w.kubelets && IsRefreshed(c, s, n) ==> Accounts(s.fetch(n).value.zones, w.kubelets[n])
    ensures Enabled(w, Flushed(us)) && Invariant(Step(w, Flushed(us)))
    ensures AfterResync(c, s, w.cache, Step(w, Flushed(us)).cache)
  {
    assert Enabled(w, Flushed(us));
    StepKeepsInvariant(w, Flushed(us));
    ResyncByNode(c, s, us, w.cache);
  }
}
