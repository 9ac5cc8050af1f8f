/**
  Resyncs with the gap they really have. A node agent publishes an NRT that is true at the moment
  it is measured. A resync looks up the desynced nodes, collects published NRTs one by one and
  flushes them later, and everything else goes on meanwhile. What has happened to a node since its
  NRT was measured decides whether the flush is safe.
 */
module ResyncRuns {
  import opened NodeTopology
  import opened Sums
  import opened OverReserveModel
  import opened OverReserveRuns

  // ----- what happens to a node after its NRT was measured

  /**
    The account of a node since a measurement: the reserved pods the measurement did not see placed,
    what the pods it did see and foreign ones have given back, and what new foreign pods took.
   */
  datatype Ledger = Ledger(unseen: Tracked, given: Amount, foreignTaken: Amount)

  /**
    An NRT with the node as it was when the NRT was measured, the account since then, and whether
    the node has been flushed since then.
   */
  datatype Measured = Measured(node: string, zones: seq<Zone>, at: Kubelet, ledger: Ledger, outdated: bool)

  /** The NRT reports exactly what is free. */
  ghost predicate Truthful(zones: seq<Zone>, t: Kubelet)
  {
    forall z, i :: 0 <= z < |zones| && 0 <= i < |zones[z].resources| ==>
      zones[z].resources[i].available == t.free(z, zones[z].resources[i].name)
  }

  ghost function Zero(): Amount
  {
    (z: nat, r: string) => 0
  }

  ghost function NewlyMeasured(n: string, zones: seq<Zone>, t: Kubelet): Measured
  {
    Measured(n, zones, t, Ledger(t.pending, Zero(), Zero()), false)
  }

  /** The account after event `e` on the node, which was `t` before. */
  ghost function Entered(l: Ledger, t: Kubelet, e: Event): Ledger
  {
    match e
    case Reserved(_, k, request) => l.(unseen := l.unseen[k := request])
    case Unreserved(_, k) => l.(unseen := l.unseen - {k})
    case Finished(_, k) => if k in t.running && k !in l.unseen then l.(given := Plus(l.given, t.running[k])) else l
    case ForeignAdmitted(_, taken) => l.(foreignTaken := Plus(l.foreignTaken, taken))
    case ForeignFinished(_, given) => l.(given := Plus(l.given, given))
    case _ => l
  }

  /** What the unseen pods that have been placed hold of `r` in zone `z`. */
  ghost function Held(l: Ledger, t: Kubelet, z: nat, r: string): int
  {
    Sum(t.running.Keys * l.unseen.Keys, Placed(t.running, z, r))
  }

  /** The account adds up: what is free now and what was free at the measurement differ by what it says. */
  ghost predicate AddsUp(m: Measured, t: Kubelet)
  {
    forall z, r :: t.free(z, r) + Held(m.ledger, t, z, r) + m.ledger.foreignTaken(z, r)
                == m.at.free(z, r) + m.ledger.given(z, r)
  }

  ghost predicate Kept(m: Measured, t: Kubelet)
  {
    && Consistent(m.ledger.unseen, t) && t.pending.Keys <= m.ledger.unseen.Keys
    && NonNegative(m.ledger.foreignTaken) && NonNegative(m.ledger.given) && AddsUp(m, t) && Truthful(m.zones, m.at)
  }

  lemma MeasuringOpens(n: string, zones: seq<Zone>, t: Kubelet)
    requires Truthful(zones, t) && Consistent(map[], t)
    ensures Kept(NewlyMeasured(n, zones, t), t)
  {
    assert t.running.Keys * t.pending.Keys == {};
  }

  lemma AdmitAddsUp(m: Measured, t: Kubelet, k: string, p: Amount, z: nat, r: string)
    requires k in t.pending && k !in t.running && k in m.ledger.unseen
    ensures Held(m.ledger, Kubelet(Minus(t.free, p), t.pending - {k}, t.running[k := p]), z, r)
         == Held(m.ledger, t, z, r) + p(z, r)
  {
    var running', held := t.running[k := p], t.running.Keys * m.ledger.unseen.Keys;
    SumTake(running'.Keys * m.ledger.unseen.Keys, k, Placed(running', z, r));
    assert running'.Keys * m.ledger.unseen.Keys - {k} == held;
    SumSame(held, Placed(t.running, z, r), Placed(running', z, r));
  }

  lemma FinishAddsUp(m: Measured, t: Kubelet, k: string, z: nat, r: string)
    requires k in t.running
    ensures Held(m.ledger, Kubelet(Plus(t.free, t.running[k]), t.pending, t.running - {k}), z, r)
         == Held(m.ledger, t, z, r) - if k in m.ledger.unseen then t.running[k](z, r) else 0
  {
    var running' := t.running - {k};
    var held := running'.Keys * m.ledger.unseen.Keys;
    SumSame(held, Placed(t.running, z, r), Placed(running', z, r));
    if k in m.ledger.unseen {
      SumTake(t.running.Keys * m.ledger.unseen.Keys, k, Placed(t.running, z, r));
      assert t.running.Keys * m.ledger.unseen.Keys - {k} == held;
    } else {
      assert held == t.running.Keys * m.ledger.unseen.Keys;
    }
  }

  lemma EventAddsUp(m: Measured, w: World, e: Event)
    requires m.node in w.kubelets && Enabled(w, e) && Concerns(e, m.node) && !e.Flushed? && Kept(m, w.kubelets[m.node])
    ensures AddsUp(m.(ledger := Entered(m.ledger, w.kubelets[m.node], e)), KubeletStep(w.kubelets[m.node], e))
  {
    hide Consistent, Truthful;
    var t := w.kubelets[m.node];
    var l', t' := Entered(m.ledger, t, e), KubeletStep(t, e);
    forall z, r ensures t'.free(z, r) + Held(l', t', z, r) + l'.foreignTaken(z, r) == m.at.free(z, r) + l'.given(z, r) {
      assert t.free(z, r) + Held(m.ledger, t, z, r) + m.ledger.foreignTaken(z, r)
          == m.at.free(z, r) + m.ledger.given(z, r);
      match e {
        case Reserved(_, k, _) => assert t.running.Keys * l'.unseen.Keys == t.running.Keys * m.ledger.unseen.Keys;
        case Unreserved(_, k) => assert t.running.Keys * l'.unseen.Keys == t.running.Keys * m.ledger.unseen.Keys;
        case Admitted(_, k, p) =>
          PendingNotRunning(m, t, k);
          AdmitAddsUp(m, t, k, p, z, r);
        case Finished(_, k) => FinishAddsUp(m, t, k, z, r);
        case _ =>
      }
    }
  }

  lemma PendingNotRunning(m: Measured, t: Kubelet, k: string)
    requires Consistent(m.ledger.unseen, t) && k in t.pending
    ensures k !in t.running
  {
  }

  lemma EventConsistent(unseen: Tracked, w: World, n: string, e: Event)
    requires n in w.kubelets && Enabled(w, e) && Concerns(e, n) && !e.Flushed? && Consistent(unseen, w.kubelets[n])
    ensures Consistent(Entered(Ledger(unseen, Zero(), Zero()), w.kubelets[n], e).unseen, KubeletStep(w.kubelets[n], e))
  {
    hide Consistent;
    var t := w.kubelets[n];
    match e {
      case Reserved(_, k, request) => ReserveConsistent(unseen, t, k, request);
      case Unreserved(_, k) => UnreserveConsistent(unseen, t, k);
      case Admitted(_, k, p) => AdmitConsistent(unseen, t, k, p);
      case Finished(_, k) => FinishConsistent(unseen, t, k);
      case ForeignAdmitted(_, taken) => FreeChanges(unseen, t, Minus(t.free, taken));
      case ForeignFinished(_, given) => FreeGrows(unseen, t, given);
      case _ =>
    }
  }

  ghost function Noted(m: Measured, w: World, e: Event): Measured
  {
    if m.node in w.kubelets && Concerns(e, m.node) then m.(ledger := Entered(m.ledger, w.kubelets[m.node], e)) else m
  }

  /** Every event keeps the account of every measurement. */
  lemma EventKeeps(m: Measured, w: World, e: Event)
    requires m.node in w.kubelets && Enabled(w, e) && !e.Flushed? && Kept(m, w.kubelets[m.node])
    ensures Kept(Noted(m, w, e), Step(w, e).kubelets[m.node])
  {
    hide Consistent, Truthful, AddsUp;
    if Concerns(e, m.node) {
      EventAddsUp(m, w, e);
      EventConsistent(m.ledger.unseen, w, m.node, e);
      RunningHoldsSomething(m.ledger.unseen, w.kubelets[m.node]);
    }
  }

  lemma RunningHoldsSomething(unseen: Tracked, t: Kubelet)
    requires Consistent(unseen, t)
    ensures forall k :: k in t.running ==> NonNegative(t.running[k])
  {
  }

  // ----- when a flush is safe

  /**
    Of everything the NRT offers, what the unseen pods hold or may still ask for, and what new
    foreign pods took, is covered by what has been given back since the measurement.
   */
  ghost predicate Settled(m: Measured, t: Kubelet)
  {
    forall z, i :: 0 <= z < |m.zones| && 0 <= i < |m.zones[z].resources| && m.zones[z].resources[i].available > 0 ==>
      var r := m.zones[z].resources[i].name;
      Held(m.ledger, t, z, r) + m.ledger.foreignTaken(z, r) + Demand(t.pending, r) <= m.ledger.given(z, r)
  }

  lemma SettledAccounts(m: Measured, t: Kubelet)
    requires Kept(m, t)
    ensures Accounts(m.zones, t) <==> Settled(m, t)
  {
    hide Consistent;
    forall z, i | 0 <= z < |m.zones| && 0 <= i < |m.zones[z].resources|
      ensures var e := m.zones[z].resources[i];
        e.available + Demand(t.pending, e.name) <= t.free(z, e.name) <==>
        Held(m.ledger, t, z, e.name) + m.ledger.foreignTaken(z, e.name) + Demand(t.pending, e.name)
          <= m.ledger.given(z, e.name)
    {
      var r := m.zones[z].resources[i].name;
      assert t.free(z, r) + Held(m.ledger, t, z, r) + m.ledger.foreignTaken(z, r)
          == m.at.free(z, r) + m.ledger.given(z, r);
    }
  }

  /**
    No pod the measurement had not seen is still on the node and asks for anything the NRT offers,
    and no foreign pod has taken any of it.
   */
  ghost predicate Undisturbed(m: Measured, t: Kubelet)
  {
    forall z, i :: 0 <= z < |m.zones| && 0 <= i < |m.zones[z].resources| && m.zones[z].resources[i].available > 0 ==>
      var r := m.zones[z].resources[i].name;
      && m.ledger.foreignTaken(z, r) == 0
      && forall k :: k in m.ledger.unseen && (k in t.pending || k in t.running) ==> Quantity(m.ledger.unseen[k], r) == 0
  }

  ghost function Naught(): string -> int
  {
    k => 0
  }

  lemma {:induction false} SumOfNaught(s: set<string>)
    ensures Sum(s, Naught()) == 0
    decreases |s|
  {
    if s != {} {
      var k :| k in s;
      SumTake(s, k, Naught());
      SumOfNaught(s - {k});
    }
  }

  /** A sum of terms that are not negative vanishes exactly when all of them do. */
  lemma SumVanishes(s: set<string>, f: string -> int)
    requires forall k :: k in s ==> 0 <= f(k)
    ensures 0 <= Sum(s, f) && (Sum(s, f) == 0 <==> forall k :: k in s ==> f(k) == 0)
  {
    SumNonNegative(s, f);
    if forall k :: k in s ==> f(k) == 0 {
      SumSame(s, f, Naught());
      SumOfNaught(s);
    } else {
      var k :| k in s && f(k) != 0;
      SumTake(s, k, f);
      SumNonNegative(s - {k}, f);
    }
  }

  lemma UndisturbedSettles(m: Measured, t: Kubelet)
    requires Kept(m, t) && Undisturbed(m, t)
    ensures Settled(m, t)
  {
    forall z, i | 0 <= z < |m.zones| && 0 <= i < |m.zones[z].resources| && m.zones[z].resources[i].available > 0
      ensures var r := m.zones[z].resources[i].name;
        Held(m.ledger, t, z, r) + m.ledger.foreignTaken(z, r) + Demand(t.pending, r) <= m.ledger.given(z, r)
    {
      var r := m.zones[z].resources[i].name;
      SumVanishes(t.running.Keys * m.ledger.unseen.Keys, Placed(t.running, z, r));
      SumVanishes(t.pending.Keys, Wanted(t.pending, r));
    }
  }

  /** Nothing the NRT offers has been taken, or may still be, by a pod or a foreign pod it does not show. */
  ghost predicate Untouched(m: Measured, t: Kubelet)
  {
    forall z, i :: 0 <= z < |m.zones| && 0 <= i < |m.zones[z].resources| && m.zones[z].resources[i].available > 0 ==>
      var r := m.zones[z].resources[i].name;
      && m.ledger.foreignTaken(z, r) == 0
      && (forall k :: k in t.pending ==> Quantity(t.pending[k], r) == 0)
      && (forall k :: k in t.running && k in m.ledger.unseen ==> t.running[k](z, r) == 0)
  }

  ghost predicate NothingGivenBack(m: Measured)
  {
    forall z, i :: 0 <= z < |m.zones| && 0 <= i < |m.zones[z].resources| ==>
      m.ledger.given(z, m.zones[z].resources[i].name) == 0
  }

  lemma EntryUntouched(m: Measured, t: Kubelet, z: nat, r: string)
    requires Consistent(m.ledger.unseen, t) && 0 <= m.ledger.foreignTaken(z, r)
    ensures Held(m.ledger, t, z, r) + m.ledger.foreignTaken(z, r) + Demand(t.pending, r) <= 0 <==>
      && m.ledger.foreignTaken(z, r) == 0
      && (forall k :: k in t.pending ==> Quantity(t.pending[k], r) == 0)
      && (forall k :: k in t.running && k in m.ledger.unseen ==> t.running[k](z, r) == 0)
  {
    var held := t.running.Keys * m.ledger.unseen.Keys;
    SumVanishes(held, Placed(t.running, z, r));
    SumVanishes(t.pending.Keys, Wanted(t.pending, r));
    forall k | k in t.running && k in m.ledger.unseen
      ensures Placed(t.running, z, r)(k) == t.running[k](z, r) && k in held
    {
    }
    forall k | k in t.pending ensures Wanted(t.pending, r)(k) == Quantity(t.pending[k], r) && k in t.pending.Keys {
    }
  }

  /** As long as nothing has been given back, a flush is safe exactly when nothing offered has been touched. */
  lemma SettledWhenUntouched(m: Measured, t: Kubelet)
    requires Kept(m, t) && NothingGivenBack(m)
    ensures Settled(m, t) <==> Untouched(m, t)
  {
    hide Consistent, AddsUp, Truthful, Held, Demand;
    forall z, i | 0 <= z < |m.zones| && 0 <= i < |m.zones[z].resources| {
      EntryUntouched(m, t, z, m.zones[z].resources[i].name);
    }
  }

  /** Only a new reservation or a new foreign pod can unsettle a node. */
  lemma EventKeepsSettled(m: Measured, w: World, e: Event)
    requires m.node in w.kubelets && Enabled(w, e) && !e.Flushed? && Kept(m, w.kubelets[m.node])
    requires Settled(m, w.kubelets[m.node])
    requires Concerns(e, m.node) ==> !e.Reserved? && !e.ForeignAdmitted?
    ensures Settled(Noted(m, w, e), Step(w, e).kubelets[m.node])
  {
    hide AddsUp, Truthful;
    var t, t', m' := w.kubelets[m.node], Step(w, e).kubelets[m.node], Noted(m, w, e);
    forall z, i | 0 <= z < |m.zones| && 0 <= i < |m.zones[z].resources| && m.zones[z].resources[i].available > 0
      ensures var r := m.zones[z].resources[i].name;
        Held(m'.ledger, t', z, r) + m'.ledger.foreignTaken(z, r) + Demand(t'.pending, r) <= m'.ledger.given(z, r)
    {
      if Concerns(e, m.node) {
        OwesNoMore(m, w, e, z, m.zones[z].resources[i].name);
      }
    }
  }

  lemma OwesNoMore(m: Measured, w: World, e: Event, z: nat, r: string)
    requires m.node in w.kubelets && Enabled(w, e) && Kept(m, w.kubelets[m.node])
    requires Concerns(e, m.node) && !e.Flushed? && !e.Reserved? && !e.ForeignAdmitted?
    ensures var t, l := w.kubelets[m.node], m.ledger;
      var t', l' := KubeletStep(t, e), Entered(l, t, e);
      Held(l', t', z, r) + l'.foreignTaken(z, r) + Demand(t'.pending, r) - l'.given(z, r)
        <= Held(l, t, z, r) + l.foreignTaken(z, r) + Demand(t.pending, r) - l.given(z, r)
  {
    hide AddsUp, Truthful;
    var t := w.kubelets[m.node];
    match e {
      case Unreserved(_, k) =>
        assert t.running.Keys * (m.ledger.unseen - {k}).Keys == t.running.Keys * m.ledger.unseen.Keys;
        SumSubset((t.pending - {k}).Keys, t.pending.Keys, Wanted(t.pending, r));
        SumSame((t.pending - {k}).Keys, Wanted(t.pending, r), Wanted(t.pending - {k}, r));
      case Admitted(_, k, p) =>
        AdmitAddsUp(m, t, k, p, z, r);
        SumTake(t.pending.Keys, k, Wanted(t.pending, r));
        assert (t.pending - {k}).Keys == t.pending.Keys - {k};
        SumSame((t.pending - {k}).Keys, Wanted(t.pending, r), Wanted(t.pending - {k}, r));
      case Finished(_, k) => FinishAddsUp(m, t, k, z, r);
      case _ =>
    }
  }

  // ----- the resync as a protocol

  /** `begun` is the cache a resync in progress found, `collected` the NRTs it has fetched so far. */
  datatype State = State(world: World, published: map<string, Measured>, begun: Option<Cache>, collected: seq<Measured>)

  datatype Move =
    | Happens(event: Event)
    | Measures(node: string, zones: seq<Zone>)
    | Begins
    | Collects(node: string, sources: Sources)
    | Flushes

  /** A resync collects what it may refresh by the cache it found, and flushes whenever it gets to it. */
  ghost predicate CanDo(st: State, mv: Move)
  {
    match mv
    case Happens(e) => !e.Flushed? && Enabled(st.world, e)
    case Measures(n, zones) => n in st.world.kubelets && Truthful(zones, st.world.kubelets[n])
    case Begins => st.begun.None?
    case Collects(n, s) =>
      && st.begun.Some? && n in st.published && IsRefreshed(st.begun.value, s, n)
      && s.fetch(n).value.zones == st.published[n].zones
    case Flushes => st.begun.Some?
  }

  ghost function NotedAll(ms: seq<Measured>, w: World, e: Event): (r: seq<Measured>)
    ensures |r| == |ms| && forall i :: 0 <= i < |ms| ==> r[i] == Noted(ms[i], w, e)
  {
    seq(|ms|, i requires 0 <= i < |ms| => Noted(ms[i], w, e))
  }

  ghost function UpdatesOf(ms: seq<Measured>): (us: seq<Update>)
    ensures |us| == |ms| && forall i :: 0 <= i < |ms| ==> us[i] == Update(ms[i].node, ms[i].zones)
  {
    seq(|ms|, i requires 0 <= i < |ms| => Update(ms[i].node, ms[i].zones))
  }

  ghost function Do(st: State, mv: Move): State
    requires CanDo(st, mv)
  {
    match mv
    case Happens(e) =>
      State(Step(st.world, e), map n | n in st.published :: Noted(st.published[n], st.world, e), st.begun,
            NotedAll(st.collected, st.world, e))
    case Measures(n, zones) => st.(published := st.published[n := NewlyMeasured(n, zones, st.world.kubelets[n])])
    case Begins => st.(begun := Some(st.world.cache), collected := [])
    case Collects(n, _) => st.(collected := st.collected + [st.published[n]])
    case Flushes =>
      var us := UpdatesOf(st.collected);
      State(Step(st.world, Flushed(us)), map n | n in st.published :: Aged(st.published[n], us), None, [])
  }

  ghost function Aged(m: Measured, us: seq<Update>): Measured
  {
    if Names(us, m.node) then m.(outdated := true) else m
  }

  ghost predicate IsCourse(st: State, mvs: seq<Move>)
    decreases |mvs|, 0
  {
    mvs == [] || (IsCourse(st, mvs[..|mvs| - 1]) && CanDo(Reached(st, mvs[..|mvs| - 1]), mvs[|mvs| - 1]))
  }

  ghost function Reached(st: State, mvs: seq<Move>): State
    requires IsCourse(st, mvs)
    decreases |mvs|, 1
  {
    if mvs == [] then st else Do(Reached(st, mvs[..|mvs| - 1]), mvs[|mvs| - 1])
  }

  ghost predicate AtRest(st: State)
  {
    Start(st.world) && st.published == map[] && st.begun.None? && st.collected == []
  }

  // ----- the accounts hold on every course, whatever is flushed when

  ghost predicate KeptIn(m: Measured, w: World)
  {
    m.node in w.kubelets && Kept(m, w.kubelets[m.node])
  }

  ghost predicate AllKept(st: State)
  {
    && (forall n :: n in st.world.kubelets ==> Consistent(map[], st.world.kubelets[n]))
    && (forall n :: n in st.published ==> st.published[n].node == n && KeptIn(st.published[n], st.world))
    && (forall i :: 0 <= i < |st.collected| ==> KeptIn(st.collected[i], st.world))
  }

  lemma EventConsistentAlone(w: World, n: string, e: Event)
    requires n in w.kubelets && Enabled(w, e) && !e.Flushed? && Consistent(map[], w.kubelets[n])
    ensures Consistent(map[], Step(w, e).kubelets[n])
  {
    if Concerns(e, n) {
      EventConsistent(map[], w, n, e);
    }
  }

  lemma FlushLeavesKubelets(w: World, us: seq<Update>)
    ensures Step(w, Flushed(us)).kubelets == w.kubelets
  {
  }

  lemma MoveKeepsAll(st: State, mv: Move)
    requires AllKept(st) && CanDo(st, mv)
    ensures AllKept(Do(st, mv)) && Do(st, mv).world.kubelets.Keys == st.world.kubelets.Keys
  {
    hide Kept, Consistent, Enabled, Truthful;
    match mv {
      case Happens(e) =>
        forall n | n in st.world.kubelets ensures Consistent(map[], Step(st.world, e).kubelets[n]) {
          EventConsistentAlone(st.world, n, e);
        }
        forall m | KeptIn(m, st.world) ensures KeptIn(Noted(m, st.world, e), Step(st.world, e)) {
          EventKeeps(m, st.world, e);
        }
      case Measures(n, zones) => MeasuringOpens(n, zones, st.world.kubelets[n]);
      case Flushes =>
        var us := UpdatesOf(st.collected);
        FlushLeavesKubelets(st.world, us);
        forall n | n in st.published ensures KeptIn(Aged(st.published[n], us), st.world) {
          KeptWhenAged(st.published[n], us, st.world.kubelets[n]);
        }
      case _ =>
    }
  }

  lemma KeptWhenAged(m: Measured, us: seq<Update>, t: Kubelet)
    requires Kept(m, t)
    ensures Kept(Aged(m, us), t)
  {
  }

  lemma {:induction false} CourseKeepsAll(st: State, mvs: seq<Move>)
    requires AtRest(st) && IsCourse(st, mvs)
    ensures AllKept(Reached(st, mvs)) && Reached(st, mvs).world.kubelets.Keys == st.world.kubelets.Keys
  {
    hide CanDo, Do, AllKept;
    if mvs == [] {
      RestKeepsAll(st);
    } else {
      CourseKeepsAll(st, mvs[..|mvs| - 1]);
      MoveKeepsAll(Reached(st, mvs[..|mvs| - 1]), mvs[|mvs| - 1]);
    }
  }

  lemma RestKeepsAll(st: State)
    requires AtRest(st)
    ensures AllKept(st)
  {
  }

  // ----- what a flush does to the promise

  /** A view that shows the NRT as it is keeps the promise exactly when the NRT accounts for the reserved pods. */
  lemma PlainViewPromise(zones: seq<Zone>, t: Kubelet)
    requires NonNegative(t.free)
    ensures PromiseKept(zones, t) <==> Accounts(zones, t)
  {
  }

  lemma FlushedAnswer(st: State, n: string) returns (last: int)
    requires st.begun.Some? && Names(UpdatesOf(st.collected), n)
    ensures 0 <= last < |st.collected| && st.collected[last].node == n
    ensures Query(Do(st, Flushes).world.cache, n)
         == Answer(true, st.world.cache.generation + 1, Some(st.collected[last].zones))
  {
    var c, us := st.world.cache, UpdatesOf(st.collected);
    last := FlushOnNode(c, us, n);
    FlushKeepsGeneration(c, us);
    PessimisticOfNothing(us[last].zones);
  }

  /**
    Exactly when a flush is safe, on every course and whatever was flushed before: the answer it
    leaves for a node keeps the promise if and only if the node is settled with respect to the NRT.
   */
  lemma FlushIsSafeIff(st: State, mvs: seq<Move>, n: string) returns (m: Measured)
    requires AtRest(st) && IsCourse(st, mvs) && Reached(st, mvs).begun.Some?
    requires Names(UpdatesOf(Reached(st, mvs).collected), n)
    ensures m in Reached(st, mvs).collected && m.node == n && n in Reached(st, mvs).world.kubelets
    ensures var st', t := Do(Reached(st, mvs), Flushes), Reached(st, mvs).world.kubelets[n];
      && n in st'.world.kubelets && st'.world.kubelets[n] == t && Query(st'.world.cache, n).zones == Some(m.zones)
      && (PromiseKept(m.zones, t) <==> Settled(m, t))
  {
    hide IsCourse, Reached, Settled, Accounts, PromiseKept, Query, Kept;
    var now := Reached(st, mvs);
    CourseKeepsAll(st, mvs);
    var last := FlushedAnswer(now, n);
    m := now.collected[last];
    assert KeptIn(m, now.world);
    KeptAndSettled(m, now.world.kubelets[n]);
  }

  lemma KeptAndSettled(m: Measured, t: Kubelet)
    requires Kept(m, t)
    ensures PromiseKept(m.zones, t) <==> Settled(m, t)
  {
    PlainViewPromise(m.zones, t);
    SettledAccounts(m, t);
  }

  // ----- courses whose flushes are settled

  ghost predicate AllSettled(st: State)
  {
    forall i :: 0 <= i < |st.collected| ==>
      st.collected[i].node in st.world.kubelets && Settled(st.collected[i], st.world.kubelets[st.collected[i].node])
  }

  ghost predicate FlushesSettled(st: State, mvs: seq<Move>)
    requires IsCourse(st, mvs)
    decreases |mvs|
  {
    mvs == [] ||
      var before, mv := mvs[..|mvs| - 1], mvs[|mvs| - 1];
      FlushesSettled(st, before) && (mv.Flushes? ==> AllSettled(Reached(st, before)))
  }

  /** The events of a course, with a resync's flush as one event. */
  ghost function EventsOf(st: State, mvs: seq<Move>): seq<Event>
    requires IsCourse(st, mvs)
    decreases |mvs|
  {
    if mvs == [] then [] else
      var before, mv := mvs[..|mvs| - 1], mvs[|mvs| - 1];
      match mv
      case Happens(e) => EventsOf(st, before) + [e]
      case Flushes => EventsOf(st, before) + [Flushed(UpdatesOf(Reached(st, before).collected))]
      case _ => EventsOf(st, before)
  }

  lemma RunExtends(w: World, es: seq<Event>, e: Event)
    requires IsRun(w, es) && Enabled(After(w, es), e)
    ensures IsRun(w, es + [e]) && After(w, es + [e]) == Step(After(w, es), e)
  {
    assert (es + [e])[..|es|] == es;
  }

  lemma SettledFlushEnabled(st: State)
    requires AllKept(st) && AllSettled(st)
    ensures Enabled(st.world, Flushed(UpdatesOf(st.collected)))
  {
    hide Kept, Settled, Accounts;
    forall i | 0 <= i < |st.collected|
      ensures Accounts(st.collected[i].zones, st.world.kubelets[st.collected[i].node])
    {
      assert KeptIn(st.collected[i], st.world);
      SettledAccounts(st.collected[i], st.world.kubelets[st.collected[i].node]);
    }
  }

  /** Every course whose flushes are settled is a run of the cache protocol. */
  lemma {:induction false} SettledCourseIsRun(st: State, mvs: seq<Move>)
    requires AtRest(st) && IsCourse(st, mvs) && FlushesSettled(st, mvs)
    ensures IsRun(st.world, EventsOf(st, mvs)) && After(st.world, EventsOf(st, mvs)) == Reached(st, mvs).world
  {
    hide Enabled, AllKept, AllSettled, Step, IsRun, After;
    if mvs == [] {
      NoRunYet(st.world);
    } else {
      var before, mv := mvs[..|mvs| - 1], mvs[|mvs| - 1];
      SettledCourseIsRun(st, before);
      var now, es := Reached(st, before), EventsOf(st, before);
      if mv.Happens? {
        RunExtends(st.world, es, mv.event);
      } else if mv.Flushes? {
        CourseKeepsAll(st, before);
        SettledFlushEnabled(now);
        RunExtends(st.world, es, Flushed(UpdatesOf(now.collected)));
      }
    }
  }

  lemma NoRunYet(w: World)
    ensures IsRun(w, []) && After(w, []) == w
  {
  }

  /**
    No false positives with real resyncs: on every course, however long NRTs take from measurement
    to flush and whatever happens meanwhile, if every flushed node is settled when it is flushed, a
    fresh copy never shows more than is free, with room left for every pod still to be placed.
   */
  lemma SettledCoursesNeverOverstate(st: State, mvs: seq<Move>, n: string)
    requires AtRest(st) && IsCourse(st, mvs) && FlushesSettled(st, mvs) && n in st.world.kubelets
    ensures var w := Reached(st, mvs).world;
      n in w.kubelets && (Query(w.cache, n).zones.Some? ==> PromiseKept(Query(w.cache, n).zones.value, w.kubelets[n]))
  {
    SettledCourseIsRun(st, mvs);
    FreshCopyNeverOverstates(st.world, EventsOf(st, mvs), n);
  }

  // ----- how a node comes to be settled

  /** Nothing is reserved on the node and no foreign pod starts there, and the resync is not flushed. */
  ghost predicate IsQuiet(mvs: seq<Move>, n: string)
  {
    forall i :: 0 <= i < |mvs| ==>
      && !mvs[i].Flushes?
      && (mvs[i].Happens? && Concerns(mvs[i].event, n) ==> !mvs[i].event.Reserved? && !mvs[i].event.ForeignAdmitted?)
  }

  /** What is settled when it is collected is settled when it is flushed, if the node stays quiet in between. */
  lemma {:induction false} QuietKeepsSettled(st: State, mvs: seq<Move>, i: nat)
    requires AllKept(st) && st.begun.Some? && IsCourse(st, mvs)
    requires i < |st.collected| && IsQuiet(mvs, st.collected[i].node)
    requires Settled(st.collected[i], st.world.kubelets[st.collected[i].node])
    ensures var now := Reached(st, mvs);
      && AllKept(now) && now.begun.Some?
      && i < |now.collected| && now.collected[i].node == st.collected[i].node
      && Settled(now.collected[i], now.world.kubelets[now.collected[i].node])
  {
    hide Kept, Settled, Consistent, Enabled, Truthful;
    if mvs != [] {
      var before, mv := mvs[..|mvs| - 1], mvs[|mvs| - 1];
      assert forall j :: 0 <= j < |before| ==> before[j] == mvs[j];
      QuietKeepsSettled(st, before, i);
      var now := Reached(st, before);
      MoveKeepsAll(now, mv);
      assert KeptIn(now.collected[i], now.world);
      if mv.Happens? {
        EventKeepsSettled(now.collected[i], now.world, mv.event);
      }
    }
  }

  /** A new measurement is settled exactly when no pod waiting on the node asks for anything it offers. */
  lemma NewlySettled(n: string, zones: seq<Zone>, t: Kubelet)
    requires Truthful(zones, t) && Consistent(map[], t)
    ensures Settled(NewlyMeasured(n, zones, t), t) <==>
      forall z, i :: 0 <= z < |zones| && 0 <= i < |zones[z].resources| && zones[z].resources[i].available > 0 ==>
        forall k :: k in t.pending ==> Quantity(t.pending[k], zones[z].resources[i].name) == 0
  {
    var m := NewlyMeasured(n, zones, t);
    MeasuringOpens(n, zones, t);
    SettledWhenUntouched(m, t);
    assert t.running.Keys !! m.ledger.unseen.Keys;
  }

  /** And it stays so while the node is quiet and not measured again, until it is collected. */
  lemma {:induction false} QuietKeepsPublished(st: State, mvs: seq<Move>, n: string)
    requires AllKept(st) && IsCourse(st, mvs) && n in st.published && Settled(st.published[n], st.world.kubelets[n])
    requires IsQuiet(mvs, n) && forall i :: 0 <= i < |mvs| ==> !(mvs[i].Measures? && mvs[i].node == n)
    ensures var now := Reached(st, mvs);
      AllKept(now) && n in now.published && Settled(now.published[n], now.world.kubelets[n])
  {
    hide Kept, Settled, Consistent, Enabled, Truthful;
    if mvs != [] {
      var before, mv := mvs[..|mvs| - 1], mvs[|mvs| - 1];
      assert forall j :: 0 <= j < |before| ==> before[j] == mvs[j];
      QuietKeepsPublished(st, before, n);
      var now := Reached(st, before);
      MoveKeepsAll(now, mv);
      assert KeptIn(now.published[n], now.world);
      if mv.Happens? {
        EventKeepsSettled(now.published[n], now.world, mv.event);
      }
    }
  }

  // ----- what a matching fingerprint is worth

  /** No pod still waiting on the node asks for anything the NRT offers. */
  ghost predicate NoneWaits(m: Measured, t: Kubelet)
  {
    forall z, i :: 0 <= z < |m.zones| && 0 <= i < |m.zones[z].resources| && m.zones[z].resources[i].available > 0 ==>
      forall k :: k in t.pending ==> Quantity(t.pending[k], m.zones[z].resources[i].name) == 0
  }

  /**
    The fingerprint names the pods that were running at the measurement, and the listing it is
    compared with names pods that run now: a pod that waits is in neither. So a match shows that no
    unseen pod has been placed, unless under a name used before, and says nothing about waiting ones.
    The node is settled if none of those asks for what the NRT offers, and only if, as long as
    nothing has been given back.
   */
  lemma MatchSettlesIff(m: Measured, t: Kubelet, s: Sources)
    requires Kept(m, t) && IsResynced(s, m.node)
    requires s.matches(s.podsOn[m.node], s.fetch(m.node).value.fingerprint) ==>
               forall k :: k in s.podsOn[m.node] ==> k in m.at.running
    requires forall k :: k in t.running ==> k in s.podsOn[m.node]
    requires m.ledger.unseen.Keys !! m.at.running.Keys && forall z, r :: m.ledger.foreignTaken(z, r) == 0
    ensures NoneWaits(m, t) ==> Settled(m, t)
    ensures NothingGivenBack(m) ==> (Settled(m, t) <==> NoneWaits(m, t))
  {
    hide Truthful, AddsUp;
    assert forall k :: k in t.running ==> k !in m.ledger.unseen;
    if NoneWaits(m, t) {
      UndisturbedSettles(m, t);
    }
    if NothingGivenBack(m) {
      SettledWhenUntouched(m, t);
    }
  }

  // ----- a test the cache can run

  /**
    At the flush, under the lock, the cache tracks on the node only pods the NRT shows as running,
    which are those listed if the fingerprint matches. The rest is up to the environment: the NRT is
    newer than the last flush of the node, no pod came under the name of one it shows, and no foreign
    pod has started since.
   */
  ghost predicate Tested(m: Measured, c: Cache)
  {
    && TrackedOn(c, m.node).Keys <= m.at.running.Keys
    && !m.outdated && m.ledger.unseen.Keys !! m.at.running.Keys && forall z, r :: m.ledger.foreignTaken(z, r) == 0
  }

  ghost predicate AllTested(st: State)
  {
    forall i :: 0 <= i < |st.collected| ==> Tested(st.collected[i], st.world.cache)
  }

  ghost predicate FlushesTested(st: State, mvs: seq<Move>)
    requires IsCourse(st, mvs)
    decreases |mvs|
  {
    mvs == [] ||
      var before, mv := mvs[..|mvs| - 1], mvs[|mvs| - 1];
      FlushesTested(st, before) && (mv.Flushes? ==> AllTested(Reached(st, before)))
  }

  /** The cache tracks every pod that waits on the node. */
  ghost predicate Remembers(c: Cache, n: string, t: Kubelet)
  {
    t.pending.Keys <= TrackedOn(c, n).Keys
  }

  /** And every pod on the node that the NRT does not show, until the node is flushed. */
  ghost predicate UnseenTracked(m: Measured, w: World)
  {
    m.node in w.kubelets && !m.outdated ==>
      forall k :: k in m.ledger.unseen && (k in w.kubelets[m.node].pending || k in w.kubelets[m.node].running) ==>
        k in TrackedOn(w.cache, m.node)
  }

  ghost predicate AllRemembered(st: State)
  {
    && (forall n :: n in st.world.kubelets ==> Remembers(st.world.cache, n, st.world.kubelets[n]))
    && (forall n :: n in st.published ==> UnseenTracked(st.published[n], st.world))
    && (forall i :: 0 <= i < |st.collected| ==> UnseenTracked(st.collected[i], st.world))
  }

  lemma EventRemembers(w: World, n: string, e: Event)
    requires n in w.kubelets && Enabled(w, e) && !e.Flushed? && Remembers(w.cache, n, w.kubelets[n])
    ensures Remembers(Step(w, e).cache, n, Step(w, e).kubelets[n])
  {
  }

  lemma EventKeepsUnseenTracked(m: Measured, w: World, e: Event)
    requires m.node in w.kubelets && Enabled(w, e) && !e.Flushed? && UnseenTracked(m, w)
    requires Remembers(w.cache, m.node, w.kubelets[m.node])
    ensures UnseenTracked(Noted(m, w, e), Step(w, e))
  {
  }

  lemma TestedSettles(m: Measured, w: World)
    requires KeptIn(m, w) && Tested(m, w.cache) && UnseenTracked(m, w)
    ensures Settled(m, w.kubelets[m.node]) && w.kubelets[m.node].pending == map[]
  {
    var t := w.kubelets[m.node];
    assert forall k :: k in m.ledger.unseen ==> k !in t.pending && k !in t.running;
    UndisturbedSettles(m, t);
    assert t.pending.Keys == {};
  }

  lemma FlushRemembers(st: State)
    requires AllKept(st) && AllRemembered(st) && AllTested(st) && st.begun.Some?
    ensures AllSettled(st) && AllRemembered(Do(st, Flushes))
  {
    hide Kept, Settled, Consistent, Tested, UnseenTracked, Flush;
    var us, w := UpdatesOf(st.collected), st.world;
    FlushLeavesKubelets(w, us);
    forall i | 0 <= i < |st.collected| ensures Settled(st.collected[i], w.kubelets[st.collected[i].node]) {
      assert KeptIn(st.collected[i], w);
      TestedSettles(st.collected[i], w);
    }
    forall n | n in w.kubelets ensures Remembers(Flush(w.cache, us), n, w.kubelets[n]) {
      var last := FlushKeepsTracked(w.cache, us, n);
      if Names(us, n) {
        assert KeptIn(st.collected[last], w);
        TestedSettles(st.collected[last], w);
      }
    }
    forall n | n in st.published ensures UnseenTracked(Aged(st.published[n], us), Do(st, Flushes).world) {
      var _ := FlushKeepsTracked(w.cache, us, n);
      AgedTracked(st.published[n], us, w, Do(st, Flushes).world);
    }
  }

  lemma FlushKeepsTracked(c: Cache, us: seq<Update>, n: string) returns (last: int)
    ensures Names(us, n) ==> 0 <= last < |us| && us[last].node == n
    ensures !Names(us, n) ==> TrackedOn(Flush(c, us), n) == TrackedOn(c, n)
  {
    last := FlushOnNode(c, us, n);
  }

  lemma AgedTracked(m: Measured, us: seq<Update>, w: World, w': World)
    requires UnseenTracked(m, w) && w'.kubelets == w.kubelets
    requires !Names(us, m.node) ==> TrackedOn(w'.cache, m.node) == TrackedOn(w.cache, m.node)
    ensures UnseenTracked(Aged(m, us), w')
  {
  }

  lemma MoveRemembers(st: State, mv: Move)
    requires AllKept(st) && AllRemembered(st) && CanDo(st, mv) && (mv.Flushes? ==> AllTested(st))
    ensures AllRemembered(Do(st, mv))
  {
    hide Kept, Consistent, Enabled, Truthful, Remembers, UnseenTracked, AllTested;
    match mv {
      case Happens(e) =>
        forall n | n in st.world.kubelets ensures Remembers(Step(st.world, e).cache, n, Step(st.world, e).kubelets[n]) {
          EventRemembers(st.world, n, e);
        }
        forall m | KeptIn(m, st.world) && UnseenTracked(m, st.world)
          ensures UnseenTracked(Noted(m, st.world, e), Step(st.world, e))
        {
          EventKeepsUnseenTracked(m, st.world, e);
        }
      case Measures(n, zones) => MeasuredIsTracked(st.world, n, zones);
      case Flushes => FlushRemembers(st);
      case _ =>
    }
  }

  lemma MeasuredIsTracked(w: World, n: string, zones: seq<Zone>)
    requires n in w.kubelets && Remembers(w.cache, n, w.kubelets[n]) && Consistent(map[], w.kubelets[n])
    ensures UnseenTracked(NewlyMeasured(n, zones, w.kubelets[n]), w)
  {
  }

  /** On every course whose flushes pass the test, all of them are settled. */
  lemma {:induction false} TestedCourse(st: State, mvs: seq<Move>)
    requires AtRest(st) && IsCourse(st, mvs) && FlushesTested(st, mvs)
    ensures FlushesSettled(st, mvs) && AllRemembered(Reached(st, mvs))
  {
    hide CanDo, Do, AllKept, AllRemembered, AllTested, AllSettled;
    if mvs == [] {
      RestRemembers(st);
    } else {
      var before, mv := mvs[..|mvs| - 1], mvs[|mvs| - 1];
      TestedCourse(st, before);
      CourseKeepsAll(st, before);
      MoveRemembers(Reached(st, before), mv);
      if mv.Flushes? {
        CanFlush(Reached(st, before));
        FlushRemembers(Reached(st, before));
      }
    }
  }

  lemma RestRemembers(st: State)
    requires AtRest(st)
    ensures AllRemembered(st)
  {
  }

  lemma CanFlush(st: State)
    requires CanDo(st, Flushes)
    ensures st.begun.Some?
  {
  }

  /**
    So a resync that tests what it tracks before it flushes is safe: on every course, with any gap
    between measuring, collecting and flushing, fresh copies never overstate.
   */
  lemma TestedCoursesNeverOverstate(st: State, mvs: seq<Move>, n: string)
    requires AtRest(st) && IsCourse(st, mvs) && FlushesTested(st, mvs) && n in st.world.kubelets
    ensures var w := Reached(st, mvs).world;
      n in w.kubelets && (Query(w.cache, n).zones.Some? ==> PromiseKept(Query(w.cache, n).zones.value, w.kubelets[n]))
  {
    TestedCourse(st, mvs);
    SettledCoursesNeverOverstate(st, mvs, n);
  }

  // ----- courses that break the promise

  ghost const FourCpus: seq<Zone> := [Zone("Node", Some(0), [ResourceInfo("cpu", 4)], map[])]

  ghost function AllCpus(): Amount
  {
    (z: nat, r: string) => if z == 0 && r == "cpu" then 4 else 0
  }

  /** The API server shows the node with four free CPUs, without a fingerprint. */
  ghost const FourCpusRead: Sources := Sources(n => Some(Fetched(FourCpus, "")), map[], (_, _) => false)

  ghost const OneNode: State :=
    State(World(Cache(0, map["n" := FourCpus], map[], map[], map[], map[]),
        map["n" := Kubelet(AllCpus(), map[], map[])]),
          map[], None, [])

  lemma OneNodeAtRest()
    ensures AtRest(OneNode)
  {
    var t := OneNode.world.kubelets["n"];
    forall z, i | 0 <= z < |FourCpus| && 0 <= i < |FourCpus[z].resources|
      ensures var e := FourCpus[z].resources[i]; e.available + Demand(t.pending, e.name) <= t.free(z, e.name)
    {
      assert FourCpus[z].resources[i] == ResourceInfo("cpu", 4) && Demand(t.pending, "cpu") == 0;
    }
    assert Accounts(FourCpus, t);
  }

  lemma CourseExtends(st: State, mvs: seq<Move>, mv: Move)
    requires IsCourse(st, mvs) && CanDo(Reached(st, mvs), mv)
    ensures IsCourse(st, mvs + [mv]) && Reached(st, mvs + [mv]) == Do(Reached(st, mvs), mv)
  {
    assert (mvs + [mv])[..|mvs|] == mvs;
  }

  lemma SameCourse(st: State, a: seq<Move>, b: seq<Move>)
    requires a == b && IsCourse(st, a)
    ensures IsCourse(st, b) && Reached(st, b) == Reached(st, a)
  {
  }

  /** The cache when the resync begins: only the attributes of the node have changed. */
  ghost const Changed: Cache := MarkAttributes(OneNode.world.cache, "n")

  /**
    The attributes of the node change, its agent measures it, and a resync begins and collects the
    measurement: all that it may collect, and true at this moment.
   */
  ghost const GapOpening: seq<Move> :=
    [Happens(AttributesChanged("n")), Measures("n", FourCpus), Begins, Collects("n", FourCpusRead)]

  lemma GapOpens()
    ensures AtRest(OneNode) && IsCourse(OneNode, GapOpening)
    ensures var st := Reached(OneNode, GapOpening);
      && st.world.cache == Changed && st.world.kubelets == OneNode.world.kubelets
      && st.begun == Some(Changed) && UpdatesOf(st.collected) == [Update("n", FourCpus)]
      && AreUpdates(Changed, FourCpusRead, UpdatesOf(st.collected))
  {
    OneNodeAtRest();
    hide IsCourse, Reached, AtRest;
    var s0 := OneNode;
    NoCourseYet(s0);
    CourseExtends(s0, [], Happens(AttributesChanged("n")));
    var s1 := Do(s0, Happens(AttributesChanged("n")));
    assert s1.world.kubelets == s0.world.kubelets && s1.published == map[];
    var m1 := [] + [Happens(AttributesChanged("n"))];
    MeasuredTruly(s1);
    CourseExtends(s0, m1, Measures("n", FourCpus));
    var s2, m2 := Do(s1, Measures("n", FourCpus)), m1 + [Measures("n", FourCpus)];
    CourseExtends(s0, m2, Begins);
    var s3, m3 := Do(s2, Begins), m2 + [Begins];
    assert s3.begun == Some(Changed) && "n" in Changed.attrUpdate;
    CourseExtends(s0, m3, Collects("n", FourCpusRead));
    var s4, m4 := Do(s3, Collects("n", FourCpusRead)), m3 + [Collects("n", FourCpusRead)];
    assert m4 == GapOpening;
    SameCourse(s0, m4, GapOpening);
    assert UpdatesOf(s4.collected) == [Update("n", FourCpus)];
    assert UpdatesOf(s4.collected)[0].node == "n";
    assert forall n :: IsRefreshed(Changed, FourCpusRead, n) ==> n == "n";
  }

  lemma NoCourseYet(st: State)
    ensures IsCourse(st, []) && Reached(st, []) == st
  {
  }

  lemma MeasuredTruly(st: State)
    requires st.world.kubelets == OneNode.world.kubelets
    ensures CanDo(st, Measures("n", FourCpus))
  {
    forall z, i | 0 <= z < |FourCpus| && 0 <= i < |FourCpus[z].resources|
      ensures FourCpus[z].resources[i].available == AllCpus()(z, FourCpus[z].resources[i].name)
    {
      assert FourCpus[z].resources[i] == ResourceInfo("cpu", 4);
    }
  }

  /** What a flush of the four CPUs leaves of any cache: a fresh node without reservations or foreign mark. */
  lemma FlushedFourCpus(st: State)
    requires st.begun.Some? && UpdatesOf(st.collected) == [Update("n", FourCpus)]
    ensures CanDo(st, Flushes)
    ensures var st' := Do(st, Flushes);
      && st'.world.kubelets == st.world.kubelets && "n" !in st'.world.cache.foreign
      && Query(st'.world.cache, "n") == Answer(true, st.world.cache.generation + 1, Some(FourCpus))
  {
    FlushLeavesKubelets(st.world, UpdatesOf(st.collected));
    assert UpdatesOf(st.collected)[0].node == "n";
    var last := FlushedAnswer(st, "n");
    assert UpdatesOf(st.collected)[last] == Update(st.collected[last].node, st.collected[last].zones);
  }

  ghost const Gap: seq<Move> := [Happens(Reserved("n", "p", map["cpu" := 4])), Flushes,
      Happens(Admitted("n", "p", AllCpus()))]

  /**
    A pod reserved while the resync is not holding the lock is forgotten by the flush, since the
    branch for changed attributes compares no fingerprint: the node is still offered as empty after
    the pod has taken all four CPUs.
   */
  lemma StaleFlushOverstates()
    ensures AtRest(OneNode) && IsCourse(OneNode, GapOpening + Gap)
    ensures var w := Reached(OneNode, GapOpening + Gap).world;
      && Query(w.cache, "n") == Answer(true, 1, Some(FourCpus))
      && "n" in w.kubelets && w.kubelets["n"].free(0, "cpu") == 0
  {
    GapOpens();
    hide IsCourse, Reached, AtRest, Query, AreUpdates, CanDo, Do;
    var s0, mvs := OneNode, GapOpening;
    var s1 := Reached(s0, mvs);
    ReservedInGap(s1);
    CourseExtends(s0, mvs, Gap[0]);
    var s2, m2 := Do(s1, Gap[0]), mvs + [Gap[0]];
    FlushedFourCpus(s2);
    CourseExtends(s0, m2, Flushes);
    var s3, m3 := Do(s2, Flushes), m2 + [Flushes];
    AdmittedAfterGap(s3);
    CourseExtends(s0, m3, Gap[2]);
    assert m3 + [Gap[2]] == GapOpening + Gap;
    SameCourse(s0, m3 + [Gap[2]], GapOpening + Gap);
  }

  ghost const PodWaits: map<string, Kubelet> := map["n" := Kubelet(AllCpus(), map["p" := map["cpu" := 4]], map[])]

  lemma ReservedInGap(st: State)
    requires st.world.kubelets == OneNode.world.kubelets && st.begun.Some?
    ensures CanDo(st, Gap[0])
    ensures var st' := Do(st, Gap[0]);
      && st'.world.kubelets == PodWaits && st'.world.cache.generation == st.world.cache.generation
      && st'.begun.Some? && UpdatesOf(st'.collected) == UpdatesOf(st.collected)
  {
    assert CanDo(st, Gap[0]);
    assert UpdatesOf(Do(st, Gap[0]).collected) == UpdatesOf(st.collected);
    assert Do(st, Gap[0]).world.kubelets == PodWaits;
  }

  lemma AdmittedAfterGap(st: State)
    requires st.world.kubelets == PodWaits
    ensures CanDo(st, Gap[2])
    ensures var w := Do(st, Gap[2]).world;
      w.cache == st.world.cache && "n" in w.kubelets && w.kubelets["n"].free(0, "cpu") == 0
  {
  }

  ghost const ForeignGap: seq<Move> := [Happens(ForeignAdmitted("n", AllCpus())), Flushes]

  /**
    A foreign pod started in the gap marks the node, so that it is not used; the flush erases the
    mark and offers the node as empty again, although the foreign pod has taken all four CPUs.
   */
  lemma FlushErasesForeignMark()
    ensures AtRest(OneNode)
    ensures IsCourse(OneNode, GapOpening + ForeignGap[..1]) && IsCourse(OneNode, GapOpening + ForeignGap)
    ensures !Query(Reached(OneNode, GapOpening + ForeignGap[..1]).world.cache, "n").isFresh
    ensures var w := Reached(OneNode, GapOpening + ForeignGap).world;
      && Query(w.cache, "n") == Answer(true, 1, Some(FourCpus))
      && "n" in w.kubelets && w.kubelets["n"].free(0, "cpu") == 0
  {
    GapOpens();
    hide IsCourse, Reached, AtRest, AreUpdates;
    var s0, mvs := OneNode, GapOpening;
    var s1 := Reached(s0, mvs);
    CourseExtends(s0, mvs, ForeignGap[0]);
    var s2, m2 := Do(s1, ForeignGap[0]), mvs + [ForeignGap[0]];
    assert m2 == GapOpening + ForeignGap[..1];
    SameCourse(s0, m2, GapOpening + ForeignGap[..1]);
    assert UpdatesOf(s2.collected) == UpdatesOf(s1.collected);
    CourseExtends(s0, m2, Flushes);
    FlushedFourCpus(s2);
    assert m2 + [Flushes] == GapOpening + ForeignGap;
    SameCourse(s0, m2 + [Flushes], GapOpening + ForeignGap);
  }

  // ----- a match is not enough

  /** The same node with a pod "q" that is running without CPUs of its own. */
  ghost const BusyNode: State :=
    State(World(OneNode.world.cache, map["n" := Kubelet(AllCpus(), map[], map["q" := Zero()])]), map[], None, [])

  ghost const BusyAndWaited: map<string, Kubelet> :=
    map["n" := Kubelet(AllCpus(), map["p" := map["cpu" := 4]], map["q" := Zero()])]

  /** The API server lists the running pod "q" on the node, and the NRT carries its fingerprint. */
  ghost const MatchingRead: Sources :=
    Sources(n => Some(Fetched(FourCpus, "q")), map["n" := ["q"]], (pods: seq<string>, f: string) => pods == [f])

  /** A pod is reserved, then the node is discarded for another one, measured, and found dirty by a resync. */
  ghost const MatchedCourse: seq<Move> :=
    [Happens(Reserved("n", "p", map["cpu" := 4])), Happens(Discarded("n")), Measures("n", FourCpus), Begins,
     Collects("n", MatchingRead), Flushes, Happens(Admitted("n", "p", AllCpus()))]

  lemma BusyNodeAtRest()
    ensures AtRest(BusyNode)
  {
    var t := BusyNode.world.kubelets["n"];
    forall z, i | 0 <= z < |FourCpus| && 0 <= i < |FourCpus[z].resources|
      ensures var e := FourCpus[z].resources[i]; e.available + Demand(t.pending, e.name) <= t.free(z, e.name)
    {
      assert FourCpus[z].resources[i] == ResourceInfo("cpu", 4) && Demand(t.pending, "cpu") == 0;
    }
    assert Accounts(FourCpus, t);
  }

  lemma BusyReserved()
    ensures CanDo(BusyNode, MatchedCourse[0])
    ensures var st := Do(BusyNode, MatchedCourse[0]);
      && st.world.kubelets == BusyAndWaited && st.begun.None? && st.world.cache.generation == 0
      && "p" in TrackedOn(st.world.cache, "n")
  {
    assert CanDo(BusyNode, MatchedCourse[0]);
    assert Do(BusyNode, MatchedCourse[0]).world.kubelets == BusyAndWaited;
  }

  lemma BusyDiscarded(st: State)
    requires st.world.kubelets == BusyAndWaited
    ensures CanDo(st, MatchedCourse[1])
    ensures var st' := Do(st, MatchedCourse[1]);
      && st'.world.kubelets == BusyAndWaited && st'.begun == st.begun
      && st'.world.cache == MarkDiscarded(st.world.cache, "n")
  {
    assert Do(st, MatchedCourse[1]).world.kubelets == BusyAndWaited;
  }

  /** The pod is reserved and the node discarded. */
  lemma BusyNodeWaits()
    ensures IsCourse(BusyNode, MatchedCourse[..2])
    ensures var st := Reached(BusyNode, MatchedCourse[..2]);
      && st.world.kubelets == BusyAndWaited && st.begun.None? && st.world.cache.generation == 0
      && "n" in st.world.cache.maybeOverreserved && "p" in TrackedOn(st.world.cache, "n")
  {
    hide IsCourse, Reached, CanDo, Do;
    var s0, mvs := BusyNode, MatchedCourse;
    NoCourseYet(s0);
    BusyReserved();
    CourseExtends(s0, [], mvs[0]);
    SameCourse(s0, [] + [mvs[0]], mvs[..1]);
    BusyDiscarded(Do(s0, mvs[0]));
    CourseExtends(s0, mvs[..1], mvs[1]);
    SameCourse(s0, mvs[..1] + [mvs[1]], mvs[..2]);
  }

  /** A resync collects the NRT just measured: its fingerprint is that of the pods listed. */
  lemma BusyNodeCollected(st: State)
    requires st.world.kubelets == BusyAndWaited && st.begun.None? && "n" in st.world.cache.maybeOverreserved
    ensures IsResynced(MatchingRead, "n") && IsCourse(st, MatchedCourse[2..5])
    ensures var st' := Reached(st, MatchedCourse[2..5]);
      && st'.world == st.world && st'.begun.Some? && UpdatesOf(st'.collected) == [Update("n", FourCpus)]
  {
    assert IsResynced(MatchingRead, "n");
    hide IsCourse, Reached;
    var mvs := MatchedCourse;
    NoCourseYet(st);
    assert CanDo(st, mvs[2]) by {
      forall z, i | 0 <= z < |FourCpus| && 0 <= i < |FourCpus[z].resources|
        ensures FourCpus[z].resources[i].available == AllCpus()(z, FourCpus[z].resources[i].name)
      {
        assert FourCpus[z].resources[i] == ResourceInfo("cpu", 4);
      }
    }
    CourseExtends(st, [], mvs[2]);
    var s1, m1 := Do(st, mvs[2]), [] + [mvs[2]];
    CourseExtends(st, m1, mvs[3]);
    var s2, m2 := Do(s1, mvs[3]), m1 + [mvs[3]];
    assert s2.begun.Some? && IsRefreshed(s2.begun.value, MatchingRead, "n");
    CourseExtends(st, m2, mvs[4]);
    var s3, m3 := Do(s2, mvs[4]), m2 + [mvs[4]];
    assert m3 == mvs[2..5];
    SameCourse(st, m3, mvs[2..5]);
    assert UpdatesOf(s3.collected) == [Update("n", FourCpus)];
  }

  lemma {:induction false} CourseContinues(st: State, a: seq<Move>, b: seq<Move>)
    requires IsCourse(st, a) && IsCourse(Reached(st, a), b)
    ensures IsCourse(st, a + b) && Reached(st, a + b) == Reached(Reached(st, a), b)
    decreases |b|
  {
    hide CanDo, Do;
    if b == [] {
      assert a + b == a;
    } else {
      var rest, last := b[..|b| - 1], b[|b| - 1];
      CourseContinues(st, a, rest);
      CourseExtends(st, a + rest, last);
      assert a + b == a + rest + [last];
    }
  }

  lemma BusyAdmitted(st: State)
    requires st.world.kubelets == BusyAndWaited
    ensures CanDo(st, MatchedCourse[6])
    ensures var w := Do(st, MatchedCourse[6]).world;
      w.cache == st.world.cache && "n" in w.kubelets && w.kubelets["n"].free(0, "cpu") == 0
  {
  }

  /**
    Without any gap and without changed attributes a match lets the flush forget a pod that waits:
    nothing happens on the node between measurement and flush, the fingerprint is that of the pods
    listed, and the node is still offered as empty after the pod has taken all four CPUs.
   */
  lemma MatchForgetsWaitingPod()
    ensures AtRest(BusyNode) && IsResynced(MatchingRead, "n")
    ensures IsCourse(BusyNode, MatchedCourse[..6]) && IsCourse(BusyNode, MatchedCourse)
    ensures var w := Reached(BusyNode, MatchedCourse[..6]).world;
      && Query(w.cache, "n") == Answer(true, 1, Some(FourCpus)) && TrackedOn(w.cache, "n") == map[]
      && "n" in w.kubelets && "p" in w.kubelets["n"].pending
    ensures var w := Reached(BusyNode, MatchedCourse).world;
      && Query(w.cache, "n") == Answer(true, 1, Some(FourCpus))
      && "n" in w.kubelets && w.kubelets["n"].free(0, "cpu") == 0
  {
    BusyNodeAtRest();
    BusyNodeWaits();
    hide IsCourse, Reached, AtRest, IsResynced, CanDo, Do, Query;
    var s0, mvs := BusyNode, MatchedCourse;
    var s2 := Reached(s0, mvs[..2]);
    BusyNodeCollected(s2);
    CourseContinues(s0, mvs[..2], mvs[2..5]);
    SameCourse(s0, mvs[..2] + mvs[2..5], mvs[..5]);
    var s5 := Reached(s0, mvs[..5]);
    FlushedFourCpus(s5);
    FlushTracksNothing(s5);
    CourseExtends(s0, mvs[..5], Flushes);
    SameCourse(s0, mvs[..5] + [Flushes], mvs[..6]);
    BusyAdmitted(Do(s5, Flushes));
    CourseExtends(s0, mvs[..6], mvs[6]);
    SameCourse(s0, mvs[..6] + [mvs[6]], mvs);
  }

  lemma FlushTracksNothing(st: State)
    requires CanDo(st, Flushes) && UpdatesOf(st.collected) == [Update("n", FourCpus)]
    ensures TrackedOn(Do(st, Flushes).world.cache, "n") == map[]
  {
    assert UpdatesOf(st.collected)[0].node == "n";
    var _ := FlushOnNode(st.world.cache, UpdatesOf(st.collected), "n");
  }
}
