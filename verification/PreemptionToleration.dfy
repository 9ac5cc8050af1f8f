/**
  The PreemptionToleration plugin: which pods tolerate preemption, and the selection of victims
  among those that do not.
 */
module PreemptionToleration {
  import opened Pods
  import opened DisruptionBudgets
  import opened Reprieve
  import opened VictimSelection

  // ----- toleration

  datatype Annotation = Absent | Malformed | Number(n: int)

  datatype PriorityClass = PriorityClass(value: int, minimumPreemptablePriority: Annotation,
      tolerationSeconds: Annotation)

  datatype Policy = Unparsable | Policy(minimumPreemptablePriority: int, tolerationSeconds: int)

  datatype Verdict = LookupError | Exempted | Preemptable

  datatype Preemptor = Preemptor(priority: int, neverPreempts: bool)

  function ParsePolicy(c: PriorityClass): Policy
  {
    if c.minimumPreemptablePriority.Malformed? || c.tolerationSeconds.Malformed? then Unparsable
    else Policy(
      if c.minimumPreemptablePriority.Number? then c.minimumPreemptablePriority.n else c.value + 1,
      if c.tolerationSeconds.Number? then c.tolerationSeconds.n else 0)
  }

  function ExemptedFromPreemption(victim: Pod, preemptor: Preemptor, classes: map<string, PriorityClass>,
      now: int): Verdict
  {
    if victim.className == "" then Preemptable
    else if victim.className !in classes then LookupError
    else if preemptor.neverPreempts then Exempted
    else
      var policy := ParsePolicy(classes[victim.className]);
      if policy.Unparsable? || preemptor.priority >= policy.minimumPreemptablePriority then Preemptable
      else if policy.tolerationSeconds < 0 || !victim.scheduled then Exempted
      else if victim.scheduledAt + policy.tolerationSeconds > now then Exempted
      else Preemptable
  }

  /** Toleration only runs out: a pod that could be preempted still can, later or by a stronger preemptor. */
  lemma TolerationRunsOut(victim: Pod, a: Preemptor, b: Preemptor, classes: map<string, PriorityClass>, now: int,
      later: int)
    requires a.priority <= b.priority && (b.neverPreempts ==> a.neverPreempts) && now <= later
    ensures ExemptedFromPreemption(victim, a, classes, now) == Preemptable ==>
              ExemptedFromPreemption(victim, b, classes, later) == Preemptable
  {
  }

  /**
    In plain words, a pod may be taken by the preemptor: it names no class; or its class is known, the
    preemptor may preempt, and either an annotation is malformed, or the preemptor has the annotated
    minimum priority, one above the class if there is none, or the annotated seconds, none if absent,
    are not negative and have passed since the pod was scheduled.
   */
  ghost predicate DoesNotTolerate(
    victim: Pod, preemptor: Preemptor, classes: map<string, PriorityClass>, now: int)
  {
    || victim.className == ""
    || (&& victim.className in classes && !preemptor.neverPreempts
        && var c := classes[victim.className];
           || c.minimumPreemptablePriority == Malformed || c.tolerationSeconds == Malformed
           || (c.minimumPreemptablePriority.Number? && preemptor.priority >= c.minimumPreemptablePriority.n)
           || (c.minimumPreemptablePriority.Absent? && preemptor.priority > c.value)
           || (&& victim.scheduled
               && (c.tolerationSeconds.Number? ==>
                     c.tolerationSeconds.n >= 0 && victim.scheduledAt + c.tolerationSeconds.n <= now)
               && (c.tolerationSeconds.Absent? ==> victim.scheduledAt <= now)))
  }

  lemma VerdictMeans(victim: Pod, preemptor: Preemptor, classes: map<string, PriorityClass>, now: int)
    ensures var verdict := ExemptedFromPreemption(victim, preemptor, classes, now);
      && (verdict == LookupError <==> victim.className != "" && victim.className !in classes)
      && (verdict == Preemptable <==> DoesNotTolerate(victim, preemptor, classes, now))
  {
  }

  // ----- the candidates

  predicate IsCandidate(p: Pod, preemptor: Preemptor, classes: map<string, PriorityClass>, now: int)
  {
    p.priority < preemptor.priority && ExemptedFromPreemption(p, preemptor, classes, now) == Preemptable
  }

  predicate LookupFails(p: Pod, preemptor: Preemptor, classes: map<string, PriorityClass>, now: int)
  {
    p.priority < preemptor.priority && ExemptedFromPreemption(p, preemptor, classes, now) == LookupError
  }

  function Candidates(listed: seq<Pod>, preemptor: Preemptor, classes: map<string, PriorityClass>, now: int): seq<Pod>
  {
    if listed == [] then [] else
      var before, last := Candidates(listed[..|listed| - 1], preemptor, classes, now), listed[|listed| - 1];
      if IsCandidate(last, preemptor, classes, now) then before + [last] else before
  }

  /** So a candidate stays one, later or for a stronger preemptor. */
  lemma CandidatesOnlyGrow(
    listed: seq<Pod>, a: Preemptor, b: Preemptor, classes: map<string, PriorityClass>, now: int, later: int)
    requires a.priority <= b.priority && (b.neverPreempts ==> a.neverPreempts) && now <= later
    ensures Elements(Candidates(listed, a, classes, now)) <= Elements(Candidates(listed, b, classes, later))
  {
    CandidatesAre(listed, a, classes, now);
    CandidatesAre(listed, b, classes, later);
    forall p | p in Candidates(listed, a, classes, now) ensures p in Candidates(listed, b, classes, later) {
      TolerationRunsOut(p, a, b, classes, now, later);
    }
  }

  lemma {:induction false} CandidatesAre(listed: seq<Pod>, preemptor: Preemptor, classes: map<string, PriorityClass>,
      now: int)
    ensures forall p :: p in Candidates(listed, preemptor, classes, now) <==>
              p in listed && IsCandidate(p, preemptor, classes, now)
    ensures Distinct(listed) ==> Distinct(Candidates(listed, preemptor, classes, now))
  {
    if listed != [] {
      var rest, last := listed[..|listed| - 1], listed[|listed| - 1];
      assert listed == rest + [last];
      CandidatesAre(rest, preemptor, classes, now);
      assert Distinct(listed) ==> last !in rest;
    }
  }

  // ----- the selection

  /** Putting a set of candidates back is acceptable when the preemptor fits next to them. */
  ghost function FitsBeside(fits: set<Pod> -> bool, base: set<Pod>): set<Pod> -> bool
  {
    s => fits(base + s)
  }

  datatype Outcome =
    | LookupFailed
    | NoVictims
    | DoesNotFit
    | RemovalFailed
    | Selected(victims: seq<Pod>, numViolating: nat)

  /** One turn: put the pod back, keep it there if the preemptor still fits, else take it away again. */
  method ReprievePod(node: NodeInfo, p: Pod, fits: set<Pod> -> bool) returns (kept: bool, ok: bool)
    requires p !in node.pods
    modifies node
    ensures ok && kept == fits(old(node.pods) + {p})
    ensures node.pods == old(node.pods) + if kept then {p} else {}
  {
    ok := true;
    node.AddPod(p);
    kept := fits(node.pods);
    if !kept {
      ok := node.RemovePod(p);
    }
  }

  /** A turn extends the choice by what the turn did. */
  lemma GroupNext(fits: set<Pod> -> bool, base: set<Pod>, order: seq<Pod>, m: seq<bool>, kept: bool)
    requires |m| < |order| && m == Greedy(|m|, By(FitsBeside(fits, base), order))
    requires kept == fits(base + Kept(order, m) + {order[|m|]})
    ensures m + [kept] == Greedy(|m| + 1, By(FitsBeside(fits, base), order))
    ensures Kept(order, m + [kept]) == if kept then Kept(order, m) + {order[|m|]} else Kept(order, m)
    ensures LeftOut(order, m + [kept]) == if kept then LeftOut(order, m) else LeftOut(order, m) + [order[|m|]]
  {
    hide Kept, LeftOut;
    KeptExtends(order, m, true);
    KeptExtends(order, m, kept);
    LeftOutExtends(order, m, kept);
    assert base + Kept(order, m) + {order[|m|]} == base + Kept(order, m + [true]);
    GreedyNext(|m|, By(FitsBeside(fits, base), order), kept);
  }

  /** The turns of one group, the stretch of `order` that starts where the choice `m` ends. */
  method ReprieveGroup(node: NodeInfo, group: seq<Pod>, fits: set<Pod> -> bool, victims: seq<Pod>,
                       ghost base: set<Pod>, ghost order: seq<Pod>, ghost m: seq<bool>)
    returns (victims': seq<Pod>, evicted: nat, ghost m': seq<bool>)
    requires |m| + |group| <= |order| && group == order[|m|..|m| + |group|]
    requires Distinct(order) && base !! Elements(order)
    requires m == Greedy(|m|, By(FitsBeside(fits, base), order))
    requires node.pods == base + Kept(order, m) && victims == LeftOut(order, m)
    modifies node
    ensures |m'| == |m| + |group| && m' == Greedy(|m'|, By(FitsBeside(fits, base), order))
    ensures node.pods == base + Kept(order, m') && victims' == LeftOut(order, m')
    ensures evicted == |victims'| - |victims|
  {
    hide Greedy, Kept, LeftOut, Distinct, By, FitsBeside;
    victims', evicted, m' := victims, 0, m;
    for i := 0 to |group|
      invariant |m'| == |m| + i && m' == Greedy(|m'|, By(FitsBeside(fits, base), order))
      invariant node.pods == base + Kept(order, m') && victims' == LeftOut(order, m')
      invariant evicted == |victims'| - |victims|
    {
      var p := group[i];
      assert p == order[|m'|];
      NotYetBack(order, m', base);
      var kept, ok := ReprievePod(node, p, fits);
      GroupNext(fits, base, order, m', kept);
      m' := m' + [kept];
      if !kept {
        victims', evicted := victims' + [p], evicted + 1;
      }
    }
  }

  /** Some less important pod names a class that is not known. */
  ghost predicate UnknownClass(listed: seq<Pod>, preemptor: Preemptor, classes: map<string, PriorityClass>)
  {
    exists i :: 0 <= i < |listed| && listed[i].priority < preemptor.priority
             && listed[i].className != "" && listed[i].className !in classes
  }

  lemma FailureMeans(listed: seq<Pod>, preemptor: Preemptor, classes: map<string, PriorityClass>, now: int)
    ensures UnknownClass(listed, preemptor, classes) <==>
              exists i :: 0 <= i < |listed| && LookupFails(listed[i], preemptor, classes, now)
  {
    hide ExemptedFromPreemption;
    forall i | 0 <= i < |listed|
      ensures LookupFails(listed[i], preemptor, classes, now) <==>
        listed[i].priority < preemptor.priority && listed[i].className != "" && listed[i].className !in classes
    {
      VerdictMeans(listed[i], preemptor, classes, now);
    }
  }

  lemma CandidatesMean(listed: seq<Pod>, preemptor: Preemptor, classes: map<string, PriorityClass>, now: int)
    ensures forall p :: p in Candidates(listed, preemptor, classes, now) <==>
              p in listed && p.priority < preemptor.priority && DoesNotTolerate(p, preemptor, classes, now)
  {
    hide ExemptedFromPreemption, DoesNotTolerate;
    CandidatesAre(listed, preemptor, classes, now);
    forall p {
      VerdictMeans(p, preemptor, classes, now);
    }
  }

  /** The first pass: takes every candidate off the node. */
  method TakeCandidates(node: NodeInfo, listed: seq<Pod>, preemptor: Preemptor, classes: map<string, PriorityClass>,
      now: int)
    returns (candidates: seq<Pod>, failure: bool, ok: bool)
    requires Distinct(listed) && node.pods == Elements(listed)
    modifies node
    ensures ok && (failure <==> exists i :: 0 <= i < |listed| && LookupFails(listed[i], preemptor, classes, now))
    ensures !failure ==> candidates == Candidates(listed, preemptor, classes, now)
    ensures !failure ==> node.pods == Elements(listed) - Elements(candidates)
    ensures failure <==> UnknownClass(listed, preemptor, classes)
    ensures !failure ==> forall p :: p in candidates <==>
              p in listed && p.priority < preemptor.priority && DoesNotTolerate(p, preemptor, classes, now)
  {
    hide ExemptedFromPreemption, DoesNotTolerate, Candidates, Distinct, UnknownClass;
    FailureMeans(listed, preemptor, classes, now);
    CandidatesMean(listed, preemptor, classes, now);
    NoCandidates(listed, preemptor, classes, now);
    candidates, ok := [], true;
    for i := 0 to |listed|
      invariant ok && candidates == Candidates(listed[..i], preemptor, classes, now)
      invariant node.pods == Elements(listed) - Elements(candidates)
      invariant forall j :: 0 <= j < i ==> !LookupFails(listed[j], preemptor, classes, now)
    {
      var p := listed[i];
      NextCandidate(listed, preemptor, classes, now, i);
      if p.priority >= preemptor.priority {
        continue;
      }
      var verdict := ExemptedFromPreemption(p, preemptor, classes, now);
      if verdict == LookupError {
        return candidates, true, true;
      }
      if verdict == Preemptable {
        candidates := candidates + [p];
        ok := node.RemovePod(p);
      }
    }
    failure := false;
    assert listed[..|listed|] == listed;
  }

  lemma NoCandidates(listed: seq<Pod>, preemptor: Preemptor, classes: map<string, PriorityClass>, now: int)
    ensures Candidates(listed[..0], preemptor, classes, now) == []
  {
  }

  /** Pod `i` is still on the node when its turn comes. */
  lemma NextCandidate(
    listed: seq<Pod>, preemptor: Preemptor, classes: map<string, PriorityClass>, now: int, i: nat)
    requires i < |listed| && Distinct(listed)
    ensures var sofar := Candidates(listed[..i], preemptor, classes, now);
      && Candidates(listed[..i + 1], preemptor, classes, now)
         == (if IsCandidate(listed[i], preemptor, classes, now) then sofar + [listed[i]] else sofar)
      && listed[i] in Elements(listed) - Elements(sofar)
      && Elements(sofar + [listed[i]]) == Elements(sofar) + {listed[i]}
  {
    hide IsCandidate;
    assert listed[..i + 1][..i] == listed[..i];
    CandidatesAre(listed[..i], preemptor, classes, now);
  }

  /** The second pass: ranks the candidates and puts back as many as possible. */
  method ReprieveAll(node: NodeInfo, candidates: seq<Pod>, budgets: seq<Budget>, fits: set<Pod> -> bool)
    returns (victims: seq<Pod>, numViolating: nat, ghost ranked: seq<Pod>, ghost kept: set<Pod>)
    requires Distinct(candidates) && node.pods !! Elements(candidates)
    modifies node
    ensures multiset(ranked) == multiset(candidates) && Sorted(ranked)
    ensures var accept := FitsBeside(fits, old(node.pods));
      && node.pods == old(node.pods) + kept
      && IsSelection(ranked, budgets, accept, kept, victims)
      && numViolating == |LeftOutAmong(accept, TrialOrder(ranked, budgets), NumViolating(ranked, budgets))|
  {
    hide Sorted, Distinct, Part, Kept, LeftOut, Greedy, By, FitsBeside;
    ghost var base := node.pods;
    var sorted := SortByImportance(candidates);
    ranked := sorted;
    var violating, nonViolating := FilterPodsWithPDBViolation(sorted, budgets);
    ghost var order := TrialOrder(ranked, budgets);
    ghost var ok := By(FitsBeside(fits, base), order);
    TrialOrderPermutes(ranked, candidates, budgets);
    NothingChosenYet(order, ok, base);
    assert order[0..|violating|] == violating && order[|violating|..|order|] == nonViolating;
    var found, evicted;
    ghost var m;
    found, numViolating, m := ReprieveGroup(node, violating, fits, [], base, order, []);
    found, evicted, m := ReprieveGroup(node, nonViolating, fits, found, base, order, m);
    kept := Kept(order, m);
    GreedyPrefix(|order|, |violating|, ok);
    victims := OrderVictims(ranked, budgets, m, violating, nonViolating, found);
  }

  method SelectVictimsOnNode(
    node: NodeInfo, listed: seq<Pod>, preemptor: Preemptor, classes: map<string, PriorityClass>, now: int,
    budgets: seq<Budget>, fits: set<Pod> -> bool)
    returns (outcome: Outcome, ghost ranked: seq<Pod>, ghost kept: set<Pod>)
    requires Distinct(listed) && node.pods == Elements(listed)
    modifies node
    ensures !outcome.RemovalFailed?
    ensures outcome.LookupFailed? <==> exists i :: 0 <= i < |listed| && LookupFails(listed[i], preemptor, classes, now)
    ensures var candidates := Candidates(listed, preemptor, classes, now);
      var base := Elements(listed) - Elements(candidates);
      && (outcome.NoVictims? ==> candidates == [])
      && (outcome.DoesNotFit? ==> candidates != [] && !fits(base))
      && (outcome.Selected? ==>
            && candidates != [] && fits(base) && node.pods == base + kept
            && multiset(ranked) == multiset(candidates) && Sorted(ranked)
            && IsSelection(ranked, budgets, FitsBeside(fits, base), kept, outcome.victims)
            && outcome.numViolating
               == |LeftOutAmong(FitsBeside(fits, base), TrialOrder(ranked, budgets), NumViolating(ranked, budgets))|)
    ensures outcome.LookupFailed? <==> UnknownClass(listed, preemptor, classes)
    ensures outcome.NoVictims? ==>
              forall p :: p in listed && p.priority < preemptor.priority ==>
                !DoesNotTolerate(p, preemptor, classes, now)
    ensures outcome.Selected? ==>
              forall v :: v in outcome.victims ==>
                v in listed && v.priority < preemptor.priority && DoesNotTolerate(v, preemptor, classes, now)
  {
    hide Sorted, IsSelection, LeftOutAmong, DoesNotTolerate, UnknownClass;
    ranked, kept := [], {};
    var candidates, failure, ok := TakeCandidates(node, listed, preemptor, classes, now);
    if failure {
      return LookupFailed, ranked, kept;
    }
    if !ok {
      return RemovalFailed, ranked, kept;
    }
    if candidates == [] {
      return NoVictims, ranked, kept;
    }
    if !fits(node.pods) {
      return DoesNotFit, ranked, kept;
    }
    CandidatesAre(listed, preemptor, classes, now);
    var victims, numViolating;
    victims, numViolating, ranked, kept := ReprieveAll(node, candidates, budgets, fits);
    SelectionDivides(
      ranked, candidates, budgets, FitsBeside(fits, Elements(listed) - Elements(candidates)), kept, victims);
    assert forall v :: v in victims ==> v in Elements(candidates) by {
      assert forall v :: v in victims ==> v in Elements(victims);
    }
    return Selected(victims, numViolating), ranked, kept;
  }

  // ----- what a selection is worth

  lemma BesideAntitone(fits: set<Pod> -> bool, base: set<Pod>, pool: set<Pod>)
    requires SurvivesRemoval(fits)
    ensures Antitone(FitsBeside(fits, base), pool)
  {
    var accept := FitsBeside(fits, base);
    forall a, b | a <= b <= pool && accept(b) ensures accept(a) {
      assert base + a <= base + b;
    }
  }

  /**
    A successful selection, for all filters: the preemptor fits the node once the victims are gone,
    the victims are distinct candidates, and the reported number counts the violating ones. If a fit
    survives removing pods, no victim is needless either, and the spared candidates are the
    lexicographically best that could have been spared, violating pods before others and important
    pods before less important ones.
   */
  lemma SelectionIsOptimal(
    ranked: seq<Pod>, candidates: seq<Pod>, budgets: seq<Budget>, fits: set<Pod> -> bool, base: set<Pod>,
    kept: set<Pod>, victims: seq<Pod>)
    requires multiset(ranked) == multiset(candidates) && Distinct(candidates) && fits(base)
    requires IsSelection(ranked, budgets, FitsBeside(fits, base), kept, victims)
    ensures fits(base + kept) && Distinct(victims) && kept !! Elements(victims)
    ensures kept + Elements(victims) == Elements(candidates)
    ensures SurvivesRemoval(fits) ==> forall v :: v in victims ==> !fits(base + (kept + {v}))
    ensures SurvivesRemoval(fits) ==> forall spared :: spared <= Elements(candidates) && fits(base + spared) ==>
              AtLeastAsGood(MaskOf(TrialOrder(ranked, budgets), kept), MaskOf(TrialOrder(ranked, budgets), spared))
    ensures |LeftOutAmong(FitsBeside(fits, base), TrialOrder(ranked, budgets), NumViolating(ranked, budgets))|
         == |Elements(victims) * Elements(Part(ranked, budgets, |ranked|, true))|
  {
    var accept := FitsBeside(fits, base);
    SelectionDivides(ranked, candidates, budgets, accept, kept, victims);
    assert base + {} == base;
    if SurvivesRemoval(fits) {
      BesideAntitone(fits, base, Elements(candidates));
      forall v | v in victims ensures !accept(kept + {v}) {
        NoNeedlessVictim(ranked, candidates, budgets, accept, kept, victims, v);
      }
      forall spared | spared <= Elements(candidates) && accept(spared)
        ensures AtLeastAsGood(MaskOf(TrialOrder(ranked, budgets), kept), MaskOf(TrialOrder(ranked, budgets), spared))
      {
        SelectionIsBest(ranked, candidates, budgets, accept, kept, victims, spared);
      }
    }
    ViolatingVictims(ranked, candidates, budgets, accept, kept, victims);
  }
}
