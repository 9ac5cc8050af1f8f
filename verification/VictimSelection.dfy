/**
  What both preemption plugins look for: among the candidates, in trial order, the greedy choice
  of pods to put back that keeps an acceptance test true, the others being the victims.
 */
module VictimSelection {
  import opened Pods
  import opened DisruptionBudgets
  import opened Reprieve

  /** A choice is acceptable when the set it puts back is. */
  ghost function By(accept: set<Pod> -> bool, order: seq<Pod>): seq<bool> -> bool
  {
    m => accept(Kept(order, m))
  }

  ghost function Choice(accept: set<Pod> -> bool, order: seq<Pod>): (m: seq<bool>)
    ensures |m| == |order|
  {
    Greedy(|order|, By(accept, order))
  }

  /** Fitting is preserved by removing pods. */
  ghost predicate SurvivesRemoval(fits: set<Pod> -> bool)
  {
    forall a, b :: a <= b && fits(b) ==> fits(a)
  }

  /** Putting back fewer pods of the pool never loses acceptance. */
  ghost predicate Antitone(accept: set<Pod> -> bool, pool: set<Pod>)
  {
    forall a, b :: a <= b <= pool && accept(b) ==> accept(a)
  }

  ghost predicate IsSelection(ranked: seq<Pod>, budgets: seq<Budget>, accept: set<Pod> -> bool, kept: set<Pod>,
      victims: seq<Pod>)
  {
    var order := TrialOrder(ranked, budgets);
    && kept == Kept(order, Choice(accept, order))
    && multiset(victims) == multiset(LeftOut(order, Choice(accept, order))) && Sorted(victims)
  }

  /** The pods in trial order that the choice among the first `k` leaves out. */
  ghost function LeftOutAmong(accept: set<Pod> -> bool, order: seq<Pod>, k: nat): seq<Pod>
    requires k <= |order|
  {
    LeftOut(order, Choice(accept, order)[..k])
  }

  lemma ByHereditary(accept: set<Pod> -> bool, order: seq<Pod>)
    requires Antitone(accept, Elements(order))
    ensures Hereditary(By(accept, order))
  {
    var ok := By(accept, order);
    forall a, b | PutsBackLess(a, b) && ok(b) ensures ok(a) {
      KeptLess(order, a, b);
      assert Kept(order, b) <= Elements(order);
    }
  }

  /** Whatever has been put back was acceptable when the last of it was. */
  lemma {:induction false} ChosenIsAccepted(accept: set<Pod> -> bool, order: seq<Pod>, k: nat)
    requires k <= |order|
    ensures Kept(order, Greedy(k, By(accept, order))) == {} || accept(Kept(order, Greedy(k, By(accept, order))))
  {
    if k > 0 {
      ChosenIsAccepted(accept, order, k - 1);
      var m := Greedy(k - 1, By(accept, order));
      var b := By(accept, order)(m + [true]);
      assert Greedy(k, By(accept, order)) == m + [b];
      KeptExtends(order, m, b);
      assert !b ==> Kept(order, m + [b]) == Kept(order, m);
    } else {
      assert Kept(order, []) == {};
    }
  }

  /** Victims and spared pods divide the candidates. */
  lemma SelectionDivides(ranked: seq<Pod>, candidates: seq<Pod>, budgets: seq<Budget>, accept: set<Pod> -> bool,
      kept: set<Pod>, victims: seq<Pod>)
    requires multiset(ranked) == multiset(candidates) && Distinct(candidates)
    requires IsSelection(ranked, budgets, accept, kept, victims)
    ensures Distinct(victims) && kept !! Elements(victims) && kept + Elements(victims) == Elements(candidates)
    ensures kept == {} || accept(kept)
  {
    var order := TrialOrder(ranked, budgets);
    TrialOrderPermutes(ranked, candidates, budgets);
    ChosenIsAccepted(accept, order, |order|);
    KeptOrLeftOut(order, Choice(accept, order));
    assert order[..|order|] == order;
    PermutationDistinct(LeftOut(order, Choice(accept, order)), victims);
    PermutationSameElements(LeftOut(order, Choice(accept, order)), victims);
  }

  /** Against any other acceptable set, the first candidate on which they differ is spared here. */
  lemma SelectionIsBest(
    ranked: seq<Pod>, candidates: seq<Pod>, budgets: seq<Budget>, accept: set<Pod> -> bool, kept: set<Pod>,
    victims: seq<Pod>, spared: set<Pod>)
    requires multiset(ranked) == multiset(candidates) && Distinct(candidates) && Antitone(accept, Elements(candidates))
    requires IsSelection(ranked, budgets, accept, kept, victims)
    requires spared <= Elements(candidates) && accept(spared)
    ensures var order := TrialOrder(ranked, budgets);
      AtLeastAsGood(MaskOf(order, kept), MaskOf(order, spared))
  {
    var order := TrialOrder(ranked, budgets);
    TrialOrderPermutes(ranked, candidates, budgets);
    KeptMaskOf(order, spared);
    ByHereditary(accept, order);
    GreedyIsBest(|order|, By(accept, order), MaskOf(order, spared));
    MaskOfKept(order, Choice(accept, order), {});
    assert {} + kept == kept;
  }

  /** Putting back any one victim is not acceptable. */
  lemma NoNeedlessVictim(
    ranked: seq<Pod>, candidates: seq<Pod>, budgets: seq<Budget>, accept: set<Pod> -> bool, kept: set<Pod>,
    victims: seq<Pod>, v: Pod)
    requires multiset(ranked) == multiset(candidates) && Distinct(candidates) && Antitone(accept, Elements(candidates))
    requires IsSelection(ranked, budgets, accept, kept, victims) && v in victims
    ensures !accept(kept + {v})
  {
    var order := TrialOrder(ranked, budgets);
    var mask := Choice(accept, order);
    TrialOrderPermutes(ranked, candidates, budgets);
    PermutationSameElements(LeftOut(order, mask), victims);
    assert v in Elements(victims);
    var i := LeftOutAt(order, mask, v);
    ByHereditary(accept, order);
    GreedyIsMaximal(|order|, By(accept, order), i);
    KeptOneMore(order, mask, i);
  }

  /** The victims from the violating group, by number. */
  lemma ViolatingVictims(ranked: seq<Pod>, candidates: seq<Pod>, budgets: seq<Budget>, accept: set<Pod> -> bool,
      kept: set<Pod>, victims: seq<Pod>)
    requires multiset(ranked) == multiset(candidates) && Distinct(candidates)
    requires IsSelection(ranked, budgets, accept, kept, victims)
    ensures |LeftOutAmong(accept, TrialOrder(ranked, budgets), NumViolating(ranked, budgets))|
         == |Elements(victims) * Elements(Part(ranked, budgets, |ranked|, true))|
  {
    var order, v := TrialOrder(ranked, budgets), NumViolating(ranked, budgets);
    var mask := Choice(accept, order);
    TrialOrderPermutes(ranked, candidates, budgets);
    LeftOutPrefix(order, mask, v);
    KeptOrLeftOut(order, mask[..v]);
    DistinctSize(LeftOut(order, mask[..v]));
    PermutationSameElements(LeftOut(order, mask), victims);
    assert order[..v] == Part(ranked, budgets, |ranked|, true);
  }

  /** The victims, most important first. They are in order already unless both groups were tried. */
  method OrderVictims(ghost ranked: seq<Pod>, ghost budgets: seq<Budget>, ghost m: seq<bool>,
                      violating: seq<Pod>, nonViolating: seq<Pod>, found: seq<Pod>) returns (victims: seq<Pod>)
    requires Sorted(ranked) && |m| == |violating| + |nonViolating|
    requires violating == Part(ranked, budgets, |ranked|, true)
    requires nonViolating == Part(ranked, budgets, |ranked|, false)
    requires found == LeftOut(violating + nonViolating, m)
    ensures multiset(victims) == multiset(found) && Sorted(victims)
  {
    if |violating| != 0 && |nonViolating| != 0 {
      victims := SortByImportance(found);
    } else {
      victims := found;
      PartSorted(ranked, budgets, |ranked|, true);
      PartSorted(ranked, budgets, |ranked|, false);
      assert violating + nonViolating == violating || violating + nonViolating == nonViolating;
      LeftOutSorted(violating + nonViolating, m);
    }
  }

  lemma NotYetBack(order: seq<Pod>, m: seq<bool>, base: set<Pod>)
    requires |m| < |order| && Distinct(order) && base !! Elements(order)
    ensures order[|m|] !in base + Kept(order, m)
  {
    assert order[|m|] in Elements(order);
  }

  lemma GreedyNext(n: nat, ok: seq<bool> -> bool, b: bool)
    requires b == ok(Greedy(n, ok) + [true])
    ensures Greedy(n + 1, ok) == Greedy(n, ok) + [b]
  {
  }
}
