/**
  Splitting potential victims by whether evicting them violates a PodDisruptionBudget. Both
  preemption plugins carry the same code for it.
 */
module DisruptionBudgets {
  import opened Pods

  /** A budget; `selects` stands for the label selector, when it can be built at all. */
  datatype Budget = Budget(
    namespace: string, selectorValid: bool, selectorEmpty: bool, selects: map<string, string> -> bool,
    allowed: int, disrupted: set<string>)

  /** Evicting the pod draws on the budget: it matches, and the API server has not processed it yet. */
  predicate Draws(b: Budget, p: Pod)
  {
    && p.labels != map[] && b.namespace == p.namespace
    && b.selectorValid && !b.selectorEmpty && b.selects(p.labels)
    && p.name !in b.disrupted
  }

  /** How many of the pods draw on the budget. */
  function Draw(pods: seq<Pod>, b: Budget): nat
  {
    if pods == [] then 0 else Draw(pods[..|pods| - 1], b) + if Draws(b, pods[|pods| - 1]) then 1 else 0
  }

  /** Evicting pods in this order, the `i`-th finds some budget it draws on already used up. */
  ghost predicate Violates(pods: seq<Pod>, budgets: seq<Budget>, i: nat)
    requires i < |pods|
  {
    exists j :: 0 <= j < |budgets| && Draws(budgets[j], pods[i]) && Draw(pods[..i + 1], budgets[j]) > budgets[j].allowed
  }

  /** The violating, or the other, pods among the first `n`, in their order. */
  ghost function Part(pods: seq<Pod>, budgets: seq<Budget>, n: nat, violating: bool): seq<Pod>
    requires n <= |pods|
  {
    if n == 0 then [] else
      var rest := Part(pods, budgets, n - 1, violating);
      if Violates(pods, budgets, n - 1) == violating then rest + [pods[n - 1]] else rest
  }

  /** One pass over the budgets for one pod, decrementing every budget it draws on. */
  method ChargeBudgets(budgets: seq<Budget>, allowed: array<int>, p: Pod) returns (violated: bool)
    requires allowed.Length == |budgets|
    modifies allowed
    ensures forall j :: 0 <= j < |budgets| ==> allowed[j] == old(allowed[j]) - if Draws(budgets[j], p) then 1 else 0
    ensures violated <==> exists j :: 0 <= j < |budgets| && Draws(budgets[j], p) && allowed[j] < 0
    ensures forall j :: 0 <= j < |budgets| && allowed[j] != old(allowed[j]) ==> allowed[j] == old(allowed[j]) - 1
    ensures forall j :: 0 <= j < |budgets| ==>
              (allowed[j] != old(allowed[j]) <==>
                 && p.labels != map[] && p.namespace == budgets[j].namespace && p.name !in budgets[j].disrupted
                 && budgets[j].selectorValid && !budgets[j].selectorEmpty && budgets[j].selects(p.labels))
  {
    violated := false;
    if p.labels == map[] {
      return;
    }
    for i := 0 to |budgets|
      invariant forall j :: 0 <= j < i ==> allowed[j] == old(allowed[j]) - if Draws(budgets[j], p) then 1 else 0
      invariant forall j :: i <= j < |budgets| ==> allowed[j] == old(allowed[j])
      invariant violated <==> exists j :: 0 <= j < i && Draws(budgets[j], p) && allowed[j] < 0
    {
      var b := budgets[i];
      if b.namespace != p.namespace || !b.selectorValid || b.selectorEmpty
         || !b.selects(p.labels) || p.name in b.disrupted {
        continue;
      }
      allowed[i] := allowed[i] - 1;
      if allowed[i] < 0 {
        violated := true;
      }
    }
  }

  method FilterPodsWithPDBViolation(pods: seq<Pod>, budgets: seq<Budget>)
    returns (violating: seq<Pod>, nonViolating: seq<Pod>)
    ensures violating == Part(pods, budgets, |pods|, true)
    ensures nonViolating == Part(pods, budgets, |pods|, false)
  {
    var allowed := new int[|budgets|](j requires 0 <= j < |budgets| => budgets[j].allowed);
    violating, nonViolating := [], [];
    for i := 0 to |pods|
      invariant forall j :: 0 <= j < |budgets| ==> allowed[j] == budgets[j].allowed - Draw(pods[..i], budgets[j])
      invariant violating == Part(pods, budgets, i, true)
      invariant nonViolating == Part(pods, budgets, i, false)
    {
      assert pods[..i + 1][..i] == pods[..i];
      var violated := ChargeBudgets(budgets, allowed, pods[i]);
      assert forall j :: 0 <= j < |budgets| ==> allowed[j] == budgets[j].allowed - Draw(pods[..i + 1], budgets[j]);
      assert violated <==> Violates(pods, budgets, i);
      if violated {
        violating := violating + [pods[i]];
      } else {
        nonViolating := nonViolating + [pods[i]];
      }
    }
    assert pods[..|pods|] == pods;
  }

  ghost function Drawing(pods: seq<Pod>, b: Budget): set<int>
  {
    set k | 0 <= k < |pods| && Draws(b, pods[k])
  }

  lemma {:induction false} DrawCounts(pods: seq<Pod>, b: Budget)
    ensures Draw(pods, b) == |Drawing(pods, b)|
  {
    hide Draws, Drawing;
    if pods == [] {
      NoneDrawing(b);
    } else {
      DrawCounts(pods[..|pods| - 1], b);
      DrawingGrows(pods, b);
    }
  }

  lemma NoneDrawing(b: Budget)
    ensures Drawing([], b) == {}
  {
  }

  lemma DrawingGrows(pods: seq<Pod>, b: Budget)
    requires pods != []
    ensures var n := |pods| - 1;
      && n !in Drawing(pods[..n], b)
      && Drawing(pods, b) == if Draws(b, pods[n]) then Drawing(pods[..n], b) + {n} else Drawing(pods[..n], b)
  {
    hide Draws;
  }

  /** In plain words: up to and with the pod, more pods draw on some budget it draws on than are allowed. */
  lemma ViolatesMeans(pods: seq<Pod>, budgets: seq<Budget>, i: nat)
    requires i < |pods|
    ensures Violates(pods, budgets, i) <==>
      exists j :: 0 <= j < |budgets| && Draws(budgets[j], pods[i])
               && |Drawing(pods[..i + 1], budgets[j])| > budgets[j].allowed
  {
    forall j | 0 <= j < |budgets| {
      DrawCounts(pods[..i + 1], budgets[j]);
    }
  }

  lemma {:induction false} PartMembers(pods: seq<Pod>, budgets: seq<Budget>, n: nat, violating: bool, p: Pod)
    requires n <= |pods|
    ensures p in Part(pods, budgets, n, violating) <==>
              exists k :: 0 <= k < n && pods[k] == p && Violates(pods, budgets, k) == violating
  {
    hide Violates;
    if n > 0 {
      PartMembers(pods, budgets, n - 1, violating, p);
    }
  }

  /** In trial order no violating pod comes after one that does not violate. */
  lemma ViolatingComeFirst(ranked: seq<Pod>, budgets: seq<Budget>, i: nat, j: nat)
    requires Distinct(ranked) && i < j < |TrialOrder(ranked, budgets)|
    requires exists k ::
      0 <= k < |ranked| && ranked[k] == TrialOrder(ranked, budgets)[j] && Violates(ranked, budgets, k)
    ensures exists k ::
      0 <= k < |ranked| && ranked[k] == TrialOrder(ranked, budgets)[i] && Violates(ranked, budgets, k)
  {
    hide Violates;
    var order, first := TrialOrder(ranked, budgets), Part(ranked, budgets, |ranked|, true);
    if j >= |first| {
      assert order[j] in Part(ranked, budgets, |ranked|, false);
      PartMembers(ranked, budgets, |ranked|, false, order[j]);
    } else {
      assert order[i] in first;
      PartMembers(ranked, budgets, |ranked|, true, order[i]);
    }
  }

  /** The two parts are a partition. */
  lemma {:induction false} PartsPartition(pods: seq<Pod>, budgets: seq<Budget>, n: nat)
    requires n <= |pods|
    ensures multiset(Part(pods, budgets, n, true)) + multiset(Part(pods, budgets, n, false)) == multiset(pods[..n])
  {
    hide Violates;
    if n > 0 {
      PartsPartition(pods, budgets, n - 1);
      assert pods[..n] == pods[..n - 1] + [pods[n - 1]];
      AppendedToOne(Part(pods, budgets, n - 1, Violates(pods, budgets, n - 1)),
                    Part(pods, budgets, n - 1, !Violates(pods, budgets, n - 1)), pods[..n - 1], pods[n - 1]);
    }
  }

  lemma AppendedToOne(a: seq<Pod>, b: seq<Pod>, all: seq<Pod>, p: Pod)
    requires multiset(a) + multiset(b) == multiset(all)
    ensures multiset(a + [p]) + multiset(b) == multiset(all + [p])
  {
    assert multiset(a + [p]) == multiset(a) + multiset{p} && multiset(all + [p]) == multiset(all) + multiset{p};
  }

  /** Each part keeps the order of the input, so a part of a sorted list is sorted. */
  lemma {:induction false} PartSorted(pods: seq<Pod>, budgets: seq<Budget>, n: nat, violating: bool)
    requires n <= |pods| && Sorted(pods)
    ensures Sorted(Part(pods, budgets, n, violating))
    ensures forall i, j :: 0 <= i < |Part(pods, budgets, n, violating)| && n <= j < |pods| ==>
              !MoreImportant(pods[j], Part(pods, budgets, n, violating)[i])
  {
    if n > 0 {
      PartSorted(pods, budgets, n - 1, violating);
    }
  }

  /** Non-violating pods overdraw no budget: at most the allowed number of them draws on it. */
  lemma {:induction false} NonViolatingWithinBudget(pods: seq<Pod>, budgets: seq<Budget>, n: nat, j: nat)
    requires n <= |pods| && j < |budgets|
    ensures var drawn := Draw(Part(pods, budgets, n, false), budgets[j]);
      drawn <= Draw(pods[..n], budgets[j]) && (drawn == 0 || drawn <= budgets[j].allowed)
  {
    if n > 0 {
      NonViolatingWithinBudget(pods, budgets, n - 1, j);
      assert pods[..n][..n - 1] == pods[..n - 1];
      var rest, last := Part(pods, budgets, n - 1, false), pods[n - 1];
      if !Violates(pods, budgets, n - 1) {
        assert (rest + [last])[..|rest|] == rest;
        assert pods[..n - 1 + 1] == pods[..n];
        assert Draws(budgets[j], last) ==> Draw(pods[..n], budgets[j]) <= budgets[j].allowed;
      }
    }
  }

  /** Candidates are tried by importance, those whose eviction violates a budget before all others. */
  ghost function TrialOrder(ranked: seq<Pod>, budgets: seq<Budget>): seq<Pod>
  {
    Part(ranked, budgets, |ranked|, true) + Part(ranked, budgets, |ranked|, false)
  }

  ghost function NumViolating(ranked: seq<Pod>, budgets: seq<Budget>): nat
  {
    |Part(ranked, budgets, |ranked|, true)|
  }

  lemma TrialOrderPermutes(ranked: seq<Pod>, candidates: seq<Pod>, budgets: seq<Budget>)
    requires multiset(ranked) == multiset(candidates) && Distinct(candidates)
    ensures Distinct(TrialOrder(ranked, budgets)) && Elements(TrialOrder(ranked, budgets)) == Elements(candidates)
  {
    PartsPartition(ranked, budgets, |ranked|);
    assert ranked[..|ranked|] == ranked;
    assert multiset(TrialOrder(ranked, budgets)) == multiset(candidates);
    PermutationDistinct(candidates, TrialOrder(ranked, budgets));
    PermutationSameElements(candidates, TrialOrder(ranked, budgets));
  }
}
