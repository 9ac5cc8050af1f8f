/**
  Inputs on which the capacity plugin's victim selection fails, and on which it reports fewer
  violating victims than there are.
 */
module CapacityFailures {
  import opened Pods
  import opened DisruptionBudgets
  import opened Reprieve
  import opened VictimSelection
  import opened QuotaModel
  import opened QuotaSafety
  import opened Sums
  import opened PreemptionQuotas
  import opened CapacityPreemption

  function Cpu(n: int): Resource
  {
    Resource(n, 0, 0, 0, map[])
  }

  /** A pod of one CPU, accounted in a quota of one CPU that may grow to two. */
  const Victim := Pod("u", "a", "v", map["app" := "x"], 0, 0, "", false, 0, Cpu(1))
  const Before: Quotas := map["a" := Quota("a", {"u"}, Cpu(1), Cpu(2), Cpu(1))]
  const Without: Quotas := map["a" := Quota("a", {}, Cpu(1), Cpu(2), Cpu(0))]

  /** A more important pod of the same namespace asks for one CPU, and a nominated pod for two more. */
  function SettingWith(fits: set<Pod> -> bool): Setting
  {
    Setting(Pod("q", "a", "q", map[], 1, 0, "", false, 0, Cpu(1)), PreFilterState(Cpu(1), Cpu(3), Cpu(3)), fits)
  }

  /** A nominated pod of two CPUs, as important as the preemptor. */
  const Nominated := Pod("m", "a", "m", map[], 1, 0, "", false, 0, Cpu(2))

  /** With it, this is the state PreFilter leaves for the preemptor. */
  lemma StateIsOfPreFilter(fits: set<Pod> -> bool)
    ensures var s := SettingWith(fits);
      s.state == PreFilterState(
        s.pod.request, Plus(NominatedInQuota(Before, s.pod, [Nominated]), s.pod.request),
        Plus(NominatedOverall(Before, s.pod, [Nominated]), s.pod.request))
    ensures SettingWith(fits).pod.namespace in Before
  {
    var s, nominated: seq<Pod> := SettingWith(fits), [Nominated];
    assert nominated[..0] == [] && CountsInQuota(Before, s.pod, Nominated);
    CpusAdd(0, 2);
    CpusAdd(2, 1);
    assert Nothing == Cpu(0);
    assert NominatedInQuota(Before, s.pod, nominated) == Cpu(2) == NominatedOverall(Before, s.pod, nominated);
  }

  lemma CpusAdd(a: int, b: int)
    ensures Plus(Cpu(a), Cpu(b)) == Cpu(a + b)
  {
    assert Plus(Cpu(a), Cpu(b)).scalars == map[];
  }

  lemma FirstPassTakesVictim(fits: set<Pod> -> bool)
    ensures FirstPassOf(Before, SettingWith(fits), [Victim]) == FirstPass([Victim], Without, {})
  {
    var s, walk: seq<Pod> := SettingWith(fits), [Victim];
    assert UsedOverMinWith(Before["a"], s.state.inQuota);
    assert Picks(Before, s.pod, true, Victim);
    VictimRemoved();
    assert walk[..0] == [] && PassQuotas(Before, s.pod, true, []) == Before && Picked(Before, s.pod, true, []) == [];
    assert PassQuotas(Before, s.pod, true, walk) == Without;
    assert Picked(Before, s.pod, true, walk) == [] + [Victim] == walk;
    assert Elements(walk) - Elements(walk) == {};
  }

  lemma VictimRemoved()
    ensures RemoveFrom(Before, Victim) == Without
  {
    assert Minus(Cpu(1), Cpu(1)) == Cpu(0) by {
      assert Minus(Cpu(1), Cpu(1)).scalars == map[];
    }
    assert {"u"} - {"u"} == {};
    assert WithoutPod(Before["a"], Victim) == Without["a"];
  }

  lemma TotalsWithout(d: Dim)
    ensures TotalUsedWith(Without, {}, d) == 0 && TotalMin(Without, d) == Get(Cpu(1), d)
    ensures UsedWith(Without, {}, "a", d) == 0
  {
    SumTake(Without.Keys, "a", UsedInWith(Without, {}, d));
    SumTake(Without.Keys, "a", MinIn(Without, d));
    assert Without.Keys - {"a"} == {};
  }

  /** Without its victim the request fits the quotas, but not together with the nominated pods. */
  lemma NominatedOverQuota(fits: set<Pod> -> bool)
    ensures !OverAlone(SettingWith(fits), Without, {}) && OverWith(SettingWith(fits), Without, {})
  {
    var s := SettingWith(fits);
    forall d {
      TotalsWithout(d);
    }
    assert OverMaxIn(Without, {}, "a", s.state.inQuota, MilliCpu);
  }

  /**
    The whole selection fails: the preemptor fits once its one candidate is gone and is within its
    quota, but does not fit with the candidate back, and the nominated pods are over quota anyway.
   */
  lemma SelectionCanFail()
    ensures var s := SettingWith(pods => Victim !in pods);
      var first := FirstPassOf(Before, s, [Victim]);
      && first.candidates == [Victim] && s.fits(first.base) && !OverAlone(s, first.quotas, {})
      && FailsOver(s, first.quotas, first.base, first.candidates)
  {
    var s := SettingWith(pods => Victim !in pods);
    FirstPassTakesVictim(s.fits);
    NominatedOverQuota(s.fits);
    assert Victim in {} + {Victim} && Victim in [Victim];
  }

  /** A budget that allows no disruption of the victim. */
  const NoneAllowed := Budget("a", true, false, _ => true, 0, {})

  lemma VictimViolates()
    ensures Part([Victim], [NoneAllowed], 1, true) == [Victim] && Part([Victim], [NoneAllowed], 1, false) == []
  {
    var pods, budgets := [Victim], [NoneAllowed];
    assert "app" in Victim.labels && Draws(NoneAllowed, Victim);
    assert pods[..1] == pods && pods[..0] == [];
    assert Draw(pods[..1], NoneAllowed) == 1;
    assert Draws(budgets[0], pods[0]) && Draw(pods[..0 + 1], budgets[0]) > budgets[0].allowed;
    assert Violates(pods, budgets, 0);
  }

  /**
    A violating victim that is not counted: with a preemptor that fits anyway, the selection succeeds,
    its one victim violates a budget, and the number reported is zero.
   */
  lemma ViolatingVictimNotCounted()
    ensures var s := SettingWith(pods => true);
      var first := FirstPassOf(Before, s, [Victim]);
      && first.candidates == [Victim] && s.fits(first.base) && !OverAlone(s, first.quotas, {})
      && !FailsOver(s, first.quotas, first.base, first.candidates)
      && Part([Victim], [NoneAllowed], 1, true) == [Victim]
      && IsSelection([Victim], [NoneAllowed], Accept(s, first.quotas, first.base), {}, [Victim])
      && CountUnfit(s, first.quotas, first.base, TrialOrder([Victim], [NoneAllowed]),
          NumViolating([Victim], [NoneAllowed])) == 0
  {
    var s := SettingWith(pods => true);
    FirstPassTakesVictim(s.fits);
    NominatedOverQuota(s.fits);
    VictimViolates();
    var order: seq<Pod> := [Victim];
    assert TrialOrder([Victim], [NoneAllowed]) == order;
    AllNonNegativeVictim();
    QuotaEvictionsAreNotCounted(s, Without, {}, order, 1);
    EvictionsSplit(s, Without, {}, order, 1);
    OneLeftOut(s, order);
  }

  lemma AllNonNegativeVictim()
    ensures AllNonNegative(Elements([Victim]))
  {
    forall d ensures 0 <= Get(Cpu(1), d) {
    }
  }

  lemma OneLeftOut(s: Setting, order: seq<Pod>)
    requires order == [Victim] && |LeftOut(order, Greedy(1, By(Accept(s, Without, {}), order)))| == 1
    ensures Kept(order, Choice(Accept(s, Without, {}), order)) == {}
    ensures LeftOut(order, Choice(Accept(s, Without, {}), order)) == [Victim]
  {
  }
}
