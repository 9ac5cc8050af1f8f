/**
  The SySched plugin's incremental index: which pods run on each node, which system calls they
  use together, and the score that measures how many of them each pod does not need.
 */
module SySched {
  import opened Sums

  const MAX_INT64 := 0x7fff_ffff_ffff_ffff

  datatype Pod = Pod(namespace: string, name: string, node: string)

  /** The system calls of a pod, from its seccomp profiles. */
  type Profile = Pod -> set<string>

  /** The system calls of all the pods. */
  function UnionOf(profile: Profile, pods: seq<Pod>): set<string>
  {
    if pods == [] then {} else UnionOf(profile, pods[..|pods| - 1]) + profile(pods[|pods| - 1])
  }

  /** How many system calls of `host` the pods do not use, summed over the pods. */
  function Exposure(profile: Profile, host: set<string>, pods: seq<Pod>): nat
  {
    if pods == [] then 0 else Exposure(profile, host, pods[..|pods| - 1]) + |host - profile(pods[|pods| - 1])|
  }

  /** The exposure of a node recomputed from scratch, as if the pods had just been read. */
  function TotalExposure(profile: Profile, pods: seq<Pod>): nat
  {
    Exposure(profile, UnionOf(profile, pods), pods)
  }

  /** How many of the calls that some pod uses each pod does not use itself. */
  ghost function UnusedBy(profile: Profile, pods: seq<Pod>): int -> int
  {
    i => if 0 <= i < |pods| then |UnionOf(profile, pods) - profile(pods[i])| else 0
  }

  ghost function UnusedOf(profile: Profile, host: set<string>, pods: seq<Pod>): int -> int
  {
    i => if 0 <= i < |pods| then |host - profile(pods[i])| else 0
  }

  lemma {:induction false} ExposureIsSumOf(profile: Profile, host: set<string>, pods: seq<Pod>)
    ensures Exposure(profile, host, pods) == Sum(Indices(|pods|), UnusedOf(profile, host, pods))
  {
    if pods == [] {
      IndicesGrow(0);
    } else {
      var n := |pods| - 1;
      IndicesGrow(n);
      ExposureIsSumOf(profile, host, pods[..n]);
      SumSame(Indices(n), UnusedOf(profile, host, pods[..n]), UnusedOf(profile, host, pods));
      SumTake(Indices(|pods|), n, UnusedOf(profile, host, pods));
    }
  }

  /** The exposure is the sum, over the pods, of the calls of the union that the pod does not use. */
  lemma ExposureIsSum(profile: Profile, pods: seq<Pod>)
    ensures TotalExposure(profile, pods) == Sum(Indices(|pods|), UnusedBy(profile, pods))
  {
    ExposureIsSumOf(profile, UnionOf(profile, pods), pods);
    SumSame(Indices(|pods|), UnusedOf(profile, UnionOf(profile, pods), pods), UnusedBy(profile, pods));
  }

  predicate Named(pods: seq<Pod>, name: string)
  {
    exists i :: 0 <= i < |pods| && pods[i].name == name
  }

  ghost predicate NamesDistinct(pods: seq<Pod>)
  {
    forall i, j :: 0 <= i < j < |pods| ==> pods[i].name != pods[j].name
  }

  lemma {:induction false} UnionContains(profile: Profile, pods: seq<Pod>, call: string)
    ensures call in UnionOf(profile, pods) <==> exists i :: 0 <= i < |pods| && call in profile(pods[i])
  {
    if pods != [] {
      UnionContains(profile, pods[..|pods| - 1], call);
    }
  }

  /** Swap-remove: the last pod takes the place of the removed one. */
  function SwapRemoved(pods: seq<Pod>, i: nat): seq<Pod>
    requires i < |pods|
  {
    pods[i := pods[|pods| - 1]][..|pods| - 1]
  }

  lemma SwapRemovedLosesOne(pods: seq<Pod>, i: nat)
    requires i < |pods|
    ensures multiset(SwapRemoved(pods, i)) + multiset{pods[i]} == multiset(pods)
  {
    var last := pods[|pods| - 1];
    assert pods[i := last] == SwapRemoved(pods, i) + [last];
    assert multiset(pods[i := last]) == multiset(pods) - multiset{pods[i]} + multiset{last};
    assert pods[i] in multiset(pods);
  }

  lemma SwapRemovedNames(pods: seq<Pod>, i: nat)
    requires i < |pods| && NamesDistinct(pods)
    ensures NamesDistinct(SwapRemoved(pods, i)) && !Named(SwapRemoved(pods, i), pods[i].name)
  {
  }

  /** Adding a pod extends the union; a new name stays the only one of its kind. */
  lemma AppendedPod(profile: Profile, pods: seq<Pod>, p: Pod)
    ensures UnionOf(profile, pods + [p]) == UnionOf(profile, pods) + profile(p)
    ensures NamesDistinct(pods) && !Named(pods, p.name) ==> NamesDistinct(pods + [p])
  {
    assert (pods + [p])[..|pods|] == pods;
  }

  /** The score's two parts: what the new pod lacks of the host, and what each recorded pod lacks of the new union. */
  lemma ExposureWithNew(profile: Profile, pods: seq<Pod>, p: Pod)
    ensures var host := UnionOf(profile, pods);
      TotalExposure(profile, pods + [p]) == |host - profile(p)| + Exposure(profile, host + profile(p), pods)
  {
    AppendedPod(profile, pods, p);
    var host := UnionOf(profile, pods);
    assert (pods + [p])[..|pods|] == pods;
    assert (host + profile(p)) - profile(p) == host - profile(p);
  }

  class SySched {
    const profile: Profile
    var hostToPods: map<string, seq<Pod>>
    var hostSyscalls: map<string, set<string>>
    var exSAvg: real
    var exSAvgCount: int

    /** The scores given so far, oldest first. */
    ghost var scores: seq<int>

    constructor (profile: Profile)
      ensures Valid() && this.profile == profile && hostToPods == map[]
    {
      this.profile := profile;
      hostToPods, hostSyscalls := map[], map[];
      exSAvg, exSAvgCount, scores := 0.0, 1, [];
    }

    /** Each node's set is the union over its pods, no name twice, and the average is the mean of the scores. */
    ghost predicate Valid()
      reads this
    {
      && hostToPods.Keys == hostSyscalls.Keys
      && (forall n :: n in hostToPods ==>
            hostSyscalls[n] == UnionOf(profile, hostToPods[n]) && NamesDistinct(hostToPods[n]))
      && IsMean(exSAvg, exSAvgCount, scores)
    }

    ghost function PodsOn(node: string): seq<Pod>
      reads this
    {
      if node in hostToPods then hostToPods[node] else []
    }

    method AddPod(p: Pod)
      requires Valid()
      modifies this`hostToPods, this`hostSyscalls
      ensures Valid()
      ensures var before := old(PodsOn(p.node));
        PodsOn(p.node) == if Named(before, p.name) then before else before + [p]
      ensures forall n :: n != p.node ==> PodsOn(n) == old(PodsOn(n))
    {
      hide IsMean, UnionOf, NamesDistinct;
      var pods: seq<Pod> := [];
      NothingRecorded(profile);
      var calls: set<string> := {};
      if p.node in hostToPods {
        pods, calls := hostToPods[p.node], hostSyscalls[p.node];
        for i := 0 to |pods|
          invariant forall j :: 0 <= j < i ==> pods[j].name != p.name
        {
          if pods[i].name == p.name {
            return;
          }
        }
      }
      AppendedPod(profile, pods, p);
      assert !Named(pods, p.name);
      hostToPods := hostToPods[p.node := pods + [p]];
      hostSyscalls := hostSyscalls[p.node := calls + profile(p)];
    }

    method RecomputeHostSyscalls(pods: seq<Pod>) returns (calls: set<string>)
      ensures calls == UnionOf(profile, pods)
    {
      calls := {};
      for i := 0 to |pods|
        invariant calls == UnionOf(profile, pods[..i])
      {
        assert pods[..i + 1][..i] == pods[..i];
        calls := calls + profile(pods[i]);
      }
      assert pods[..|pods|] == pods;
    }

    /** Removes the pod recorded on the node under that name, if there is one. */
    method RemovePod(p: Pod)
      requires Valid()
      modifies this`hostToPods, this`hostSyscalls
      ensures Valid()
      ensures !Named(old(PodsOn(p.node)), p.name) ==> PodsOn(p.node) == old(PodsOn(p.node))
      ensures Named(old(PodsOn(p.node)), p.name) ==> !Named(PodsOn(p.node), p.name)
      ensures forall q: Pod :: q.name != p.name ==> multiset(PodsOn(p.node))[q] == multiset(old(PodsOn(p.node)))[q]
      ensures forall n :: n != p.node ==> PodsOn(n) == old(PodsOn(n))
    {
      hide IsMean, UnionOf, NamesDistinct, SwapRemoved;
      if p.node !in hostToPods {
        return;
      }
      var pods := hostToPods[p.node];
      for i := 0 to |pods|
        invariant forall j :: 0 <= j < i ==> pods[j].name != p.name
      {
        if pods[i].name == p.name {
          SwapRemovedLosesOne(pods, i);
          SwapRemovedNames(pods, i);
          var calls := RecomputeHostSyscalls(SwapRemoved(pods, i));
          hostToPods := hostToPods[p.node := SwapRemoved(pods, i)];
          hostSyscalls := hostSyscalls[p.node := calls];
          return;
        }
      }
    }

    /** The score is the exposure of the node with the new pod, recomputed from scratch. */
    method Score(p: Pod, node: string) returns (score: int)
      requires Valid()
      modifies this`exSAvg, this`exSAvgCount, this`scores
      ensures Valid()
      ensures score == if profile(p) == {} then 0x7fff_ffff_ffff_ffff else TotalExposure(profile, PodsOn(node) + [p])
      ensures scores == if profile(p) == {} || node !in hostToPods then old(scores) else old(scores) + [score]
    {
      hide IsMean, UnionOf, NamesDistinct, TotalExposure;
      var calls := profile(p);
      if |calls| == 0 {
        return MAX_INT64;
      }
      if node !in hostSyscalls {
        ExposureWithNew(profile, [], p);
        NothingRecorded(profile);
        return 0;
      }
      var host, pods := hostSyscalls[node], hostToPods[node];
      var total := |host - calls|;
      var newHost := host + calls;
      for i := 0 to |pods|
        invariant total == |host - calls| + Exposure(profile, newHost, pods[..i])
      {
        assert pods[..i + 1][..i] == pods[..i];
        total := total + |newHost - profile(pods[i])|;
      }
      assert pods[..|pods|] == pods;
      ExposureWithNew(profile, pods, p);
      MeanMoves(exSAvg, exSAvgCount, scores, total);
      exSAvg := exSAvg + (total as real - exSAvg) / exSAvgCount as real;
      exSAvgCount := exSAvgCount + 1;
      scores := scores + [total];
      return total;
    }
  }

  ghost function Total(scores: seq<int>): int
  {
    if scores == [] then 0 else Total(scores[..|scores| - 1]) + scores[|scores| - 1]
  }

  /** `avg` is the mean of the scores, and `count` is one more than their number. */
  ghost predicate IsMean(avg: real, count: int, scores: seq<int>)
  {
    count == |scores| + 1 && avg * |scores| as real == Total(scores) as real
  }

  lemma NothingRecorded(profile: Profile)
    ensures UnionOf(profile, []) == {} && NamesDistinct([])
  {
  }

  lemma MeanStep(avg: real, n: real, total: real, score: real)
    requires n > 0.0 && avg * (n - 1.0) == total
    ensures (avg + (score - avg) / n) * n == total + score
  {
    var step := (score - avg) / n;
    assert step * n == score - avg;
    assert (avg + step) * n == avg * n + step * n;
    assert avg * (n - 1.0) == avg * n - avg;
  }

  /** The running update keeps the mean of all scores. */
  lemma MeanMoves(avg: real, count: int, scores: seq<int>, score: int)
    requires IsMean(avg, count, scores)
    ensures IsMean(avg + (score as real - avg) / count as real, count + 1, scores + [score])
  {
    assert (scores + [score])[..|scores|] == scores;
    assert |scores| as real == count as real - 1.0;
    MeanStep(avg, count as real, Total(scores) as real, score as real);
  }
}
