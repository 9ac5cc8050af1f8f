/**
  Pods as the preemption plugins see them, their resource vectors and their order of importance.
 */
module Pods {

  /** A resource vector, as kept by the scheduler framework. */
  datatype Resource = Resource(milliCpu: int, memory: int, ephemeral: int, podNumber: int, scalars: map<string, int>)

  const Nothing := Resource(0, 0, 0, 0, map[])

  /** `scheduledAt` is the time of a true PodScheduled condition, if the pod has one. */
  datatype Pod = Pod(
    uid: string, namespace: string, name: string, labels: map<string, string>,
    priority: int, startTime: int, className: string, scheduled: bool, scheduledAt: int,
    request: Resource)

  /** Higher priority first, and the longer running pod first among equals. */
  predicate MoreImportant(a: Pod, b: Pod)
  {
    a.priority > b.priority || (a.priority == b.priority && a.startTime < b.startTime)
  }

  /** No pod comes after one that is less important. */
  ghost predicate Sorted(s: seq<Pod>)
  {
    forall i, j :: 0 <= i < j < |s| ==> !MoreImportant(s[j], s[i])
  }

  /** In plain words: falling priority, and among equal ones the pod that started first comes first. */
  lemma SortedMeans(s: seq<Pod>)
    ensures Sorted(s) <==> forall i, j :: 0 <= i < j < |s| ==>
      s[i].priority > s[j].priority || (s[i].priority == s[j].priority && s[i].startTime <= s[j].startTime)
  {
  }

  ghost predicate Distinct(s: seq<Pod>)
  {
    forall i, j :: 0 <= i < j < |s| ==> s[i] != s[j]
  }

  function Elements(s: seq<Pod>): set<Pod>
  {
    set p | p in s
  }

  lemma PermutationSameElements(a: seq<Pod>, b: seq<Pod>)
    requires multiset(a) == multiset(b)
    ensures Elements(a) == Elements(b) && |a| == |b|
  {
    assert forall p :: p in a <==> p in multiset(a);
    assert forall p :: p in b <==> p in multiset(b);
    assert |multiset(a)| == |a| && |multiset(b)| == |b|;
  }

  lemma DistinctCounts(s: seq<Pod>)
    requires Distinct(s)
    ensures forall p :: multiset(s)[p] <= 1
  {
    if s != [] {
      var rest := s[..|s| - 1];
      assert s == rest + [s[|s| - 1]];
      DistinctCounts(rest);
      assert s[|s| - 1] !in rest;
      assert s[|s| - 1] !in multiset(rest);
    }
  }

  lemma PermutationDistinct(a: seq<Pod>, b: seq<Pod>)
    requires multiset(a) == multiset(b) && Distinct(a)
    ensures Distinct(b)
  {
    DistinctCounts(a);
    forall i, j | 0 <= i < j < |b| ensures b[i] != b[j] {
      var front, back := b[..j], b[j..];
      assert b == front + back && front[i] == b[i] && back[0] == b[j];
      assert multiset(b) == multiset(front) + multiset(back);
      assert multiset(front)[front[i]] >= 1 && multiset(back)[back[0]] >= 1;
      assert multiset(b)[b[i]] == multiset(front)[b[i]] + multiset(back)[b[i]];
    }
  }

  lemma {:induction false} DistinctSize(s: seq<Pod>)
    requires Distinct(s)
    ensures |Elements(s)| == |s|
  {
    if s != [] {
      var rest, last := s[..|s| - 1], s[|s| - 1];
      DistinctSize(rest);
      assert s == rest + [last];
      assert Elements(s) == Elements(rest) + {last};
      assert last !in Elements(rest);
    }
  }

  lemma InsertedSorted(s: seq<Pod>, p: Pod, i: nat)
    requires Sorted(s) && i <= |s|
    requires forall j :: i <= j < |s| ==> MoreImportant(p, s[j])
    requires i > 0 ==> !MoreImportant(p, s[i - 1])
    ensures Sorted(s[..i] + [p] + s[i..])
  {
    var r := s[..i] + [p] + s[i..];
    forall x, y | 0 <= x < y < |r| ensures !MoreImportant(r[y], r[x]) {
      if x < i && i > 0 {
        assert x == i - 1 || !MoreImportant(s[i - 1], s[x]);
      }
    }
  }

  /** Inserts after every pod that is not less important, so ties keep their order. */
  method Insert(s: seq<Pod>, p: Pod) returns (r: seq<Pod>)
    requires Sorted(s)
    ensures Sorted(r) && multiset(r) == multiset(s) + multiset{p}
  {
    hide Sorted;
    var i := |s|;
    while i > 0 && MoreImportant(p, s[i - 1])
      invariant 0 <= i <= |s|
      invariant forall j :: i <= j < |s| ==> MoreImportant(p, s[j])
    {
      i := i - 1;
    }
    r := s[..i] + [p] + s[i..];
    InsertedSorted(s, p, i);
    assert s == s[..i] + s[i..];
  }

  /** Callers rely on the order by importance only, never on how ties are broken. */
  method SortByImportance(s: seq<Pod>) returns (r: seq<Pod>)
    ensures Sorted(r) && multiset(r) == multiset(s)
  {
    r := [];
    for i := 0 to |s|
      invariant Sorted(r) && multiset(r) == multiset(s[..i])
    {
      r := Insert(r, s[i]);
      assert s[..i + 1] == s[..i] + [s[i]];
    }
    assert s[..|s|] == s;
  }

  /** The least important pod first. */
  method SortLeastImportantFirst(s: seq<Pod>) returns (r: seq<Pod>)
    ensures multiset(r) == multiset(s)
    ensures forall i, j :: 0 <= i < j < |r| ==> !MoreImportant(r[i], r[j])
  {
    hide Sorted, MoreImportant;
    var ranked := SortByImportance(s);
    r := [];
    for i := 0 to |ranked|
      invariant |r| == i && multiset(r) == multiset(ranked[..i])
      invariant forall k :: 0 <= k < i ==> r[k] == ranked[i - 1 - k]
    {
      assert ranked[..i + 1] == ranked[..i] + [ranked[i]];
      PrependedCounts(r, ranked[..i], ranked[i]);
      r := [ranked[i]] + r;
    }
    assert ranked[..|ranked|] == ranked;
    ReversedOrder(ranked, r);
  }

  lemma PrependedCounts(a: seq<Pod>, b: seq<Pod>, p: Pod)
    requires multiset(a) == multiset(b)
    ensures multiset([p] + a) == multiset(b + [p])
  {
    assert multiset([p] + a) == multiset{p} + multiset(a) && multiset(b + [p]) == multiset(b) + multiset{p};
  }

  lemma ReversedOrder(ranked: seq<Pod>, r: seq<Pod>)
    requires Sorted(ranked) && |r| == |ranked| && forall k :: 0 <= k < |r| ==> r[k] == ranked[|r| - 1 - k]
    ensures forall i, j :: 0 <= i < j < |r| ==> !MoreImportant(r[i], r[j])
  {
    hide MoreImportant;
  }

  /** The pods on a node during a dry run. */
  class NodeInfo {
    var pods: set<Pod>

    constructor (pods: set<Pod>)
      ensures this.pods == pods
    {
      this.pods := pods;
    }

    /** Fails, changing nothing, when the pod is not there. */
    method RemovePod(p: Pod) returns (ok: bool)
      modifies this
      ensures pods == old(pods) - {p}
      ensures ok <==> p in old(pods)
    {
      ok := p in pods;
      if ok {
        pods := pods - {p};
      }
    }

    method AddPod(p: Pod)
      modifies this
      ensures pods == old(pods) + {p}
    {
      pods := pods + {p};
    }
  }
}
