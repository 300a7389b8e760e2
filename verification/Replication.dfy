/** Greedy replication of logical experts (`replicate_experts`), one row of weights at a time. */
module Replication {
  import opened Sums
  import opened Packing

  /** Some slot carries replica `r` of expert `e`. */
  ghost predicate HasReplica(phy2log: seq<int>, rank: seq<int>, e: int, r: int)
    requires |phy2log| == |rank|
  {
    exists p :: 0 <= p < |rank| && phy2log[p] == e && rank[p] == r
  }

  /** Slots and pairs (expert e, rank 0..cnt[e]-1) correspond one to one. */
  ghost predicate IsReplicaMap(phy2log: seq<int>, rank: seq<int>, cnt: seq<int>) {
    && |phy2log| == |rank|
    && (forall p :: 0 <= p < |rank| ==> 0 <= phy2log[p] < |cnt| && 0 <= rank[p] < cnt[phy2log[p]])
    && (forall p, q :: 0 <= p < q < |rank| && phy2log[p] == phy2log[q] ==> rank[p] != rank[q])
    && (forall e, r :: 0 <= e < |cnt| && 0 <= r < cnt[e] ==> HasReplica(phy2log, rank, e, r))
  }

  /** At least one replica per expert and `n` replicas in all. */
  ghost predicate IsReplicaCount(cnt: seq<int>, experts: nat, n: int) {
    && |cnt| == experts
    && (forall e :: 0 <= e < experts ==> cnt[e] >= 1)
    && SumInt(cnt) == n
  }

  function Share(w: real, c: int): real
    requires c >= 1
  {
    w / c as real
  }

  /** Adding a replica to `e` was never worse than adding it anywhere else. */
  ghost predicate GreedyCount(w: seq<real>, cnt: seq<int>)
    requires |w| == |cnt| && forall e :: 0 <= e < |cnt| ==> cnt[e] >= 1
  {
    forall e, i :: 0 <= e < |w| && 0 <= i < |w| && cnt[e] >= 2 ==> Share(w[e], cnt[e] - 1) >= Share(w[i], cnt[i])
  }

  lemma ShareAntitone(w: real, c: int, d: int)
    requires w >= 0.0 && 1 <= c <= d
    ensures Share(w, d) <= Share(w, c)
  {
    var x, y := Share(w, c), Share(w, d);
    assert x * c as real == w && y * d as real == w;
    if y > x {
      assert y * d as real >= y * c as real;
      assert y * c as real > x * c as real;
    }
  }

  lemma GreedyCountStep(w: seq<real>, cnt: seq<int>, x: nat)
    requires NonNegative(w) && |w| == |cnt| && x < |w|
    requires forall e :: 0 <= e < |cnt| ==> cnt[e] >= 1
    requires GreedyCount(w, cnt)
    requires forall i :: 0 <= i < |w| ==> Share(w[i], cnt[i]) <= Share(w[x], cnt[x])
    ensures GreedyCount(w, cnt[x := cnt[x] + 1])
  {
    ShareAntitone(w[x], cnt[x], cnt[x] + 1);
  }

  /** Equal totals: an expert with more replicas elsewhere is paid for by one with fewer. */
  lemma SomeoneHasFewer(c: seq<int>, d: seq<int>, i: nat) returns (e: nat)
    requires |c| == |d| && SumInt(c) == SumInt(d) && i < |c| && c[i] < d[i]
    ensures e < |c| && d[e] < c[e]
  {
    if forall j :: 0 <= j < |c| ==> c[j] <= d[j] {
      SumIntMonotone(c, d);
    }
    e :| 0 <= e < |c| && d[e] < c[e];
  }

  /** Optimality: whatever replica counts are chosen, some replica is at least as loaded as every greedy one. */
  lemma GreedyIsOptimal(w: seq<real>, cnt: seq<int>, other: seq<int>, n: int)
    requires NonNegative(w)
    requires IsReplicaCount(cnt, |w|, n) && GreedyCount(w, cnt)
    requires IsReplicaCount(other, |w|, n) && |w| > 0
    ensures MaxShare(w, cnt) <= MaxShare(w, other)
  {
    var i := MaxShareAttained(w, cnt);
    var e := i;
    if cnt[i] < other[i] {
      e := SomeoneHasFewer(cnt, other, i);
      ShareAntitone(w[e], other[e], cnt[e] - 1);
    } else {
      ShareAntitone(w[i], other[i], cnt[i]);
    }
    MaxShareBounds(w, other, e);
  }

  /** The heaviest replica when expert `e` is split evenly over `cnt[e]` replicas. */
  ghost function MaxShare(w: seq<real>, cnt: seq<int>): real
    requires |w| == |cnt| > 0 && forall e :: 0 <= e < |cnt| ==> cnt[e] >= 1
  {
    var n := |w| - 1;
    var last := Share(w[n], cnt[n]);
    if n == 0 then last
    else var rest := MaxShare(w[..n], cnt[..n]); if rest >= last then rest else last
  }

  lemma {:induction false} MaxShareAttained(w: seq<real>, cnt: seq<int>) returns (i: nat)
    requires |w| == |cnt| > 0 && forall e :: 0 <= e < |cnt| ==> cnt[e] >= 1
    ensures i < |w| && MaxShare(w, cnt) == Share(w[i], cnt[i])
    decreases |w|
  {
    var n := |w| - 1;
    i := n;
    if n > 0 && MaxShare(w[..n], cnt[..n]) >= Share(w[n], cnt[n]) {
      i := MaxShareAttained(w[..n], cnt[..n]);
    }
  }

  lemma {:induction false} MaxShareBounds(w: seq<real>, cnt: seq<int>, i: nat)
    requires |w| == |cnt| > 0 && forall e :: 0 <= e < |cnt| ==> cnt[e] >= 1
    requires i < |w|
    ensures Share(w[i], cnt[i]) <= MaxShare(w, cnt)
    decreases |w|
  {
    var n := |w| - 1;
    if i < n {
      MaxShareBounds(w[..n], cnt[..n], i);
    }
  }

  /** No assignment of as many replicas has a lighter heaviest replica. */
  ghost predicate IsOptimalCount(w: seq<real>, cnt: seq<int>, n: int)
    requires |w| > 0 && IsReplicaCount(cnt, |w|, n)
  {
    forall other :: IsReplicaCount(other, |w|, n) ==> MaxShare(w, cnt) <= MaxShare(w, other)
  }

  /** Index of a largest per-replica load. */
  method HeaviestExpert(w: seq<real>, cnt: seq<int>) returns (x: nat)
    requires |w| == |cnt| > 0 && forall e :: 0 <= e < |cnt| ==> cnt[e] >= 1
    ensures x < |w|
    ensures forall i :: 0 <= i < |w| ==> Share(w[i], cnt[i]) <= Share(w[x], cnt[x])
  {
    x := 0;
    for j := 1 to |w|
      invariant x < |w|
      invariant forall i :: 0 <= i < j ==> Share(w[i], cnt[i]) <= Share(w[x], cnt[x])
    {
      if Share(w[j], cnt[j]) > Share(w[x], cnt[x]) {
        x := j;
      }
    }
  }

  lemma ReplicaMapStep(phy2log: seq<int>, rank: seq<int>, cnt: seq<int>, x: nat)
    requires IsReplicaMap(phy2log, rank, cnt) && x < |cnt| && cnt[x] >= 0
    ensures IsReplicaMap(phy2log + [x], rank + [cnt[x]], cnt[x := cnt[x] + 1])
  {
    var f, g, c := phy2log + [x], rank + [cnt[x]], cnt[x := cnt[x] + 1];
    forall e, r | 0 <= e < |c| && 0 <= r < c[e] ensures HasReplica(f, g, e, r) {
      if e == x && r == cnt[x] {
        assert f[|rank|] == e && g[|rank|] == r;
      } else {
        assert HasReplica(phy2log, rank, e, r);
        var p :| 0 <= p < |rank| && phy2log[p] == e && rank[p] == r;
        assert f[p] == e && g[p] == r;
      }
    }
  }

  method ReplicateExperts(w: seq<real>, numPhy: nat) returns (phy2log: seq<int>, rank: seq<int>, cnt: seq<int>)
    requires NonNegative(w)
    requires 0 < |w| <= numPhy
    ensures |phy2log| == numPhy
    ensures IsReplicaMap(phy2log, rank, cnt)
    ensures IsReplicaCount(cnt, |w|, numPhy)
    ensures IsOptimalCount(w, cnt, numPhy)
  {
    phy2log := seq(|w|, i => i);
    rank := seq(|w|, _ => 0);
    cnt := seq(|w|, _ => 1);
    SumIntConstant(cnt, 1);
    forall e, r | 0 <= e < |cnt| && 0 <= r < cnt[e] ensures HasReplica(phy2log, rank, e, r) {
      assert phy2log[e] == e;
    }
    for i := |w| to numPhy
      invariant |phy2log| == i
      invariant IsReplicaMap(phy2log, rank, cnt)
      invariant IsReplicaCount(cnt, |w|, i)
      invariant GreedyCount(w, cnt)
    {
      var x := HeaviestExpert(w, cnt);
      ReplicaMapStep(phy2log, rank, cnt, x);
      GreedyCountStep(w, cnt, x);
      SumIntUpdate(cnt, x, cnt[x] + 1);
      phy2log, rank, cnt := phy2log + [x], rank + [cnt[x]], cnt[x := cnt[x] + 1];
    }
    forall other | IsReplicaCount(other, |w|, numPhy) ensures MaxShare(w, cnt) <= MaxShare(w, other) {
      GreedyIsOptimal(w, cnt, other, numPhy);
    }
  }
}
