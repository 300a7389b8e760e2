/** Finite sums of reals and permutations of index ranges, shared by the load balancer and the MoE dispatch. */
module Sums {

  function Sum(s: seq<real>): real {
    if s == [] then 0.0 else Sum(s[..|s| - 1]) + s[|s| - 1]
  }

  function SumInt(s: seq<int>): int {
    if s == [] then 0 else SumInt(s[..|s| - 1]) + s[|s| - 1]
  }

  /** `p` enumerates 0..n-1, each index once. */
  ghost predicate IsPermutation(p: seq<int>, n: nat) {
    && |p| == n
    && (forall i :: 0 <= i < n ==> 0 <= p[i] < n)
    && (forall i, j :: 0 <= i < j < n ==> p[i] != p[j])
  }

  function Gather<T>(v: seq<T>, index: seq<int>): (r: seq<T>)
    requires forall i :: 0 <= i < |index| ==> 0 <= index[i] < |v|
    ensures |r| == |index|
    ensures forall i :: 0 <= i < |index| ==> r[i] == v[index[i]]
  {
    seq(|index|, i requires 0 <= i < |index| => v[index[i]])
  }

  lemma {:induction false} SumConcat(a: seq<real>, b: seq<real>)
    ensures Sum(a + b) == Sum(a) + Sum(b)
  {
    if b == [] {
      assert a + b == a;
    } else {
      SumConcat(a, b[..|b| - 1]);
      assert (a + b)[..|a + b| - 1] == a + b[..|b| - 1];
    }
  }

  lemma SumUpToThree(v: seq<real>)
    requires 1 <= |v| <= 3
    ensures Sum(v) == v[0] + (if |v| > 1 then v[1] else 0.0) + (if |v| > 2 then v[2] else 0.0)
  {
    assert v[..1] == [v[0]] && Sum([v[0]]) == v[0] by { assert [v[0]][..0] == []; }
    if |v| == 1 { assert v == v[..1]; }
    if |v| == 2 { assert v[..|v| - 1] == v[..1]; }
    if |v| == 3 { assert v[..2][..1] == v[..1]; }
  }

  lemma {:induction false} SumUpdate(s: seq<real>, i: nat, v: real)
    requires i < |s|
    ensures Sum(s[i := v]) == Sum(s) - s[i] + v
  {
    var n := |s| - 1;
    if i < n {
      SumUpdate(s[..n], i, v);
      assert s[i := v][..n] == s[..n][i := v];
    } else {
      assert s[i := v][..n] == s[..n];
    }
  }

  lemma {:induction false} SumIntUpdate(s: seq<int>, i: nat, v: int)
    requires i < |s|
    ensures SumInt(s[i := v]) == SumInt(s) - s[i] + v
  {
    var n := |s| - 1;
    if i < n {
      SumIntUpdate(s[..n], i, v);
      assert s[i := v][..n] == s[..n][i := v];
    } else {
      assert s[i := v][..n] == s[..n];
    }
  }

  lemma {:induction false} SumNonNegative(s: seq<real>)
    requires forall i :: 0 <= i < |s| ==> s[i] >= 0.0
    ensures Sum(s) >= 0.0
  {
    if s != [] { SumNonNegative(s[..|s| - 1]); }
  }

  lemma {:induction false} SumIntNonNegative(s: seq<int>)
    requires forall i :: 0 <= i < |s| ==> s[i] >= 0
    ensures SumInt(s) >= 0
  {
    if s != [] { SumIntNonNegative(s[..|s| - 1]); }
  }

  lemma SumIntAppend(s: seq<int>, v: int)
    ensures SumInt(s + [v]) == SumInt(s) + v
  {
    assert (s + [v])[..|s|] == s;
  }

  /** A sum of `n` equal terms. */
  lemma {:induction false} SumConstant(s: seq<real>, v: real)
    requires forall i :: 0 <= i < |s| ==> s[i] == v
    ensures Sum(s) == |s| as real * v
  {
    if s != [] {
      SumConstant(s[..|s| - 1], v);
      assert |s| as real == (|s| - 1) as real + 1.0;
    }
  }

  lemma {:induction false} SumIntConstant(s: seq<int>, v: int)
    requires forall i :: 0 <= i < |s| ==> s[i] == v
    ensures SumInt(s) == |s| * v
  {
    if s != [] {
      SumIntConstant(s[..|s| - 1], v);
      assert |s| * v == (|s| - 1) * v + v;
    }
  }

  /** Two integer vectors ordered point by point have ordered sums, and equal sums only when they agree. */
  lemma {:induction false} SumIntMonotone(a: seq<int>, b: seq<int>)
    requires |a| == |b|
    requires forall i :: 0 <= i < |a| ==> a[i] <= b[i]
    ensures SumInt(a) <= SumInt(b)
    ensures SumInt(a) == SumInt(b) ==> a == b
  {
    if a != [] {
      var n := |a| - 1;
      SumIntMonotone(a[..n], b[..n]);
      if SumInt(a) == SumInt(b) {
        assert a == a[..n] + [a[n]] && b == b[..n] + [b[n]];
      }
    }
  }

  lemma {:induction false} SumPointwiseAdd(a: seq<real>, b: seq<real>, c: seq<real>)
    requires |a| == |b| == |c|
    requires forall i :: 0 <= i < |a| ==> c[i] == a[i] + b[i]
    ensures Sum(c) == Sum(a) + Sum(b)
  {
    if a != [] {
      var n := |a| - 1;
      SumPointwiseAdd(a[..n], b[..n], c[..n]);
    }
  }

  lemma {:induction false} DistinctCardinality(p: seq<int>)
    requires forall i, j :: 0 <= i < j < |p| ==> p[i] != p[j]
    ensures |set x | x in p| == |p|
  {
    if p != [] {
      var n := |p| - 1;
      DistinctCardinality(p[..n]);
      assert p == p[..n] + [p[n]];
      assert (set x | x in p) == (set x | x in p[..n]) + {p[n]};
    }
  }

  ghost function Range(n: nat): (r: set<int>)
    ensures forall x :: x in r <==> 0 <= x < n
    ensures |r| == n
  {
    if n == 0 then {} else Range(n - 1) + {n - 1}
  }

  lemma SubsetOfEqualSize(a: set<int>, b: set<int>)
    requires a <= b && |a| == |b|
    ensures a == b
  {
    assert |b - a| == |b| - |a|;
    assert b == a + (b - a);
  }

  /** Pigeonhole: an injective map of 0..n-1 into itself reaches every index. */
  lemma PermutationCovers(p: seq<int>, n: nat, v: int) returns (k: nat)
    requires IsPermutation(p, n)
    requires 0 <= v < n
    ensures k < n && p[k] == v
  {
    DistinctCardinality(p);
    var values := set x | x in p;
    assert values <= Range(n);
    SubsetOfEqualSize(values, Range(n));
    assert v in values;
    k :| 0 <= k < |p| && p[k] == v;
  }

  /** Dropping the last slot of a permutation and re-pointing the slot that held `n`. */
  lemma PermutationShrink(p: seq<int>, n: nat, k: nat) returns (q: seq<int>)
    requires IsPermutation(p, n + 1)
    requires k <= n && p[k] == n
    ensures q == if k == n then p[..n] else p[..n][k := p[n]]
    ensures IsPermutation(q, n)
  {
    q := if k == n then p[..n] else p[..n][k := p[n]];
    assert forall i :: 0 <= i <= n && i != k ==> p[i] != p[k];
  }

  lemma GatherShrink(v: seq<real>, p: seq<int>, n: nat, k: nat, q: seq<int>)
    requires |v| == n + 1 && IsPermutation(p, n + 1) && k <= n && p[k] == n
    requires q == (if k == n then p[..n] else p[..n][k := p[n]]) && IsPermutation(q, n)
    ensures Gather(v[..n], q) == if k == n then Gather(v, p)[..n] else Gather(v, p)[..n][k := v[p[n]]]
  {
  }

  lemma SumShrink(v: seq<real>, p: seq<int>, n: nat, k: nat, q: seq<int>)
    requires |v| == n + 1 && IsPermutation(p, n + 1) && k <= n && p[k] == n
    requires q == (if k == n then p[..n] else p[..n][k := p[n]]) && IsPermutation(q, n)
    ensures Sum(Gather(v, p)) == Sum(Gather(v[..n], q)) + v[n]
  {
    GatherShrink(v, p, n, k, q);
    if k < n {
      SumUpdate(Gather(v, p)[..n], k, v[p[n]]);
    }
  }

  /** Reordering by a permutation leaves the sum alone. */
  lemma {:induction false} SumGather(v: seq<real>, p: seq<int>)
    requires IsPermutation(p, |v|)
    ensures Sum(Gather(v, p)) == Sum(v)
    decreases |v|
  {
    if |v| > 0 {
      var n := |v| - 1;
      var k := PermutationCovers(p, |v|, n);
      var q := PermutationShrink(p, n, k);
      SumGather(v[..n], q);
      SumShrink(v, p, n, k, q);
    }
  }

  /** The weights of the items that carry the tag `p`, every other weight replaced by zero. */
  ghost function Tagged(w: seq<real>, tag: seq<int>, p: int): (r: seq<real>)
    requires |w| == |tag|
    ensures |r| == |w|
    ensures forall i :: 0 <= i < |w| ==> r[i] == if tag[i] == p then w[i] else 0.0
  {
    seq(|w|, i requires 0 <= i < |w| => if tag[i] == p then w[i] else 0.0)
  }

  /** Total weight of the items that carry the tag `p`. */
  ghost function TagTotal(w: seq<real>, tag: seq<int>, p: int): real
    requires |w| == |tag|
  {
    Sum(Tagged(w, tag, p))
  }

  lemma TagTotalUpdate(w: seq<real>, tag: seq<int>, i: nat, q: int, p: int)
    requires |w| == |tag| && i < |w|
    ensures TagTotal(w, tag[i := q], p)
         == TagTotal(w, tag, p) - (if tag[i] == p then w[i] else 0.0) + (if q == p then w[i] else 0.0)
  {
    var v := if q == p then w[i] else 0.0;
    SumUpdate(Tagged(w, tag, p), i, v);
    assert Tagged(w, tag[i := q], p) == Tagged(w, tag, p)[i := v];
  }

  lemma TagTotalZero(w: seq<real>, tag: seq<int>, p: int)
    requires |w| == |tag|
    requires forall i :: 0 <= i < |w| ==> tag[i] != p
    ensures TagTotal(w, tag, p) == 0.0
  {
    SumConstant(Tagged(w, tag, p), 0.0);
  }

  /** Listing the carriers of a tag once each gives the tag's total. */
  lemma {:induction false} TagTotalByListing(w: seq<real>, tag: seq<int>, p: int, items: seq<int>)
    requires |w| == |tag|
    requires forall k :: 0 <= k < |items| ==> 0 <= items[k] < |w| && tag[items[k]] == p
    requires forall k, l :: 0 <= k < l < |items| ==> items[k] != items[l]
    requires forall i :: 0 <= i < |w| && tag[i] == p ==> i in items
    ensures TagTotal(w, tag, p) == Sum(Gather(w, items))
    decreases |items|
  {
    if items == [] {
      TagTotalZero(w, tag, p);
    } else {
      var n := |items| - 1;
      var x := items[n];
      assert items == items[..n] + [x];
      TagTotalUpdate(w, tag, x, p - 1, p);
      TagTotalByListing(w, tag[x := p - 1], p, items[..n]);
      assert Gather(w, items)[..n] == Gather(w, items[..n]);
    }
  }

  lemma TagTotalLast(v: seq<real>, tag: seq<int>, p: int)
    requires |v| == |tag| > 0
    ensures var k := |v| - 1;
            TagTotal(v, tag, p) == TagTotal(v[..k], tag[..k], p) + if tag[k] == p then v[k] else 0.0
  {
    var k := |v| - 1;
    assert Tagged(v, tag, p)[..k] == Tagged(v[..k], tag[..k], p);
  }

  /** Totals of all tags below `n`. */
  ghost function TagTotals(v: seq<real>, tag: seq<int>, n: nat): (r: seq<real>)
    requires |v| == |tag|
    ensures |r| == n && forall e :: 0 <= e < n ==> r[e] == TagTotal(v, tag, e)
  {
    seq(n, e => TagTotal(v, tag, e))
  }

  lemma TagTotalsLast(v: seq<real>, tag: seq<int>, n: nat)
    requires |v| == |tag| > 0 && 0 <= tag[|v| - 1] < n
    ensures var k := |v| - 1;
            var rest := TagTotals(v[..k], tag[..k], n);
            TagTotals(v, tag, n) == rest[tag[k] := rest[tag[k]] + v[k]]
  {
    forall e | 0 <= e < n
      ensures TagTotal(v, tag, e) == TagTotal(v[..|v| - 1], tag[..|v| - 1], e) + if tag[|v| - 1] == e then v[|v| - 1] else 0.0
    {
      TagTotalLast(v, tag, e);
    }
  }

  /** Every item counts towards exactly one tag, unless it weighs nothing. */
  lemma {:induction false} SumByTags(v: seq<real>, tag: seq<int>, n: nat)
    requires |v| == |tag| && forall i :: 0 <= i < |tag| ==> 0 <= tag[i] < n || v[i] == 0.0
    ensures Sum(TagTotals(v, tag, n)) == Sum(v)
  {
    if v == [] {
      SumConstant(TagTotals(v, tag, n), 0.0);
    } else {
      SumByTags(v[..|v| - 1], tag[..|v| - 1], n);
      SumTotalsLast(v, tag, n);
    }
  }

  /** One item more adds its weight to the sum of all totals. */
  lemma SumTotalsLast(v: seq<real>, tag: seq<int>, n: nat)
    requires |v| == |tag| > 0 && (0 <= tag[|v| - 1] < n || v[|v| - 1] == 0.0)
    ensures var k := |v| - 1; Sum(TagTotals(v, tag, n)) == Sum(TagTotals(v[..k], tag[..k], n)) + v[k]
  {
    var k := |v| - 1;
    var rest := TagTotals(v[..k], tag[..k], n);
    if 0 <= tag[k] < n {
      TagTotalsLast(v, tag, n);
      SumUpdate(rest, tag[k], rest[tag[k]] + v[k]);
    } else {
      TagTotalsSame(v, tag, n);
    }
  }

  lemma TagTotalsSame(v: seq<real>, tag: seq<int>, n: nat)
    requires |v| == |tag| > 0 && v[|v| - 1] == 0.0
    ensures TagTotals(v, tag, n) == TagTotals(v[..|v| - 1], tag[..|v| - 1], n)
  {
    forall e | 0 <= e < n ensures TagTotal(v, tag, e) == TagTotal(v[..|v| - 1], tag[..|v| - 1], e) {
      TagTotalLast(v, tag, e);
    }
  }

  lemma {:induction false} SumBounded(s: seq<real>, v: real)
    requires forall i :: 0 <= i < |s| ==> s[i] <= v
    ensures Sum(s) <= |s| as real * v
  {
    if s != [] {
      SumBounded(s[..|s| - 1], v);
      assert |s| as real == (|s| - 1) as real + 1.0;
    }
  }

  /** A sum above `n` times `v` has a term above `v`. */
  lemma SomeAbove(s: seq<real>, v: real) returns (i: nat)
    requires Sum(s) > |s| as real * v
    ensures i < |s| && s[i] > v
  {
    if forall j :: 0 <= j < |s| ==> s[j] <= v {
      SumBounded(s, v);
    }
    i :| 0 <= i < |s| && s[i] > v;
  }

  lemma TagTotalNonNegative(w: seq<real>, tag: seq<int>, p: int)
    requires |w| == |tag| && forall i :: 0 <= i < |w| ==> w[i] >= 0.0
    ensures TagTotal(w, tag, p) >= 0.0
  {
    SumNonNegative(Tagged(w, tag, p));
  }

  /** A pack weighs at least as much as each of its items. */
  lemma TagTotalAtLeast(w: seq<real>, tag: seq<int>, x: nat)
    requires |w| == |tag| && x < |w| && forall i :: 0 <= i < |w| ==> w[i] >= 0.0
    ensures TagTotal(w, tag, tag[x]) >= w[x]
  {
    TagTotalUpdate(w, tag, x, tag[x] - 1, tag[x]);
    TagTotalNonNegative(w, tag[x := tag[x] - 1], tag[x]);
  }

  lemma SumFromTotals(v: seq<real>, tag: seq<int>, totals: seq<real>)
    requires |v| == |tag| && forall i :: 0 <= i < |tag| ==> 0 <= tag[i] < |totals|
    requires forall e :: 0 <= e < |totals| ==> TagTotal(v, tag, e) == totals[e]
    ensures Sum(v) == Sum(totals)
  {
    SumByTags(v, tag, |totals|);
    assert TagTotals(v, tag, |totals|) == totals;
  }

  /** Reordering items and tags alike changes no total. */
  lemma TagTotalGather(w: seq<real>, tag: seq<int>, perm: seq<int>, p: int)
    requires |w| == |tag| && IsPermutation(perm, |w|)
    ensures TagTotal(Gather(w, perm), Gather(tag, perm), p) == TagTotal(w, tag, p)
  {
    assert Tagged(Gather(w, perm), Gather(tag, perm), p) == Gather(Tagged(w, tag, p), perm);
    SumGather(Tagged(w, tag, p), perm);
  }

  /** Writes `i` at position `perm[i]` for every `i`: the scatter behind `inverse`. */
  method Inverse(perm: seq<int>) returns (inv: seq<int>)
    requires IsPermutation(perm, |perm|)
    ensures IsPermutation(inv, |perm|)
    ensures forall i :: 0 <= i < |perm| ==> inv[perm[i]] == i
    ensures forall j :: 0 <= j < |perm| ==> perm[inv[j]] == j
  {
    inv := seq(|perm|, _ => 0);
    for i := 0 to |perm|
      invariant |inv| == |perm|
      invariant forall k :: 0 <= k < i ==> inv[perm[k]] == k
    {
      inv := inv[perm[i] := i];
    }
    forall j | 0 <= j < |perm| ensures 0 <= inv[j] < |perm| && perm[inv[j]] == j {
      var k := PermutationCovers(perm, |perm|, j);
    }
  }
}
