/** Sorting token-expert pairs by local expert and cutting the result by expert counts. */
module ExpertSort {
  import opened Indexing
  import opened Sums

  /** Keys equal to `e`. */
  function Count(keys: seq<int>, e: int): nat {
    if keys == [] then 0 else Count(keys[..|keys| - 1], e) + (if keys[|keys| - 1] == e then 1 else 0)
  }

  /** Keys below `e`. */
  function CountBelow(keys: seq<int>, e: int): nat {
    if keys == [] then 0 else CountBelow(keys[..|keys| - 1], e) + (if keys[|keys| - 1] < e then 1 else 0)
  }

  ghost predicate Ascending(keys: seq<int>) {
    forall i, j :: 0 <= i < j < |keys| ==> keys[i] <= keys[j]
  }

  lemma {:induction false} CountBelowNext(keys: seq<int>, e: int)
    ensures CountBelow(keys, e + 1) == CountBelow(keys, e) + Count(keys, e)
  {
    if keys != [] { CountBelowNext(keys[..|keys| - 1], e); }
  }

  lemma {:induction false} CountBelowBound(keys: seq<int>, e: int)
    ensures CountBelow(keys, e) <= |keys|
    ensures (forall i :: 0 <= i < |keys| ==> keys[i] >= e) ==> CountBelow(keys, e) == 0
    ensures (forall i :: 0 <= i < |keys| ==> keys[i] < e) ==> CountBelow(keys, e) == |keys|
  {
    if keys != [] {
      CountBelowBound(keys[..|keys| - 1], e);
      assert forall i :: 0 <= i < |keys| - 1 ==> keys[..|keys| - 1][i] == keys[i];
    }
  }

  /** In sorted keys, the positions holding keys below `e` are the first `CountBelow(keys, e)`. */
  lemma {:induction false} SortedBorder(keys: seq<int>, e: int, s: nat)
    requires Ascending(keys) && s < |keys|
    ensures keys[s] < e <==> s < CountBelow(keys, e)
  {
    var n := |keys| - 1;
    CountBelowBound(keys[..n], e);
    if s < n {
      SortedBorder(keys[..n], e, s);
      if keys[n] < e {
        assert forall i :: 0 <= i < n ==> keys[..n][i] < e;
      }
    } else if keys[n] < e {
      assert forall i :: 0 <= i < n ==> keys[..n][i] < e;
    }
  }

  /* ----- Reordering keys changes no count ----- */

  ghost function Below(keys: seq<int>, e: int): (r: seq<real>)
    ensures |r| == |keys| && forall i :: 0 <= i < |r| ==> r[i] == if keys[i] < e then 1.0 else 0.0
  {
    seq(|keys|, i requires 0 <= i < |keys| => if keys[i] < e then 1.0 else 0.0)
  }

  lemma {:induction false} BelowSum(keys: seq<int>, e: int)
    ensures Sum(Below(keys, e)) == CountBelow(keys, e) as real
  {
    if keys != [] {
      var n := |keys| - 1;
      BelowSum(keys[..n], e);
      assert Below(keys, e)[..n] == Below(keys[..n], e);
    }
  }

  lemma CountBelowGather(keys: seq<int>, perm: seq<int>, e: int)
    requires IsPermutation(perm, |keys|)
    ensures CountBelow(Gather(keys, perm), e) == CountBelow(keys, e)
  {
    BelowSum(keys, e);
    BelowSum(Gather(keys, perm), e);
    assert Below(Gather(keys, perm), e) == Gather(Below(keys, e), perm);
    SumGather(Below(keys, e), perm);
  }

  /* ----- Expert counts ----- */

  /** `token_counts[:num_experts]`: how many pairs every local expert received. */
  method CountExperts(keys: seq<int>, numExperts: nat) returns (counts: seq<int>)
    requires forall i :: 0 <= i < |keys| ==> 0 <= keys[i] <= numExperts
    ensures |counts| == numExperts && forall e :: 0 <= e < numExperts ==> counts[e] == Count(keys, e)
  {
    var all := seq(numExperts + 1, _ => 0);
    for i := 0 to |keys|
      invariant |all| == numExperts + 1
      invariant forall e :: 0 <= e <= numExperts ==> all[e] == Count(keys[..i], e)
    {
      assert keys[..i + 1][..i] == keys[..i];
      all := all[keys[i] := all[keys[i]] + 1];
    }
    assert keys[..|keys|] == keys;
    counts := all[..numExperts];
  }

  /** Row offset of expert `e` when rows are cut by counts. */
  lemma {:induction false} OffsetIsCountBelow(keys: seq<int>, counts: seq<int>, e: nat)
    requires forall i :: 0 <= i < |keys| ==> 0 <= keys[i]
    requires e <= |counts| && forall x :: 0 <= x < |counts| ==> counts[x] == Count(keys, x)
    ensures SumInt(counts[..e]) == CountBelow(keys, e)
  {
    if e == 0 {
      CountBelowBound(keys, 0);
    } else {
      OffsetIsCountBelow(keys, counts, e - 1);
      CountBelowNext(keys, e - 1);
      assert counts[..e][..e - 1] == counts[..e - 1];
    }
  }

  /** `order` lists the keys in ascending order; ties may come in any order. */
  ghost predicate IsSortOrder(keys: seq<int>, order: seq<int>) {
    IsPermutation(order, |keys|) && Ascending(Gather(keys, order))
  }

  /** The rows cut out for expert `e` are exactly the sorted positions with key `e`. */
  lemma SegmentsAreExperts(keys: seq<int>, order: seq<int>, counts: seq<int>, e: nat, s: nat)
    requires forall i :: 0 <= i < |keys| ==> 0 <= keys[i]
    requires IsSortOrder(keys, order)
    requires forall x :: 0 <= x < |counts| ==> counts[x] == Count(keys, x)
    requires e < |counts| && s < |keys|
    ensures SumInt(counts[..e]) <= s < SumInt(counts[..e + 1]) <==> keys[order[s]] == e
  {
    var sorted := Gather(keys, order);
    OffsetIsCountBelow(keys, counts, e);
    OffsetIsCountBelow(keys, counts, e + 1);
    CountBelowGather(keys, order, e);
    CountBelowGather(keys, order, e + 1);
    SortedBorder(sorted, e, s);
    SortedBorder(sorted, e + 1, s);
  }

  /* ----- Keys sorted through their 32-bit patterns read as floats ----- */

  function Pow2(n: nat): nat {
    if n == 0 then 1 else 2 * Pow2(n - 1)
  }

  const MANTISSAS: nat := 0x80_0000

  /** 2^149 times the value of a finite non-negative IEEE 754 single, from exponent and mantissa bits. */
  function FloatOf(exponent: nat, mantissa: nat): nat {
    if exponent == 0 then mantissa else (MANTISSAS + mantissa) * Pow2(exponent - 1)
  }

  function FloatValue(x: nat): nat {
    FloatOf(x / MANTISSAS, x % MANTISSAS)
  }

  lemma {:induction false} Pow2Monotone(a: nat, b: nat)
    requires a <= b
    ensures 1 <= Pow2(a) <= Pow2(b)
  {
    if b > 0 && a < b { Pow2Monotone(a, b - 1); } else if a > 0 { Pow2Monotone(a - 1, a - 1); }
  }

  lemma ScaleLe(a: nat, j: nat, k: nat)
    requires j <= k
    ensures a * j <= a * k
  {
  }

  lemma FloatBelowNextExponent(e: nat, m: nat)
    requires m < MANTISSAS
    ensures FloatOf(e, m) < MANTISSAS * Pow2(e)
  {
    Pow2Monotone(0, e);
    if e == 0 {
      assert Pow2(0) == 1;
    } else {
      Pow2Monotone(0, e - 1);
      MulStrict(MANTISSAS + m, 2 * MANTISSAS, Pow2(e - 1));
      assert 2 * MANTISSAS * Pow2(e - 1) == MANTISSAS * Pow2(e);
    }
  }

  lemma FloatPartsOrder(e: nat, m: nat, f: nat, n: nat)
    requires m < MANTISSAS && n < MANTISSAS && (e < f || (e == f && m < n))
    ensures FloatOf(e, m) < FloatOf(f, n)
  {
    if e == f {
      if e > 0 {
        Pow2Monotone(0, e - 1);
        MulStrict(MANTISSAS + m, MANTISSAS + n, Pow2(e - 1));
      }
    } else {
      FloatBelowNextExponent(e, m);
      Pow2Monotone(e, f - 1);
      ScaleLe(MANTISSAS, Pow2(e), Pow2(f - 1));
      assert MANTISSAS * Pow2(f - 1) <= (MANTISSAS + n) * Pow2(f - 1);
    }
  }

  /** Reading non-negative 32-bit integers as floats keeps their order. */
  lemma FloatOrder(x: nat, y: nat)
    requires x < y
    ensures FloatValue(x) < FloatValue(y)
  {
    FloatPartsOrder(x / MANTISSAS, x % MANTISSAS, y / MANTISSAS, y % MANTISSAS);
  }

  /** `order` sorts the keys by their bit patterns read as floats. */
  ghost predicate SortsFloats(keys: seq<int>, order: seq<int>) {
    && (forall i :: 0 <= i < |keys| ==> keys[i] >= 0) && IsPermutation(order, |keys|)
    && (forall i, j :: 0 <= i < j < |keys| ==> FloatValue(keys[order[i]]) <= FloatValue(keys[order[j]]))
  }

  /** An order sorts the float readings exactly when it sorts the expert ids themselves. */
  lemma SortedThroughFloats(keys: seq<int>, order: seq<int>)
    requires forall i :: 0 <= i < |keys| ==> keys[i] >= 0
    ensures SortsFloats(keys, order) <==> IsSortOrder(keys, order)
  {
    if IsPermutation(order, |keys|) {
      forall i, j | 0 <= i < j < |keys|
        ensures keys[order[i]] <= keys[order[j]] <==> FloatValue(keys[order[i]]) <= FloatValue(keys[order[j]])
      {
        if keys[order[j]] < keys[order[i]] {
          FloatOrder(keys[order[j]], keys[order[i]]);
        } else if keys[order[i]] < keys[order[j]] {
          FloatOrder(keys[order[i]], keys[order[j]]);
        }
      }
    }
  }
}
