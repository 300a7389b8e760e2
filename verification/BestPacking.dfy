/** When greedy packing is as balanced as possible: exactly for packs of at most two items, or a single pack. */
module BestPacking {
  import opened Indexing
  import opened Sums
  import opened Packing
  import opened UnluckyPacking

  /** Some pack of a placement weighs at least `x`. */
  ghost predicate Reaches(w: seq<real>, packIndex: seq<int>, m: nat, x: real)
    requires |w| == |packIndex|
  {
    exists q :: 0 <= q < m && TagTotal(w, packIndex, q) >= x
  }

  /** The heaviest pack is as light as it can be: every placement has a pack that heavy. */
  ghost predicate IsBest(w: seq<real>, packIndex: seq<int>, m: nat, k: nat)
    requires |w| == |packIndex| == m * k
  {
    forall other, ranks, p :: IsPlacement(other, ranks, m, k) && 0 <= p < m ==>
      Reaches(w, other, m, TagTotal(w, packIndex, p))
  }

  /* ----- Packs of one item, and a single pack ----- */

  lemma ReachesItem(w: seq<real>, other: seq<int>, ranks: seq<int>, m: nat, k: nat, x: nat)
    requires NonNegative(w) && IsPlacement(other, ranks, m, k) && |w| == |other| && x < |w|
    ensures Reaches(w, other, m, w[x])
  {
    TagTotalAtLeast(w, other, x);
  }

  /** An item alone on its pack is all the pack weighs. */
  lemma TotalOfOne(w: seq<real>, tag: seq<int>, x: nat)
    requires |w| == |tag| && x < |w| && forall y :: 0 <= y < |tag| && tag[y] == tag[x] ==> y == x
    ensures TagTotal(w, tag, tag[x]) == w[x]
  {
    TagTotalByListing(w, tag, tag[x], [x as int]);
    SumUpToThree(Gather(w, [x as int]));
  }

  lemma TotalOfTwo(w: seq<real>, tag: seq<int>, x: nat, y: nat)
    requires |w| == |tag| && x < |w| && y < |w| && x != y && tag[x] == tag[y]
    requires forall z :: 0 <= z < |tag| && tag[z] == tag[x] ==> z == x || z == y
    ensures TagTotal(w, tag, tag[x]) == w[x] + w[y]
  {
    TagTotalByListing(w, tag, tag[x], [x as int, y]);
    SumUpToThree(Gather(w, [x as int, y]));
  }

  /** With room for one item per pack, every placement is best. */
  lemma SinglesAreBest(w: seq<real>, packIndex: seq<int>, rank: seq<int>, m: nat)
    requires NonNegative(w) && IsPlacement(packIndex, rank, m, 1) && |w| == |packIndex|
    ensures IsBest(w, packIndex, m, 1)
  {
    forall other, ranks, p | IsPlacement(other, ranks, m, 1) && 0 <= p < m
      ensures Reaches(w, other, m, TagTotal(w, packIndex, p))
    {
      if x :| 0 <= x < |w| && packIndex[x] == p {
        TotalOfOne(w, packIndex, x);
        ReachesItem(w, other, ranks, m, 1, x);
      } else {
        TagTotalZero(w, packIndex, p);
        TagTotalNonNegative(w, other, p);
      }
    }
  }

  /** A single pack holds everything. */
  lemma OnePackIsBest(w: seq<real>, packIndex: seq<int>, rank: seq<int>, k: nat)
    requires IsPlacement(packIndex, rank, 1, k) && |w| == |packIndex|
    ensures IsBest(w, packIndex, 1, k)
  {
    forall other, ranks, p | IsPlacement(other, ranks, 1, k) && 0 <= p < 1
      ensures Reaches(w, other, 1, TagTotal(w, packIndex, p))
    {
      assert Tagged(w, packIndex, 0) == w == Tagged(w, other, 0);
      assert TagTotal(w, other, 0) >= TagTotal(w, packIndex, p);
    }
  }

  /** Without items all packs weigh nothing. */
  lemma EmptyIsBest(w: seq<real>, packIndex: seq<int>, m: nat)
    requires w == [] && packIndex == []
    ensures IsBest(w, packIndex, m, 0)
  {
    forall other, ranks, p | IsPlacement(other, ranks, m, 0) && 0 <= p < m
      ensures Reaches(w, other, m, TagTotal(w, packIndex, p))
    {
      TagTotalZero(w, packIndex, p);
      TagTotalZero(w, other, p);
    }
  }

  /* ----- Packs of two items ----- */

  ghost function Ones(n: nat): (r: seq<real>)
    ensures |r| == n && forall i :: 0 <= i < n ==> r[i] == 1.0
  {
    seq(n, _ => 1.0)
  }

  /** Counts are the numbers of items placed. */
  ghost predicate Itemized(s: Packs, n: nat, m: nat)
    requires s.Wf(n, m)
  {
    forall q :: 0 <= q < m ==> s.counts[q] as real == TagTotal(Ones(n), s.packIndex, q)
  }

  lemma ItemizedInit(n: nat, m: nat)
    ensures Itemized(EmptyPacks(n, m), n, m)
  {
    forall q | 0 <= q < m ensures TagTotal(Ones(n), EmptyPacks(n, m).packIndex, q) == 0.0 {
      TagTotalZero(Ones(n), EmptyPacks(n, m).packIndex, q);
    }
  }

  lemma ItemizedStep(s: Packs, n: nat, m: nat, x: nat, weight: real, p: nat)
    requires s.Wf(n, m) && Itemized(s, n, m) && x < n && p < m && s.packIndex[x] == -1
    ensures Itemized(s.Place(x, weight, p), n, m)
  {
    forall q | 0 <= q < m
      ensures TagTotal(Ones(n), s.packIndex[x := p], q) == s.Place(x, weight, p).counts[q] as real
    {
      TagTotalUpdate(Ones(n), s.packIndex, x, p, q);
    }
  }

  lemma {:induction false} ScaledTotal(v: seq<real>, tag: seq<int>, q: int, c: real)
    requires |v| == |tag| && forall i :: 0 <= i < |tag| && tag[i] == q ==> v[i] == c
    ensures TagTotal(v, tag, q) == c * TagTotal(Ones(|v|), tag, q)
  {
    if v != [] {
      var k := |v| - 1;
      ScaledTotal(v[..k], tag[..k], q, c);
      TagTotalLast(v, tag, q);
      TagTotalLast(Ones(|v|), tag, q);
      assert Ones(|v|)[..k] == Ones(k);
    }
  }

  /** An empty pack weighs nothing. */
  lemma EmptyPack(w: seq<real>, s: Packs, m: nat, q: nat)
    requires s.Wf(|w|, m) && Ranked(s, |w|, m) && q < m && s.counts[q] == 0
    ensures TagTotal(w, s.packIndex, q) == 0.0
  {
    TagTotalZero(w, s.packIndex, q);
  }

  /** Items placed so far are at least as heavy as the next one. */
  lemma PlacedHeavier(w: seq<real>, order: seq<int>, t: nat, s: Packs, m: nat, k: nat, y: nat)
    requires IsDescendingOrder(w, order) && Packed(w, order, t, s, m, k) && t < |w| && y < |w|
    requires s.packIndex[y] != -1 || y == order[t]
    ensures w[y] >= w[order[t]]
  {
    var b := PermutationCovers(order, |w|, y);
  }

  /** When a positive item goes onto a pack that has one, no pack is empty any more. */
  lemma NoneEmpty(w: seq<real>, order: seq<int>, t: nat, s: Packs, m: nat, p: nat)
    requires NonNegative(w) && IsDescendingOrder(w, order) && Packed(w, order, t, s, m, 2) && t < |w|
    requires Itemized(s, |w|, m) && IsLightestOpen(s, 2, p) && s.counts[p] == 1 && w[order[t]] > 0.0
    ensures forall q :: 0 <= q < m ==> 1 <= s.counts[q] <= 2
  {
    if forall a :: 0 <= a < |w| ==> s.packIndex[a] != p {
      TagTotalZero(Ones(|w|), s.packIndex, p);
    }
    var a :| 0 <= a < |w| && s.packIndex[a] == p;
    PlacedHeavier(w, order, t, s, m, 2, a);
    TagTotalAtLeast(w, s.packIndex, a);
    assert s.totals[p] > 0.0;
    forall q | 0 <= q < m ensures s.counts[q] == 0 ==> s.totals[q] == 0.0 {
      if s.counts[q] == 0 { EmptyPack(w, s, m, q); }
    }
  }

  /** What the pigeonhole counts: two for an item alone on its pack, one for any other placed item. */
  ghost function Counters(s: Packs, n: nat, m: nat): (v: seq<real>)
    requires s.Wf(n, m) && Ranked(s, n, m)
    ensures |v| == n
    ensures forall y :: 0 <= y < n ==>
              v[y] == if s.packIndex[y] == -1 then 0.0 else if s.counts[s.packIndex[y]] == 1 then 2.0 else 1.0
  {
    seq(n, y requires 0 <= y < n =>
      if s.packIndex[y] == -1 then 0.0 else if s.counts[s.packIndex[y]] == 1 then 2.0 else 1.0)
  }

  ghost predicate IsCounter(x: real) {
    x == 0.0 || x == 1.0 || x == 2.0
  }

  lemma PackCountsTwo(s: Packs, n: nat, m: nat, q: nat)
    requires s.Wf(n, m) && Ranked(s, n, m) && Itemized(s, n, m) && q < m && 1 <= s.counts[q] <= 2
    ensures TagTotal(Counters(s, n, m), s.packIndex, q) == 2.0
  {
    ScaledTotal(Counters(s, n, m), s.packIndex, q, if s.counts[q] == 1 then 2.0 else 1.0);
  }

  /** Every pack counts two. */
  lemma CountersTotal(s: Packs, n: nat, m: nat)
    requires s.Wf(n, m) && Ranked(s, n, m) && Itemized(s, n, m)
    requires forall q :: 0 <= q < m ==> 1 <= s.counts[q] <= 2
    ensures Sum(Counters(s, n, m)) == m as real * 2.0
  {
    var v := Counters(s, n, m);
    forall q | 0 <= q < m ensures TagTotal(v, s.packIndex, q) == 2.0 {
      PackCountsTwo(s, n, m, q);
    }
    SumByTags(v, s.packIndex, m);
    SumConstant(TagTotals(v, s.packIndex, m), 2.0);
  }

  /** The counters with the next item as well. */
  lemma NextCounters(s: Packs, n: nat, m: nat, x: nat) returns (v: seq<real>)
    requires s.Wf(n, m) && Ranked(s, n, m) && Itemized(s, n, m) && x < n && s.packIndex[x] == -1
    requires forall q :: 0 <= q < m ==> 1 <= s.counts[q] <= 2
    ensures |v| == n && Sum(v) > m as real * 2.0 && forall i :: 0 <= i < n ==> IsCounter(v[i])
    ensures forall y :: 0 <= y < n && v[y] == 2.0 ==> s.packIndex[y] != -1 && s.counts[s.packIndex[y]] == 1
    ensures forall z :: 0 <= z < n && v[z] >= 1.0 ==> s.packIndex[z] != -1 || z == x
  {
    CountersTotal(s, n, m);
    SumUpdate(Counters(s, n, m), x, 1.0);
    v := Counters(s, n, m)[x := 1.0];
  }

  /** Counting the next item as well, some pack of any other placement counts more than two, so it holds two
      items, one of which counts two. */
  lemma CrowdedPack(v: seq<real>, other: seq<int>, ranks: seq<int>, m: nat) returns (y: nat, z: nat)
    requires IsPlacement(other, ranks, m, 2) && |v| == |other|
    requires forall i :: 0 <= i < |v| ==> IsCounter(v[i])
    requires Sum(v) > m as real * 2.0
    ensures y < |v| && z < |v| && y != z && other[y] == other[z]
    ensures forall i :: 0 <= i < |v| && other[i] == other[y] ==> i == y || i == z
    ensures v[y] == 2.0 && v[z] >= 1.0
  {
    var q := CrowdedIndex(v, other, m);
    y, z := TwoItems(v, other, ranks, m, q);
    if v[y] != 2.0 { y, z := z, y; }
  }

  lemma CrowdedIndex(v: seq<real>, other: seq<int>, m: nat) returns (q: nat)
    requires |v| == |other| && (forall i :: 0 <= i < |v| ==> 0 <= other[i] < m) && Sum(v) > m as real * 2.0
    ensures q < m && TagTotal(v, other, q) > 2.0
  {
    SumByTags(v, other, m);
    q := SomeAbove(TagTotals(v, other, m), 2.0);
  }

  lemma TwoItems(v: seq<real>, other: seq<int>, ranks: seq<int>, m: nat, q: nat) returns (a: nat, b: nat)
    requires IsPlacement(other, ranks, m, 2) && |v| == |other|
    requires (forall i :: 0 <= i < |v| ==> v[i] <= 2.0) && TagTotal(v, other, q) > 2.0
    ensures a < |v| && b < |v| && a != b && other[a] == other[b] == q
    ensures forall i :: 0 <= i < |v| && other[i] == q ==> i == a || i == b
    ensures v[a] + v[b] > 2.0
  {
    if !HasItem(other, ranks, q, 0) || !HasItem(other, ranks, q, 1) {
      FewItems(v, other, ranks, m, q);
    }
    a :| 0 <= a < |v| && other[a] == q && ranks[a] == 0;
    b :| 0 <= b < |v| && other[b] == q && ranks[b] == 1;
    OnlyThese(other, ranks, m, a, b);
    TotalOfTwo(v, other, a, b);
  }

  ghost predicate HasItem(other: seq<int>, ranks: seq<int>, q: int, r: int)
    requires |other| == |ranks|
  {
    exists i :: 0 <= i < |other| && other[i] == q && ranks[i] == r
  }

  lemma OnlyThese(other: seq<int>, ranks: seq<int>, m: nat, a: nat, b: nat)
    requires IsPlacement(other, ranks, m, 2) && a < |other| && b < |other|
    requires other[a] == other[b] && ranks[a] == 0 && ranks[b] == 1
    ensures forall i :: 0 <= i < |other| && other[i] == other[a] ==> i == a || i == b
  {
    forall i | 0 <= i < |other| && other[i] == other[a] ensures i == a || i == b {
      SameCell(other, ranks, m, 2, i, if ranks[i] == 0 then a else b);
    }
  }

  lemma SameCell(other: seq<int>, ranks: seq<int>, m: nat, k: nat, i: nat, j: nat)
    requires IsPlacement(other, ranks, m, k) && i < |other| && j < |other|
    ensures other[i] == other[j] && ranks[i] == ranks[j] ==> i == j
  {
    if i < j {} else {}
  }

  /** A pack with at most one item counts at most two. */
  lemma FewItems(v: seq<real>, other: seq<int>, ranks: seq<int>, m: nat, q: nat)
    requires IsPlacement(other, ranks, m, 2) && |v| == |other|
    requires forall i :: 0 <= i < |v| ==> v[i] <= 2.0
    requires !HasItem(other, ranks, q, 0) || !HasItem(other, ranks, q, 1)
    ensures TagTotal(v, other, q) <= 2.0
  {
    if a :| 0 <= a < |v| && other[a] == q {
      forall i | 0 <= i < |v| && other[i] == q ensures i == a {
        SameCell(other, ranks, m, 2, i, a);
      }
      TotalOfOne(v, other, a);
    } else {
      TagTotalZero(v, other, q);
    }
  }

  /** An item alone on an open pack weighs at least what the lightest open pack weighs. */
  lemma LoneItem(w: seq<real>, order: seq<int>, t: nat, s: Packs, m: nat, p: nat, y: nat)
    requires IsPermutation(order, |w|) && Packed(w, order, t, s, m, 2) && IsLightestOpen(s, 2, p)
    requires y < |w| && s.packIndex[y] != -1 && s.counts[s.packIndex[y]] == 1
    ensures w[y] >= s.totals[p]
  {
    forall i | 0 <= i < |w| && s.packIndex[i] == s.packIndex[y] ensures i == y {
      if i < y {} else {}
    }
    TotalOfOne(w, s.packIndex, y);
  }

  /** Putting a second item onto the lightest open pack makes it no heavier than some pack of any placement. */
  lemma PairReached(w: seq<real>, order: seq<int>, t: nat, s: Packs, m: nat, p: nat, other: seq<int>, ranks: seq<int>)
    requires NonNegative(w) && IsDescendingOrder(w, order) && Packed(w, order, t, s, m, 2) && t < |w|
    requires Itemized(s, |w|, m) && IsLightestOpen(s, 2, p) && s.counts[p] == 1
    requires IsPlacement(other, ranks, m, 2) && |other| == |w| && Reaches(w, other, m, s.totals[p])
    ensures Reaches(w, other, m, s.totals[p] + w[order[t]])
  {
    var x := order[t];
    if w[x] > 0.0 {
      NoneEmpty(w, order, t, s, m, p);
      var v := NextCounters(s, |w|, m, x);
      var y, z := CrowdedPack(v, other, ranks, m);
      LoneItem(w, order, t, s, m, p, y);
      PlacedHeavier(w, order, t, s, m, 2, z);
      TotalOfTwo(w, other, y, z);
    }
  }

  /** Every greedy run gives a packed state with counted items. */
  lemma {:induction false} RunPacked(w: seq<real>, order: seq<int>, m: nat, k: nat, picks: seq<nat>, s: Packs)
    requires NonNegative(w) && IsDescendingOrder(w, order) && |picks| <= |w|
    requires IsGreedyRun(w, order, m, k, picks, s)
    ensures Packed(w, order, |picks|, s, m, k) && Itemized(s, |w|, m)
    decreases |picks|
  {
    if picks == [] {
      PackedInit(w, order, s, m, k);
      ItemizedInit(|w|, m);
    } else {
      var t := |picks| - 1;
      var s0 :| IsGreedyRun(w, order, m, k, picks[..t], s0) && IsGreedyStep(w, order, k, t, picks[t], s0, s);
      RunPacked(w, order, m, k, picks[..t], s0);
      WeightsDescend(w, order, t);
      PackedStep(w, order, t, s0, m, k, picks[t]);
      ItemizedStep(s0, |w|, m, order[t], w[order[t]], picks[t]);
    }
  }

  /** One step of a greedy run on packs of two keeps every pack reachable by any placement. */
  lemma ReachedStep(w: seq<real>, order: seq<int>, t: nat, s: Packs, m: nat, p: nat, other: seq<int>, ranks: seq<int>)
    requires NonNegative(w) && IsDescendingOrder(w, order) && Packed(w, order, t, s, m, 2) && t < |w|
    requires Itemized(s, |w|, m) && IsLightestOpen(s, 2, p)
    requires IsPlacement(other, ranks, m, 2) && |other| == |w| && Reaches(w, other, m, s.totals[p])
    ensures Reaches(w, other, m, s.totals[p] + w[order[t]])
  {
    if s.counts[p] == 0 {
      EmptyPack(w, s, m, p);
      ReachesItem(w, other, ranks, m, 2, order[t]);
    } else {
      PairReached(w, order, t, s, m, p, other, ranks);
    }
  }

  lemma {:induction false} RunReached(w: seq<real>, order: seq<int>, m: nat, picks: seq<nat>, s: Packs,
                                      other: seq<int>, ranks: seq<int>)
    requires NonNegative(w) && IsDescendingOrder(w, order) && |picks| <= |w|
    requires IsGreedyRun(w, order, m, 2, picks, s)
    requires IsPlacement(other, ranks, m, 2) && |other| == |w|
    ensures |s.totals| == m && forall p :: 0 <= p < m ==> Reaches(w, other, m, s.totals[p])
    decreases |picks|
  {
    if picks == [] {
      forall p | 0 <= p < m ensures Reaches(w, other, m, s.totals[p]) {
        TagTotalNonNegative(w, other, p);
      }
    } else {
      var t := |picks| - 1;
      var s0 :| IsGreedyRun(w, order, m, 2, picks[..t], s0) && IsGreedyStep(w, order, 2, t, picks[t], s0, s);
      RunReached(w, order, m, picks[..t], s0, other, ranks);
      RunPacked(w, order, m, 2, picks[..t], s0);
      ReachedStep(w, order, t, s0, m, picks[t], other, ranks);
    }
  }

  /** On packs of two, greedy is as balanced as possible. */
  lemma PairsAreBest(w: seq<real>, order: seq<int>, m: nat, picks: seq<nat>, s: Packs)
    requires NonNegative(w) && IsDescendingOrder(w, order) && |picks| == |w| == m * 2
    requires IsGreedyRun(w, order, m, 2, picks, s)
    ensures |s.packIndex| == |w| && IsBest(w, s.packIndex, m, 2)
  {
    RunPacked(w, order, m, 2, picks, s);
    forall other, ranks, p | IsPlacement(other, ranks, m, 2) && 0 <= p < m
      ensures Reaches(w, other, m, TagTotal(w, s.packIndex, p))
    {
      RunReached(w, order, m, picks, s, other, ranks);
    }
  }

  /* ----- The exact condition ----- */

  /** Packs of at most two items, or at most one pack: greedy is as balanced as possible. */
  lemma GreedyIsBest(w: seq<real>, order: seq<int>, m: nat, k: nat, picks: seq<nat>, s: Packs)
    requires NonNegative(w) && IsDescendingOrder(w, order) && |picks| == |w| == m * k
    requires IsGreedyRun(w, order, m, k, picks, s) && (k <= 2 || m <= 1)
    ensures |s.packIndex| == |w| && IsBest(w, s.packIndex, m, k)
  {
    RunPacked(w, order, m, k, picks, s);
    PackedDone(w, order, s, m, k);
    if k == 0 {
      EmptyIsBest(w, s.packIndex, m);
    } else if k == 1 {
      SinglesAreBest(w, s.packIndex, s.rank, m);
    } else if k == 2 {
      PairsAreBest(w, order, m, picks, s);
    } else if m == 1 {
      OnePackIsBest(w, s.packIndex, s.rank, k);
    }
  }

  /** Two or more packs of three or more items: on the unlucky weights, however ties are sorted, greedy makes a pack of
      at least seven, where a packing with six on every pack exists. */
  lemma GreedyNotOptimal(m: nat, k: nat, order: seq<int>, picks: seq<nat>, s: Packs)
    requires m >= 2 && k >= 3 && IsDescendingOrder(Unlucky(m, k), order) && |picks| == m * k
    requires IsGreedyRun(Unlucky(m, k), order, m, k, picks, s)
    ensures |s.packIndex| == m * k && TagTotal(Unlucky(m, k), s.packIndex, m - 2) >= 7.0
    ensures IsPlacement(InRows(m, k).0, InRows(m, k).1, m, k)
    ensures forall q :: 0 <= q < m ==> TagTotal(Unlucky(m, k), InRows(m, k).0, q) == 6.0
    ensures !IsBest(Unlucky(m, k), s.packIndex, m, k)
  {
    var w, rows := Unlucky(m, k), InRows(m, k);
    Enough(m, k);
    SevenStays(m, k, order, picks, s);
    RunPacked(w, order, m, k, picks, s);
    InRowsPlaces(m, k);
    AllSix(m, k);
    assert !Reaches(w, rows.0, m, TagTotal(w, s.packIndex, m - 2));
  }

  lemma AllSix(m: nat, k: nat)
    requires m >= 2 && k >= 3
    ensures forall q :: 0 <= q < m ==> TagTotal(Unlucky(m, k), InRows(m, k).0, q) == 6.0
    ensures forall x :: x > 6.0 ==> !Reaches(Unlucky(m, k), InRows(m, k).0, m, x)
  {
    forall q | 0 <= q < m ensures TagTotal(Unlucky(m, k), InRows(m, k).0, q) == 6.0 {
      SixEach(m, k, q);
    }
  }

  lemma {:induction false} InsertPoint(w: seq<real>, order: seq<int>, i: nat, from: nat) returns (j: nat)
    requires i < |w| && IsPermutation(order, i) && from <= i
    requires forall a :: 0 <= a < from ==> w[order[a]] >= w[i]
    ensures j <= i && (forall a :: 0 <= a < j ==> w[order[a]] >= w[i]) && (j < i ==> w[order[j]] < w[i])
    decreases i - from
  {
    if from == i || w[order[from]] < w[i] {
      j := from;
    } else {
      j := InsertPoint(w, order, i, from + 1);
    }
  }

  /** Every weight vector has a descending order. */
  lemma {:induction false} OrderExists(w: seq<real>, i: nat) returns (order: seq<int>)
    requires i <= |w|
    ensures IsPermutation(order, i) && Descends(w, order)
  {
    if i == 0 {
      order := [];
    } else {
      order := OrderExists(w, i - 1);
      var j := InsertPoint(w, order, i - 1, 0);
      InsertedDescends(w, order, i - 1, j);
      order := order[..j] + [i - 1] + order[j..];
    }
  }

  /** Among packs with room there is a first lightest one. */
  lemma {:induction false} LightestExists(totals: seq<real>, counts: seq<int>, cap: int, n: nat) returns (p: nat)
    requires n <= |counts| == |totals| && exists q :: 0 <= q < n && counts[q] < cap
    ensures p < n && counts[p] < cap
    ensures forall q :: 0 <= q < n && counts[q] < cap ==> totals[p] <= totals[q]
    ensures forall q :: 0 <= q < p && counts[q] < cap ==> totals[p] < totals[q]
  {
    p := n - 1;
    if exists q :: 0 <= q < n - 1 && counts[q] < cap {
      var p' := LightestExists(totals, counts, cap, n - 1);
      if counts[p] >= cap || totals[p] >= totals[p'] { p := p'; }
    }
  }

  /** Greedy can always go on until all items are placed. */
  lemma {:induction false} RunExists(w: seq<real>, order: seq<int>, m: nat, k: nat, t: nat)
    returns (picks: seq<nat>, s: Packs)
    requires NonNegative(w) && IsDescendingOrder(w, order) && t <= |w| == m * k
    ensures |picks| == t && IsGreedyRun(w, order, m, k, picks, s)
  {
    if t == 0 {
      picks, s := [], EmptyPacks(|w|, m);
    } else {
      picks, s := RunExists(w, order, m, k, t - 1);
      var p := NextPick(w, order, m, k, picks, s);
      GreedyExtend(w, order, m, k, picks, s, p);
      picks, s := picks + [p], s.Place(order[t - 1], w[order[t - 1]], p);
    }
  }

  lemma NextPick(w: seq<real>, order: seq<int>, m: nat, k: nat, picks: seq<nat>, s: Packs) returns (p: nat)
    requires NonNegative(w) && IsDescendingOrder(w, order) && |picks| < |w| == m * k
    requires IsGreedyRun(w, order, m, k, picks, s)
    ensures |s.packIndex| == |s.rank| == |w| && IsLightestOpen(s, k, p)
  {
    RunPacked(w, order, m, k, picks, s);
    HasRoom(w, order, |picks|, s, m, k);
    p := LightestOpen(s, m, k);
  }

  lemma LightestOpen(s: Packs, m: nat, k: nat) returns (p: nat)
    requires |s.totals| == |s.counts| == m && exists q :: 0 <= q < |s.counts| && s.counts[q] < k
    ensures IsLightestOpen(s, k, p)
  {
    p := LightestExists(s.totals, s.counts, k, m);
  }

  lemma UnluckyRun(m: nat, k: nat) returns (order: seq<int>, picks: seq<nat>, s: Packs)
    requires m >= 2 && k >= 3
    ensures NonNegative(Unlucky(m, k)) && IsDescendingOrder(Unlucky(m, k), order)
    ensures |picks| == m * k && IsGreedyRun(Unlucky(m, k), order, m, k, picks, s)
  {
    order := OrderExists(Unlucky(m, k), m * k);
    picks, s := RunExists(Unlucky(m, k), order, m, k, m * k);
  }

  /** Whatever the weights and however ties are sorted, greedy packing into `m` packs of `k` is best. */
  ghost predicate GreedyAlwaysBest(m: nat, k: nat) {
    forall w, order, picks, s ::
      NonNegative(w) && |w| == m * k && IsDescendingOrder(w, order) && |picks| == |w|
      && IsGreedyRun(w, order, m, k, picks, s) ==>
      |s.packIndex| == |w| && IsBest(w, s.packIndex, m, k)
  }

  /** Greedy packing is always as balanced as possible exactly for packs of at most two items or at most one pack. */
  lemma GreedyBestIff(m: nat, k: nat)
    ensures GreedyAlwaysBest(m, k) <==> k <= 2 || m <= 1
  {
    if k <= 2 || m <= 1 {
      forall w, order, picks, s | NonNegative(w) && |w| == m * k && IsDescendingOrder(w, order) && |picks| == |w|
                                  && IsGreedyRun(w, order, m, k, picks, s)
        ensures |s.packIndex| == |w| && IsBest(w, s.packIndex, m, k)
      {
        GreedyIsBest(w, order, m, k, picks, s);
      }
    } else {
      var order, picks, s := UnluckyRun(m, k);
      GreedyNotOptimal(m, k, order, picks, s);
    }
  }

  /** `balanced_packing` for one row of weights. */
  method BalancedPacking(w: seq<real>, numPacks: nat) returns (packIndex: seq<int>, rank: seq<int>)
    requires NonNegative(w)
    requires numPacks > 0 && |w| % numPacks == 0
    ensures IsPlacement(packIndex, rank, numPacks, |w| / numPacks)
    ensures WithinSpread(w, packIndex, numPacks)
    ensures |w| / numPacks <= 2 || numPacks == 1 ==> Best(w, packIndex, numPacks)
    ensures numPacks >= 2 && |w| / numPacks >= 3 && w == Unlucky(numPacks, |w| / numPacks) ==> !Best(w, packIndex, numPacks)
  {
    var k := |w| / numPacks;
    DivModFacts(|w|, numPacks);
    if k == 1 {
      packIndex := seq(|w|, i => i);
      rank := seq(|w|, _ => 0);
      IdentityPacking(w, packIndex);
      SinglesAreBest(w, packIndex, rank, numPacks);
      return;
    }
    ghost var order, picks;
    packIndex, rank, order, picks := GreedyPacking(w, numPacks, k);
    GreedyOutcome(w, packIndex, rank, numPacks, k, order, picks);
  }

  /** As balanced as possible, for packs of equal size. */
  ghost predicate Best(w: seq<real>, packIndex: seq<int>, m: nat)
    requires m > 0
  {
    |w| == |packIndex| == m * (|w| / m) && IsBest(w, packIndex, m, |w| / m)
  }

  lemma GreedyOutcome(w: seq<real>, packIndex: seq<int>, rank: seq<int>, m: nat, k: nat, order: seq<int>, picks: seq<nat>)
    requires NonNegative(w) && IsDescendingOrder(w, order) && |picks| == |w| == |packIndex| == m * k
    requires exists s :: IsGreedyRun(w, order, m, k, picks, s) && s.packIndex == packIndex && s.rank == rank
    ensures k <= 2 || m <= 1 ==> IsBest(w, packIndex, m, k)
    ensures m >= 2 && k >= 3 && w == Unlucky(m, k) ==> !IsBest(w, packIndex, m, k)
  {
    var s :| IsGreedyRun(w, order, m, k, picks, s) && s.packIndex == packIndex && s.rank == rank;
    if k <= 2 || m <= 1 {
      GreedyIsBest(w, order, m, k, picks, s);
    } else if w == Unlucky(m, k) {
      GreedyNotOptimal(m, k, order, picks, s);
    }
  }
}
