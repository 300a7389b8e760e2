/** Greedy packing of n weighted items into m packs of n/m items each (`balanced_packing`), one layer at a time. */
module Packing {
  import opened Indexing
  import opened Sums

  ghost predicate NonNegative(w: seq<real>) {
    forall i :: 0 <= i < |w| ==> w[i] >= 0.0
  }

  ghost predicate IsDescendingOrder(w: seq<real>, order: seq<int>) {
    && IsPermutation(order, |w|)
    && forall a, b :: 0 <= a < b < |w| ==> w[order[a]] >= w[order[b]]
  }

  /** Slot of an item: packs laid out one after the other, `k` slots each. */
  function Slots(packIndex: seq<int>, rank: seq<int>, k: int): (r: seq<int>)
    requires |packIndex| == |rank|
    ensures |r| == |rank|
    ensures forall i :: 0 <= i < |r| ==> r[i] == packIndex[i] * k + rank[i]
  {
    seq(|rank|, i requires 0 <= i < |rank| => packIndex[i] * k + rank[i])
  }

  /** Every item sits in one of `m` packs at a rank below `k`, and no two items share pack and rank. */
  ghost predicate IsPlacement(packIndex: seq<int>, rank: seq<int>, m: nat, k: nat) {
    && |packIndex| == |rank| == m * k
    && (forall i :: 0 <= i < |rank| ==> 0 <= packIndex[i] < m && 0 <= rank[i] < k)
    && (forall i, j :: 0 <= i < j < |rank| ==> packIndex[i] != packIndex[j] || rank[i] != rank[j])
  }

  /** A placement fills every slot once: each pack holds exactly `k` items, with ranks 0..k-1. */
  lemma PlacementFillsSlots(packIndex: seq<int>, rank: seq<int>, m: nat, k: nat)
    requires IsPlacement(packIndex, rank, m, k)
    ensures IsPermutation(Slots(packIndex, rank, k), m * k)
  {
    var s := Slots(packIndex, rank, k);
    forall i | 0 <= i < |s| ensures 0 <= s[i] < m * k {
      CellInRange(packIndex[i], rank[i], m, k);
    }
    forall i, j | 0 <= i < j < |s| ensures s[i] != s[j] {
      CellUnique(packIndex[i], rank[i], packIndex[j], rank[j], k);
    }
  }

  /** `inv` lists, slot by slot, the item a placement put there. */
  ghost predicate IsSlotTable(inv: seq<int>, packIndex: seq<int>, rank: seq<int>, k: nat) {
    && |packIndex| == |rank| && IsPermutation(inv, |rank|)
    && (forall i :: 0 <= i < |rank| ==> 0 <= packIndex[i] * k + rank[i] < |rank|)
    && (forall i :: 0 <= i < |rank| ==> inv[packIndex[i] * k + rank[i]] == i)
    && (forall j :: 0 <= j < |rank| ==> packIndex[inv[j]] * k + rank[inv[j]] == j)
  }

  /** The items of one pack are those listed in the pack's row of the slot table. */
  lemma PackRow(packIndex: seq<int>, rank: seq<int>, m: nat, k: nat, inv: seq<int>, p: nat)
    requires IsPlacement(packIndex, rank, m, k) && IsSlotTable(inv, packIndex, rank, k)
    requires p < m
    ensures 0 <= p * k <= p * k + k <= |inv|
    ensures forall j :: p * k <= j < p * k + k ==> packIndex[inv[j]] == p
    ensures forall i :: 0 <= i < |rank| && packIndex[i] == p ==> i in inv[p * k..p * k + k]
  {
    RowInRange(p, m, k);
    forall j | p * k <= j < p * k + k ensures packIndex[inv[j]] == p {
      CellUnique(packIndex[inv[j]], rank[inv[j]], p, j - p * k, k);
    }
    var row := inv[p * k..p * k + k];
    forall i | 0 <= i < |rank| && packIndex[i] == p ensures i in row {
      assert row[rank[i]] == inv[packIndex[i] * k + rank[i]] == i;
    }
  }

  lemma GatherSlice(w: seq<real>, inv: seq<int>, lo: nat, hi: nat)
    requires lo <= hi <= |inv| && forall i :: 0 <= i < |inv| ==> 0 <= inv[i] < |w|
    ensures Gather(w, inv[lo..hi]) == Gather(w, inv)[lo..hi]
  {
  }

  /** A pack's total, read off the slots it owns once items are moved to their slots. */
  lemma RowTotal(w: seq<real>, packIndex: seq<int>, inv: seq<int>, p: int, lo: nat, hi: nat)
    requires |w| == |packIndex| && IsPermutation(inv, |w|) && lo <= hi <= |inv|
    requires forall j :: lo <= j < hi ==> packIndex[inv[j]] == p
    requires forall i :: 0 <= i < |w| && packIndex[i] == p ==> i in inv[lo..hi]
    ensures TagTotal(w, packIndex, p) == Sum(Gather(w, inv)[lo..hi])
  {
    TagTotalByListing(w, packIndex, p, inv[lo..hi]);
    GatherSlice(w, inv, lo, hi);
  }

  /* ----- The greedy invariant ----- */

  /** `n` copies of `x`. */
  ghost function Times(n: nat, x: real): real {
    if n == 0 then 0.0 else Times(n - 1, x) + x
  }

  /** What greedy packing keeps between two packs, `x` being the weight of the item to place next. */
  ghost predicate PairBalanced(totalA: real, totalC: real, countA: int, countC: int, hi: real, x: real) {
    if countA > countC then totalA - totalC <= hi
    else totalA - totalC + Times(countC - countA, x) <= hi - x
  }

  ghost predicate Balanced(totals: seq<real>, counts: seq<int>, hi: real, x: real)
    requires |totals| == |counts|
  {
    forall a, c :: 0 <= a < |totals| && 0 <= c < |totals| ==>
                     PairBalanced(totals[a], totals[c], counts[a], counts[c], hi, x)
  }

  lemma {:induction false} TimesMonotone(n: nat, x: real, y: real)
    requires y <= x
    ensures Times(n, y) <= Times(n, x)
  {
    if n > 0 { TimesMonotone(n - 1, x, y); }
  }

  /** Two packs the placed item does not touch. */
  lemma PairLighterNext(ta: real, tc: real, na: int, nc: int, hi: real, x: real, y: real)
    requires PairBalanced(ta, tc, na, nc, hi, x) && y <= x
    ensures PairBalanced(ta, tc, na, nc, hi, y)
  {
    if na <= nc { TimesMonotone(nc - na, x, y); }
  }

  /** The first pack takes the item; it was the lightest open pack. */
  lemma PairGain(ta: real, tc: real, na: int, nc: int, cap: int, hi: real, x: real, y: real)
    requires PairBalanced(ta, tc, na, nc, hi, x) && 0.0 <= y <= x <= hi
    requires na < cap && (nc < cap ==> ta <= tc)
    ensures PairBalanced(ta + x, tc, na + 1, nc, hi, y)
  {
    if na < nc { TimesMonotone(nc - na - 1, x, y); }
  }

  /** The second pack takes the item. */
  lemma PairLoss(ta: real, tc: real, na: int, nc: int, hi: real, x: real, y: real)
    requires PairBalanced(ta, tc, na, nc, hi, x) && 0.0 <= y <= x <= hi
    ensures PairBalanced(ta, tc + x, na, nc + 1, hi, y)
  {
    if na <= nc { TimesMonotone(nc + 1 - na, x, y); }
  }

  /* ----- The algorithm ----- */

  /** Stands for the library sort: some permutation that lists the weights in descending order. */
  method SortDescending(w: seq<real>) returns (order: seq<int>)
    ensures IsDescendingOrder(w, order)
  {
    order := [];
    for i := 0 to |w|
      invariant IsPermutation(order, i) && Descends(w, order)
    {
      var j := 0;
      while j < i && w[order[j]] >= w[i]
        invariant 0 <= j <= i
        invariant forall a :: 0 <= a < j ==> w[order[a]] >= w[i]
      {
        j := j + 1;
      }
      InsertedDescends(w, order, i, j);
      order := order[..j] + [i] + order[j..];
    }
  }

  ghost predicate Descends(w: seq<real>, order: seq<int>) {
    && (forall a :: 0 <= a < |order| ==> 0 <= order[a] < |w|)
    && (forall a, b :: 0 <= a < b < |order| ==> w[order[a]] >= w[order[b]])
  }

  lemma InsertedDescends(w: seq<real>, order: seq<int>, i: nat, j: nat)
    requires i < |w| && IsPermutation(order, i) && Descends(w, order) && j <= i
    requires forall a :: 0 <= a < j ==> w[order[a]] >= w[i]
    requires j < i ==> w[order[j]] < w[i]
    ensures IsPermutation(order[..j] + [i] + order[j..], i + 1) && Descends(w, order[..j] + [i] + order[j..])
  {
    var r := order[..j] + [i] + order[j..];
    assert forall a :: 0 <= a < j ==> r[a] == order[a];
    assert forall a :: j < a <= i ==> r[a] == order[a - 1];
  }

  /** The first of the lightest packs that still have room. */
  method LightestOpenPack(totals: seq<real>, counts: seq<int>, cap: int) returns (p: nat)
    requires |totals| == |counts|
    requires exists q :: 0 <= q < |counts| && counts[q] < cap
    ensures p < |counts| && counts[p] < cap
    ensures forall q :: 0 <= q < |counts| && counts[q] < cap ==> totals[p] <= totals[q]
    ensures forall q :: 0 <= q < p && counts[q] < cap ==> totals[p] < totals[q]
  {
    p := 0;
    while counts[p] >= cap
      invariant p < |counts|
      invariant forall q :: 0 <= q < p ==> counts[q] >= cap
      decreases |counts| - p
    {
      p := p + 1;
    }
    for i := p + 1 to |counts|
      invariant p < i && counts[p] < cap
      invariant forall q :: 0 <= q < i && counts[q] < cap ==> totals[p] <= totals[q]
      invariant forall q :: 0 <= q < p && counts[q] < cap ==> totals[p] < totals[q]
    {
      if counts[i] < cap && totals[i] < totals[p] {
        p := i;
      }
    }
  }

  ghost predicate Bounds(w: seq<real>, lo: real, hi: real) {
    forall i :: 0 <= i < |w| ==> lo <= w[i] <= hi
  }

  /** Any two pack totals differ by at most the largest weight minus the smallest one. */
  ghost predicate WithinSpread(w: seq<real>, packIndex: seq<int>, m: nat)
    requires |w| == |packIndex|
  {
    forall lo, hi, a, c :: lo <= hi && Bounds(w, lo, hi) && 0 <= a < m && 0 <= c < m ==>
      TagTotal(w, packIndex, a) - TagTotal(w, packIndex, c) <= hi - lo
  }

  /** The variables of the packing loop; items not placed yet are tagged -1. */
  datatype Packs = Packs(packIndex: seq<int>, rank: seq<int>, totals: seq<real>, counts: seq<int>) {

    ghost predicate Wf(n: nat, m: nat) {
      |packIndex| == |rank| == n && |totals| == |counts| == m
    }

    /** Item `x` of weight `weight` goes to the next rank of pack `p`. */
    function Place(x: nat, weight: real, p: nat): Packs
      requires x < |packIndex| && x < |rank| && p < |totals| && p < |counts|
    {
      Packs(packIndex[x := p], rank[x := counts[p]],
            totals[p := totals[p] + weight], counts[p := counts[p] + 1])
    }
  }

  /** Placed items sit below their pack's count, no two on one rank. */
  ghost predicate Ranked(s: Packs, n: nat, m: nat)
    requires s.Wf(n, m)
  {
    && (forall i :: 0 <= i < n ==>
          s.packIndex[i] == -1 || (0 <= s.packIndex[i] < m && 0 <= s.rank[i] < s.counts[s.packIndex[i]]))
    && (forall i, j :: 0 <= i < j < n && s.packIndex[i] == s.packIndex[j] != -1 ==> s.rank[i] != s.rank[j])
  }

  /** Counts stay within the capacity and add up to the placements; totals are the tagged weights. */
  ghost predicate Tallied(w: seq<real>, s: Packs, t: int, m: nat, k: nat)
    requires s.Wf(|w|, m)
  {
    && (forall p :: 0 <= p < m ==> 0 <= s.counts[p] <= k && s.totals[p] == TagTotal(w, s.packIndex, p))
    && SumInt(s.counts) == t
  }

  /** Placing the item of weight `x` on the lightest open pack keeps the balance, for any lighter next item. */
  lemma BalancedStep(s: Packs, n: nat, m: nat, item: nat, p: nat, cap: int, hi: real, x: real, y: real)
    requires s.Wf(n, m) && item < n && p < m
    requires Balanced(s.totals, s.counts, hi, x) && 0.0 <= y <= x <= hi
    requires s.counts[p] < cap
    requires forall q :: 0 <= q < m && s.counts[q] < cap ==> s.totals[p] <= s.totals[q]
    ensures Balanced(s.Place(item, x, p).totals, s.Place(item, x, p).counts, hi, y)
  {
    var t, c := s.Place(item, x, p).totals, s.Place(item, x, p).counts;
    forall a, b | 0 <= a < m && 0 <= b < m ensures PairBalanced(t[a], t[b], c[a], c[b], hi, y) {
      assert PairBalanced(s.totals[a], s.totals[b], s.counts[a], s.counts[b], hi, x);
      if a == b {
      } else if a == p {
        PairGain(s.totals[a], s.totals[b], s.counts[a], s.counts[b], cap, hi, x, y);
      } else if b == p {
        PairLoss(s.totals[a], s.totals[b], s.counts[a], s.counts[b], hi, x, y);
      } else {
        PairLighterNext(s.totals[a], s.totals[b], s.counts[a], s.counts[b], hi, x, y);
      }
    }
  }

  lemma RankedStep(s: Packs, n: nat, m: nat, x: nat, weight: real, p: nat)
    requires s.Wf(n, m) && Ranked(s, n, m)
    requires x < n && s.packIndex[x] == -1 && p < m && s.counts[p] >= 0
    ensures Ranked(s.Place(x, weight, p), n, m)
  {
  }

  lemma TalliedStep(w: seq<real>, s: Packs, t: int, m: nat, k: nat, x: nat, p: nat)
    requires s.Wf(|w|, m) && Tallied(w, s, t, m, k)
    requires x < |w| && s.packIndex[x] == -1 && p < m && s.counts[p] < k
    ensures Tallied(w, s.Place(x, w[x], p), t + 1, m, k)
  {
    TotalsStep(w, s, m, x, p);
    SumIntUpdate(s.counts, p, s.counts[p] + 1);
  }

  lemma TotalsStep(w: seq<real>, s: Packs, m: nat, x: nat, p: nat)
    requires s.Wf(|w|, m) && x < |w| && s.packIndex[x] == -1 && p < m
    requires forall q :: 0 <= q < m ==> s.totals[q] == TagTotal(w, s.packIndex, q)
    ensures forall q :: 0 <= q < m ==> s.Place(x, w[x], p).totals[q] == TagTotal(w, s.packIndex[x := p], q)
  {
    forall q | 0 <= q < m ensures s.Place(x, w[x], p).totals[q] == TagTotal(w, s.packIndex[x := p], q) {
      TagTotalUpdate(w, s.packIndex, x, p, q);
    }
  }

  /** While items remain some pack is open; when none remain all packs are full. */
  lemma RoomLeft(counts: seq<int>, k: nat)
    requires forall p :: 0 <= p < |counts| ==> 0 <= counts[p] <= k
    ensures SumInt(counts) < |counts| * k ==> exists p :: 0 <= p < |counts| && counts[p] < k
    ensures SumInt(counts) == |counts| * k ==> forall p :: 0 <= p < |counts| ==> counts[p] == k
  {
    var full := seq(|counts|, _ => k);
    SumIntConstant(full, k);
    SumIntMonotone(counts, full);
    if forall p :: 0 <= p < |counts| ==> counts[p] == k {
      assert counts == full;
    }
  }

  lemma IdentityPacking(w: seq<real>, packIndex: seq<int>)
    requires |packIndex| == |w| && forall i :: 0 <= i < |w| ==> packIndex[i] == i
    ensures WithinSpread(w, packIndex, |w|)
  {
    forall p | 0 <= p < |w| ensures TagTotal(w, packIndex, p) == w[p] {
      TagTotalByListing(w, packIndex, p, [p]);
      assert Gather(w, [p]) == [w[p]];
      assert Sum([w[p]]) == Sum([]) + w[p] by { assert [w[p]][..0] == []; }
    }
  }

  /** Weight of the item placed at step `t`; past the last step, of the last item. */
  ghost function NextWeight(w: seq<real>, order: seq<int>, t: nat): real
    requires IsPermutation(order, |w|)
  {
    if w == [] then 0.0 else if t < |w| then w[order[t]] else w[order[|w| - 1]]
  }

  /** The first `t` items of the order are placed, the others are not. */
  ghost predicate Marked(order: seq<int>, packIndex: seq<int>, t: nat)
    requires IsPermutation(order, |packIndex|)
  {
    && (forall a :: 0 <= a < t && a < |order| ==> packIndex[order[a]] != -1)
    && (forall a :: t <= a < |order| ==> packIndex[order[a]] == -1)
  }

  lemma MarkedStep(order: seq<int>, packIndex: seq<int>, t: nat, p: nat)
    requires IsPermutation(order, |packIndex|) && t < |order| && Marked(order, packIndex, t)
    ensures Marked(order, packIndex[order[t] := p], t + 1)
  {
  }

  /** The packing loop after `t` steps. */
  ghost predicate Packed(w: seq<real>, order: seq<int>, t: nat, s: Packs, m: nat, k: nat)
    requires IsPermutation(order, |w|)
  {
    && t <= |w| && s.Wf(|w|, m) && Ranked(s, |w|, m) && Tallied(w, s, t, m, k)
    && Marked(order, s.packIndex, t)
    && Balanced(s.totals, s.counts, NextWeight(w, order, 0), NextWeight(w, order, t))
  }

  lemma PackedInit(w: seq<real>, order: seq<int>, s: Packs, m: nat, k: nat)
    requires IsPermutation(order, |w|)
    requires s == Packs(seq(|w|, _ => -1), seq(|w|, _ => -1), seq(m, _ => 0.0), seq(m, _ => 0))
    ensures Packed(w, order, 0, s, m, k)
  {
    forall p | 0 <= p < m ensures TagTotal(w, s.packIndex, p) == 0.0 {
      TagTotalZero(w, s.packIndex, p);
    }
    SumIntConstant(s.counts, 0);
  }

  lemma WeightsDescend(w: seq<real>, order: seq<int>, t: nat)
    requires NonNegative(w) && IsDescendingOrder(w, order) && t < |w|
    ensures 0.0 <= NextWeight(w, order, t + 1) <= NextWeight(w, order, t) <= NextWeight(w, order, 0)
  {
  }

  lemma PackedStep(w: seq<real>, order: seq<int>, t: nat, s: Packs, m: nat, k: nat, p: nat)
    requires IsPermutation(order, |w|) && t < |w|
    requires 0.0 <= NextWeight(w, order, t + 1) <= NextWeight(w, order, t) <= NextWeight(w, order, 0)
    requires Packed(w, order, t, s, m, k)
    requires p < m && s.counts[p] < k
    requires forall q :: 0 <= q < m && s.counts[q] < k ==> s.totals[p] <= s.totals[q]
    ensures Packed(w, order, t + 1, s.Place(order[t], NextWeight(w, order, t), p), m, k)
  {
    var x := order[t];
    RankedStep(s, |w|, m, x, w[x], p);
    MarkedStep(order, s.packIndex, t, p);
    TalliedStep(w, s, t, m, k, x, p);
    BalancedStep(s, |w|, m, x, p, k, NextWeight(w, order, 0), NextWeight(w, order, t), NextWeight(w, order, t + 1));
  }

  lemma PackedDone(w: seq<real>, order: seq<int>, s: Packs, m: nat, k: nat)
    requires IsDescendingOrder(w, order) && |w| == m * k
    requires Packed(w, order, |w|, s, m, k)
    ensures IsPlacement(s.packIndex, s.rank, m, k)
    ensures WithinSpread(w, s.packIndex, m)
  {
    RoomLeft(s.counts, k);
    AllMarked(order, s.packIndex);
    RankedAll(s, |w|, m, k);
    PackedSpread(w, order, s, m, k);
  }

  lemma AllMarked(order: seq<int>, packIndex: seq<int>)
    requires IsPermutation(order, |packIndex|) && Marked(order, packIndex, |packIndex|)
    ensures forall i :: 0 <= i < |packIndex| ==> packIndex[i] != -1
  {
    forall i | 0 <= i < |packIndex| ensures packIndex[i] != -1 {
      var j := PermutationCovers(order, |packIndex|, i);
    }
  }

  lemma RankedAll(s: Packs, n: nat, m: nat, k: nat)
    requires s.Wf(n, m) && Ranked(s, n, m) && n == m * k
    requires forall i :: 0 <= i < n ==> s.packIndex[i] != -1
    requires forall p :: 0 <= p < m ==> s.counts[p] == k
    ensures IsPlacement(s.packIndex, s.rank, m, k)
  {
  }

  lemma PackedSpread(w: seq<real>, order: seq<int>, s: Packs, m: nat, k: nat)
    requires IsPermutation(order, |w|) && s.Wf(|w|, m)
    requires forall p :: 0 <= p < m ==> s.counts[p] == k && s.totals[p] == TagTotal(w, s.packIndex, p)
    requires Balanced(s.totals, s.counts, NextWeight(w, order, 0), NextWeight(w, order, |w|))
    ensures WithinSpread(w, s.packIndex, m)
  {
    var hi, last := NextWeight(w, order, 0), NextWeight(w, order, |w|);
    forall a, c | 0 <= a < m && 0 <= c < m
      ensures TagTotal(w, s.packIndex, a) - TagTotal(w, s.packIndex, c) <= hi - last
    {
      assert PairBalanced(s.totals[a], s.totals[c], s.counts[a], s.counts[c], hi, last);
    }
  }

  /** No packs filled yet. */
  function EmptyPacks(n: nat, m: nat): Packs {
    Packs(seq(n, _ => -1), seq(n, _ => -1), seq(m, _ => 0.0), seq(m, _ => 0))
  }

  /** The pack the greedy rule takes: the first of the lightest open ones. */
  ghost predicate IsLightestOpen(s: Packs, cap: int, p: nat) {
    && p < |s.counts| == |s.totals| && s.counts[p] < cap
    && (forall q :: 0 <= q < |s.counts| && s.counts[q] < cap ==> s.totals[p] <= s.totals[q])
    && (forall q :: 0 <= q < p && s.counts[q] < cap ==> s.totals[p] < s.totals[q])
  }

  /** `picks` are the greedy choices for the items in `order`, and `s` is where they lead. */
  ghost predicate IsGreedyRun(w: seq<real>, order: seq<int>, m: nat, k: nat, picks: seq<nat>, s: Packs)
    decreases |picks|
  {
    if picks == [] then s == EmptyPacks(|w|, m)
    else
      var t := |picks| - 1;
      exists s0 :: IsGreedyRun(w, order, m, k, picks[..t], s0) && IsGreedyStep(w, order, k, t, picks[t], s0, s)
  }

  ghost predicate IsGreedyStep(w: seq<real>, order: seq<int>, k: nat, t: nat, p: nat, s0: Packs, s: Packs) {
    && t < |order| && 0 <= order[t] < |w| == |s0.packIndex| == |s0.rank|
    && IsLightestOpen(s0, k, p) && s == s0.Place(order[t], w[order[t]], p)
  }

  lemma GreedyExtend(w: seq<real>, order: seq<int>, m: nat, k: nat, picks: seq<nat>, s: Packs, p: nat)
    requires IsGreedyRun(w, order, m, k, picks, s) && |picks| < |order|
    requires 0 <= order[|picks|] < |w| == |s.packIndex| == |s.rank| && IsLightestOpen(s, k, p)
    ensures IsGreedyRun(w, order, m, k, picks + [p], s.Place(order[|picks|], w[order[|picks|]], p))
  {
    var t, s' := |picks|, s.Place(order[|picks|], w[order[|picks|]], p);
    assert (picks + [p])[..t] == picks;
    assert IsGreedyStep(w, order, k, t, (picks + [p])[t], s, s');
  }

  /** The greedy loop before step `t`. */
  ghost predicate GreedyInv(w: seq<real>, order: seq<int>, t: nat, s: Packs, m: nat, k: nat, picks: seq<nat>)
    requires IsPermutation(order, |w|)
  {
    Packed(w, order, t, s, m, k) && |picks| == t && IsGreedyRun(w, order, m, k, picks, s)
  }

  lemma HasRoom(w: seq<real>, order: seq<int>, t: nat, s: Packs, m: nat, k: nat)
    requires IsPermutation(order, |w|) && Packed(w, order, t, s, m, k) && t < |w| == m * k
    ensures |s.totals| == |s.counts| == m && |s.packIndex| == |s.rank| == |w|
    ensures exists q :: 0 <= q < |s.counts| && s.counts[q] < k
  {
    RoomLeft(s.counts, k);
  }

  lemma GreedyInvStep(w: seq<real>, order: seq<int>, t: nat, s: Packs, m: nat, k: nat, picks: seq<nat>, p: nat)
    requires NonNegative(w) && IsDescendingOrder(w, order) && t < |w| == |s.packIndex| == |s.rank|
    requires GreedyInv(w, order, t, s, m, k, picks) && IsLightestOpen(s, k, p)
    ensures GreedyInv(w, order, t + 1, s.Place(order[t], w[order[t]], p), m, k, picks + [p])
  {
    WeightsDescend(w, order, t);
    PackedStep(w, order, t, s, m, k, p);
    GreedyExtend(w, order, m, k, picks, s, p);
  }

  method GreedyPacking(w: seq<real>, m: nat, k: nat)
    returns (packIndex: seq<int>, rank: seq<int>, ghost order: seq<int>, ghost picks: seq<nat>)
    requires NonNegative(w) && |w| == m * k
    ensures IsPlacement(packIndex, rank, m, k)
    ensures WithinSpread(w, packIndex, m)
    ensures IsDescendingOrder(w, order) && |picks| == |w|
    ensures exists s :: IsGreedyRun(w, order, m, k, picks, s) && s.packIndex == packIndex && s.rank == rank
  {
    var queue := SortDescending(w);
    order, picks := queue, [];
    var s := EmptyPacks(|w|, m);
    PackedInit(w, order, s, m, k);
    for t := 0 to |queue|
      invariant GreedyInv(w, order, t, s, m, k, picks)
    {
      HasRoom(w, order, t, s, m, k);
      var p := LightestOpenPack(s.totals, s.counts, k);
      GreedyInvStep(w, order, t, s, m, k, picks, p);
      picks := picks + [p];
      s := s.Place(queue[t], w[queue[t]], p);
    }
    PackedDone(w, order, s, m, k);
    packIndex, rank := s.packIndex, s.rank;
  }
}
