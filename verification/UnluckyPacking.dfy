/** Weights for which greedy packing misses the best packing, for any two or more packs of three or more items. */
module UnluckyPacking {
  import opened Indexing
  import opened Sums
  import opened Packing

  /** A good packing, written pack by pack: a six each, but two threes on the last pack but one and three twos on the
      last; all other items weigh nothing. */
  function UnluckyAt(m: nat, q: int, r: int): real {
    if q + 2 < m then (if r == 0 then 6.0 else 0.0)
    else if q + 2 == m then (if r < 2 then 3.0 else 0.0)
    else (if r < 3 then 2.0 else 0.0)
  }

  function Unlucky(m: nat, k: nat): (w: seq<real>)
    requires k > 0
    ensures |w| == m * k && forall i :: 0 <= i < |w| ==> w[i] == UnluckyAt(m, i / k, i % k)
  {
    seq(m * k, i requires 0 <= i < m * k => UnluckyAt(m, i / k, i % k))
  }

  /* ----- The good packing ----- */

  /** The packing the weights are written in. */
  ghost function InRows(m: nat, k: nat): (r: (seq<int>, seq<int>))
    requires k > 0
    ensures |r.0| == |r.1| == m * k
    ensures forall i :: 0 <= i < m * k ==> r.0[i] == i / k && r.1[i] == i % k
  {
    (seq(m * k, i => i / k), seq(m * k, i => i % k))
  }

  lemma InRowsPlaces(m: nat, k: nat)
    requires k > 0
    ensures IsPlacement(InRows(m, k).0, InRows(m, k).1, m, k)
  {
    var f, g := InRows(m, k).0, InRows(m, k).1;
    forall i | 0 <= i < m * k ensures 0 <= f[i] < m && 0 <= g[i] < k {
      DivInRange(i, m, k);
      DivModFacts(i, k);
    }
    forall i, j | 0 <= i < j < m * k ensures f[i] != f[j] || g[i] != g[j] {
      DivModFacts(i, k);
      DivModFacts(j, k);
    }
  }

  lemma {:induction false} TotalIgnoresZeros(w: seq<real>, tag: seq<int>, p: int, items: seq<int>)
    requires |w| == |tag|
    requires forall x :: 0 <= x < |items| ==> 0 <= items[x] < |w| && tag[items[x]] == p && w[items[x]] != 0.0
    requires forall x, y :: 0 <= x < y < |items| ==> items[x] != items[y]
    requires forall i :: 0 <= i < |w| && tag[i] == p && w[i] != 0.0 ==> i in items
    ensures TagTotal(w, tag, p) == Sum(Gather(w, items))
  {
    var tag' := seq(|tag|, i requires 0 <= i < |tag| => if w[i] == 0.0 then p - 1 else tag[i]);
    assert Tagged(w, tag, p) == Tagged(w, tag', p);
    TagTotalByListing(w, tag', p, items);
  }

  /** The heavy items of pack `q`. */
  ghost function Heavy(m: nat, k: nat, q: nat): (items: seq<int>)
    requires q < m && k >= 3
    ensures |items| == if q + 2 < m then 1 else if q + 2 == m then 2 else 3
    ensures forall r :: 0 <= r < |items| ==> items[r] == q * k + r
  {
    seq(if q + 2 < m then 1 else if q + 2 == m then 2 else 3, r => q * k + r)
  }

  lemma HeavyItems(m: nat, k: nat, q: nat)
    requires q < m && k >= 3
    ensures forall r :: 0 <= r < |Heavy(m, k, q)| ==>
              0 <= Heavy(m, k, q)[r] < m * k && Heavy(m, k, q)[r] / k == q && Heavy(m, k, q)[r] % k == r
    ensures forall i :: 0 <= i < m * k && i / k == q && UnluckyAt(m, q, i % k) != 0.0 ==> i in Heavy(m, k, q)
  {
    var items := Heavy(m, k, q);
    forall r | 0 <= r < |items| ensures 0 <= items[r] < m * k && items[r] / k == q && items[r] % k == r {
      CellInRange(q, r, m, k);
      CellDivMod(q, r, k);
    }
    forall i | 0 <= i < m * k && i / k == q && UnluckyAt(m, q, i % k) != 0.0 ensures i in items {
      DivModFacts(i, k);
      assert items[i % k] == i;
    }
  }

  /** Every pack of the good packing weighs six. */
  lemma SixEach(m: nat, k: nat, q: nat)
    requires q < m && k >= 3
    ensures TagTotal(Unlucky(m, k), InRows(m, k).0, q) == 6.0
  {
    var w, tag, items := Unlucky(m, k), InRows(m, k).0, Heavy(m, k, q);
    HeavyItems(m, k, q);
    TotalIgnoresZeros(w, tag, q, items);
    SumUpToThree(Gather(w, items));
  }

  /* ----- The weights in descending order ----- */

  /** The t-th heaviest item. */
  ghost function Big(m: nat, k: nat, t: nat): (i: int) {
    if t + 2 <= m then t * k else if t + 1 == m then (m - 2) * k + 1 else (m - 1) * k + (t - m)
  }

  function Value(m: nat, t: nat): real {
    if t + 2 < m then 6.0 else if t < m then 3.0 else 2.0
  }

  /** Pack and place of the t-th heaviest item. */
  function BigCell(m: nat, t: nat): (int, int) {
    if t + 2 <= m then (t, 0) else if t + 1 == m then (m - 2, 1) else (m - 1, t - m)
  }

  lemma BigIs(m: nat, k: nat, t: nat)
    requires m >= 2 && k >= 3 && t < m + 3
    ensures 0 <= Big(m, k, t) < m * k && Big(m, k, t) / k == BigCell(m, t).0 && Big(m, k, t) % k == BigCell(m, t).1
    ensures Unlucky(m, k)[Big(m, k, t)] == Value(m, t)
  {
    var q, r := BigCell(m, t).0, BigCell(m, t).1;
    assert Big(m, k, t) == q * k + r;
    CellInRange(q, r, m, k);
    CellDivMod(q, r, k);
  }

  ghost function Bigs(m: nat, k: nat): (big: seq<int>)
    ensures |big| == m + 3 && forall t :: 0 <= t < m + 3 ==> big[t] == Big(m, k, t)
  {
    seq(m + 3, t requires t >= 0 => Big(m, k, t))
  }

  /** Every item that weighs anything is among the heaviest. */
  lemma WeightIsBig(m: nat, k: nat, i: nat)
    requires m >= 2 && k >= 3 && i < m * k && Unlucky(m, k)[i] != 0.0
    ensures i in Bigs(m, k)
  {
    DivInRange(i, m, k);
    DivModFacts(i, k);
    var q, r := i / k, i % k;
    var t := if q + 2 <= m && r == 0 then q else if q + 2 == m then m - 1 else m + r;
    assert BigCell(m, t) == (q, r);
    assert Bigs(m, k)[t] == i;
  }

  /** `big` lists the heaviest items, heaviest first. */
  ghost predicate AreHeaviest(w: seq<real>, big: seq<int>) {
    && (forall t :: 0 <= t < |big| ==> 0 <= big[t] < |w|)
    && (forall t, u :: 0 <= t < u < |big| ==> big[t] != big[u] && w[big[t]] >= w[big[u]])
    && (forall i, t :: 0 <= i < |w| && i !in big && 0 <= t < |big| ==> w[i] <= w[big[t]])
  }

  lemma BigsAreHeaviest(m: nat, k: nat)
    requires m >= 2 && k >= 3
    ensures AreHeaviest(Unlucky(m, k), Bigs(m, k))
    ensures forall t :: 0 <= t < m + 3 ==> Unlucky(m, k)[Bigs(m, k)[t]] == Value(m, t)
  {
    var w, big := Unlucky(m, k), Bigs(m, k);
    forall t | 0 <= t < m + 3
      ensures 0 <= big[t] < |w| && w[big[t]] == Value(m, t)
      ensures big[t] / k == BigCell(m, t).0 && big[t] % k == BigCell(m, t).1
    {
      BigIs(m, k, t);
    }
    forall i | 0 <= i < |w| ensures w[i] == 0.0 || i in big {
      if w[i] != 0.0 { WeightIsBig(m, k, i); }
    }
    forall t, u | 0 <= t < u < m + 3 ensures big[t] != big[u] {
      assert BigCell(m, t) != BigCell(m, u);
    }
  }

  /** A set of `t + 1` items does not fit among `t`. */
  lemma TooMany(a: seq<int>, b: seq<int>)
    requires forall i, j :: 0 <= i < j < |a| ==> a[i] != a[j]
    requires forall i :: 0 <= i < |a| ==> a[i] in b
    ensures |a| <= |b|
  {
    DistinctCardinality(a);
    MembersBound(b);
    assert (set x | x in a) <= (set x | x in b);
    SubsetSize(set x | x in a, set x | x in b);
  }

  lemma {:induction false} MembersBound(b: seq<int>)
    ensures |set x | x in b| <= |b|
  {
    if b != [] {
      var n := |b| - 1;
      MembersBound(b[..n]);
      assert b == b[..n] + [b[n]];
      assert (set x | x in b) == (set x | x in b[..n]) + {b[n]};
    }
  }

  lemma SubsetSize(a: set<int>, b: set<int>)
    requires a <= b
    ensures |a| <= |b|
  {
    assert b == a + (b - a);
  }

  /** Whatever way ties are sorted, the t-th item of a descending order weighs as much as the t-th heaviest. */
  lemma SortedValues(w: seq<real>, order: seq<int>, big: seq<int>, t: nat)
    requires IsDescendingOrder(w, order) && AreHeaviest(w, big) && t < |big| && t < |w|
    ensures w[order[t]] == w[big[t]]
  {
    if w[order[t]] > w[big[t]] {
      var first := order[..t + 1];
      forall i | 0 <= i < |first| ensures first[i] in big[..t] {
        HeavierInBig(w, big, t, order[i]);
      }
      TooMany(first, big[..t]);
    }
    if w[order[t]] < w[big[t]] {
      var first := big[..t + 1];
      forall i | 0 <= i < |first| ensures first[i] in order[..t] {
        HeavierInOrder(w, order, t, big[i]);
      }
      TooMany(first, order[..t]);
    }
  }

  lemma HeavierInBig(w: seq<real>, big: seq<int>, t: nat, x: int)
    requires AreHeaviest(w, big) && t < |big| && 0 <= x < |w| && w[x] > w[big[t]]
    ensures x in big[..t]
  {
    var u :| 0 <= u < |big| && big[u] == x;
    assert u < t;
    assert big[..t][u] == x;
  }

  lemma HeavierInOrder(w: seq<real>, order: seq<int>, t: nat, x: int)
    requires IsDescendingOrder(w, order) && t < |w| && 0 <= x < |w| && w[x] > w[order[t]]
    ensures x in order[..t]
  {
    var u := PermutationCovers(order, |w|, x);
    assert u < t;
    assert order[..t][u] == x;
  }

  lemma UnluckyOrder(m: nat, k: nat, order: seq<int>, t: nat)
    requires m >= 2 && k >= 3 && IsDescendingOrder(Unlucky(m, k), order) && t < m + 3
    ensures t < m * k && Unlucky(m, k)[order[t]] == Value(m, t)
  {
    BigIs(m, k, m + 2);
    BigsAreHeaviest(m, k);
    Enough(m, k);
    SortedValues(Unlucky(m, k), order, Bigs(m, k), t);
  }

  lemma Enough(m: nat, k: nat)
    requires m >= 2 && k >= 3
    ensures m + 3 <= m * k
  {
    MulMonotone(3, k, m);
    assert m * 3 == 3 * m && k * m == m * k;
  }

  /* ----- What greedy does with them ----- */

  /** Totals and counts of the last two packs after `r` of their items. */
  function Filling(r: nat): (real, real, int, int) {
    match r
    case 0 => (0.0, 0.0, 0, 0)
    case 1 => (3.0, 0.0, 1, 0)
    case 2 => (3.0, 3.0, 1, 1)
    case 3 => (5.0, 3.0, 2, 1)
    case 4 => (5.0, 5.0, 2, 2)
    case _ => (7.0, 5.0, 3, 2)
  }

  /** Total and count of pack `q` after `t` items. */
  function FillAt(m: nat, t: nat, q: nat): (real, int) {
    if q + 2 < m then (if q < t then (6.0, 1) else (0.0, 0))
    else
      var f := Filling(if t + 2 < m then 0 else t + 2 - m);
      if q + 2 == m then (f.0, f.2) else (f.1, f.3)
  }

  ghost predicate FilledTo(s: Packs, m: nat, t: nat) {
    && |s.totals| == |s.counts| == m
    && forall q :: 0 <= q < m ==> s.totals[q] == FillAt(m, t, q).0 && s.counts[q] == FillAt(m, t, q).1
  }

  /** The pack that takes item `t`. */
  function Taker(m: nat, t: nat): int {
    if t < m then t else if t == m + 1 then m - 1 else m - 2
  }

  lemma FillStep(m: nat, t: nat, q: nat)
    requires m >= 2 && t < m + 3 && q < m
    ensures FillAt(m, t + 1, q)
         == if q == Taker(m, t) then (FillAt(m, t, q).0 + Value(m, t), FillAt(m, t, q).1 + 1) else FillAt(m, t, q)
  {
  }

  /** The taker has room and is the only pack greedy can choose. */
  lemma TakerForced(s: Packs, m: nat, k: nat, t: nat, p: nat)
    requires m >= 2 && k >= 3 && t < m + 3 && FilledTo(s, m, t) && IsLightestOpen(s, k, p)
    ensures p == Taker(m, t)
  {
    var c := Taker(m, t);
    assert 0 <= c < m && s.totals[c] == FillAt(m, t, c).0 && s.counts[c] == FillAt(m, t, c).1 < k;
    assert forall q :: 0 <= q < m ==> FillAt(m, t, c).0 <= FillAt(m, t, q).0;
    assert forall q :: 0 <= q < c ==> FillAt(m, t, c).0 < FillAt(m, t, q).0;
  }

  lemma {:induction false} GreedyFills(m: nat, k: nat, order: seq<int>, picks: seq<nat>, s: Packs)
    requires m >= 2 && k >= 3 && IsDescendingOrder(Unlucky(m, k), order) && |picks| <= m + 3
    requires IsGreedyRun(Unlucky(m, k), order, m, k, picks, s)
    ensures FilledTo(s, m, |picks|)
    decreases |picks|
  {
    if picks != [] {
      var t, w := |picks| - 1, Unlucky(m, k);
      var s0 :| IsGreedyRun(w, order, m, k, picks[..t], s0) && IsGreedyStep(w, order, k, t, picks[t], s0, s);
      GreedyFills(m, k, order, picks[..t], s0);
      TakerForced(s0, m, k, t, picks[t]);
      UnluckyOrder(m, k, order, t);
      forall q | 0 <= q < m ensures s.totals[q] == FillAt(m, t + 1, q).0 && s.counts[q] == FillAt(m, t + 1, q).1 {
        FillStep(m, t, q);
      }
    }
  }

  /** Totals never shrink, so the seven stays. */
  lemma {:induction false} SevenStays(m: nat, k: nat, order: seq<int>, picks: seq<nat>, s: Packs)
    requires m >= 2 && k >= 3 && IsDescendingOrder(Unlucky(m, k), order) && m + 3 <= |picks|
    requires IsGreedyRun(Unlucky(m, k), order, m, k, picks, s)
    ensures |s.totals| == m && s.totals[m - 2] >= 7.0
    decreases |picks|
  {
    if |picks| == m + 3 {
      GreedyFills(m, k, order, picks, s);
      assert FillAt(m, m + 3, m - 2).0 == 7.0;
    } else {
      var t, w := |picks| - 1, Unlucky(m, k);
      var s0 :| IsGreedyRun(w, order, m, k, picks[..t], s0) && IsGreedyStep(w, order, k, t, picks[t], s0, s);
      SevenStays(m, k, order, picks[..t], s0);
    }
  }
}
