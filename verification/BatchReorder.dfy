/** `reorder_batch`: decodes to the front of the batch with as few swaps as possible. */
module BatchReorder {
  import opened Sums

  /** A request of the batch and its number of scheduled tokens; one token makes it a decode. */
  datatype Req = Req(id: nat, tokens: int)

  predicate IsDecode(r: Req) {
    r.tokens == 1
  }

  /** Decodes at positions `k` and later. */
  function CountFrom(s: seq<Req>, k: nat): nat {
    if |s| <= k then 0 else CountFrom(s[..|s| - 1], k) + (if IsDecode(s[|s| - 1]) then 1 else 0)
  }

  ghost predicate DecodesFirst(s: seq<Req>) {
    forall i :: 0 <= i < |s| ==> (IsDecode(s[i]) <==> i < CountFrom(s, 0))
  }

  function Swap(s: seq<Req>, i: nat, j: nat): seq<Req>
    requires i < |s| && j < |s|
  {
    s[i := s[j]][j := s[i]]
  }

  ghost predicate SwapsOk(swaps: seq<(nat, nat)>, n: nat) {
    forall k :: 0 <= k < |swaps| ==> swaps[k].0 < n && swaps[k].1 < n
  }

  ghost function ApplySwaps(s: seq<Req>, swaps: seq<(nat, nat)>): (r: seq<Req>)
    requires SwapsOk(swaps, |s|)
    ensures |r| == |s|
  {
    if swaps == [] then s
    else var k := |swaps| - 1; Swap(ApplySwaps(s, swaps[..k]), swaps[k].0, swaps[k].1)
  }

  /* ----- Any way of swapping ----- */

  function Weight(r: Req): nat {
    if IsDecode(r) then 1 else 0
  }

  lemma {:induction false} CountUpdate(s: seq<Req>, i: nat, r: Req, k: nat)
    requires i < |s|
    ensures CountFrom(s[i := r], k) == CountFrom(s, k) + (if k <= i then Weight(r) - Weight(s[i]) else 0)
  {
    var n := |s| - 1;
    if k <= n {
      if i < n {
        CountUpdate(s[..n], i, r, k);
        assert s[i := r][..n] == s[..n][i := r];
      } else {
        assert s[i := r][..n] == s[..n];
      }
    }
  }

  /** A swap moves at most one decode across position `k`. */
  lemma CountSwap(s: seq<Req>, i: nat, j: nat, k: nat)
    requires i < |s| && j < |s|
    ensures CountFrom(Swap(s, i, j), k)
         == CountFrom(s, k) + (if k <= i then Weight(s[j]) - Weight(s[i]) else 0)
                            + (if k <= j then Weight(s[i]) - Weight(s[j]) else 0)
  {
    CountUpdate(s, i, s[j], k);
    CountUpdate(s[i := s[j]], j, s[i], k);
  }

  lemma {:induction false} SwapsBound(s: seq<Req>, swaps: seq<(nat, nat)>, k: nat)
    requires SwapsOk(swaps, |s|)
    ensures CountFrom(ApplySwaps(s, swaps), 0) == CountFrom(s, 0)
    ensures CountFrom(s, k) - |swaps| <= CountFrom(ApplySwaps(s, swaps), k)
  {
    if swaps != [] {
      var m := |swaps| - 1;
      SwapsBound(s, swaps[..m], k);
      var t := ApplySwaps(s, swaps[..m]);
      CountSwap(t, swaps[m].0, swaps[m].1, 0);
      CountSwap(t, swaps[m].0, swaps[m].1, k);
    }
  }

  lemma {:induction false} CountNone(s: seq<Req>, k: nat)
    requires forall i :: k <= i < |s| ==> !IsDecode(s[i])
    ensures CountFrom(s, k) == 0
  {
    if k < |s| { CountNone(s[..|s| - 1], k); }
  }

  /** However the decodes are brought to the front, every decode behind them costs a swap of its own. */
  lemma SwapsNeeded(s: seq<Req>, swaps: seq<(nat, nat)>)
    requires SwapsOk(swaps, |s|) && DecodesFirst(ApplySwaps(s, swaps))
    ensures CountFrom(s, CountFrom(s, 0)) <= |swaps|
  {
    var k := CountFrom(s, 0);
    SwapsBound(s, swaps, k);
    CountNone(ApplySwaps(s, swaps), k);
  }

  /* ----- The swaps made ----- */

  /** Ascending positions of the decodes, or of the others. */
  function Positions(s: seq<Req>, decode: bool): seq<nat> {
    if s == [] then []
    else var n := |s| - 1; Positions(s[..n], decode) + (if IsDecode(s[n]) == decode then [n] else [])
  }

  ghost predicate ArePositions(s: seq<Req>, decode: bool, p: seq<nat>) {
    && (forall j :: 0 <= j < |p| ==> p[j] < |s| && IsDecode(s[p[j]]) == decode)
    && (forall i, j :: 0 <= i < j < |p| ==> p[i] < p[j])
    && (forall i :: 0 <= i < |s| && IsDecode(s[i]) == decode ==> i in p)
  }

  lemma {:induction false} PositionsCount(s: seq<Req>, decode: bool)
    ensures |Positions(s, decode)| == if decode then CountFrom(s, 0) else |s| - CountFrom(s, 0)
  {
    if s != [] { PositionsCount(s[..|s| - 1], decode); }
  }

  lemma {:induction false} PositionsCorrect(s: seq<Req>, decode: bool)
    ensures ArePositions(s, decode, Positions(s, decode))
  {
    if s != [] {
      var n := |s| - 1;
      PositionsCorrect(s[..n], decode);
      var p, q := Positions(s[..n], decode), Positions(s, decode);
      forall i | 0 <= i < |s| && IsDecode(s[i]) == decode ensures i in q {
        if i < n { assert s[..n][i] == s[i]; assert i in p; } else { assert q[|p|] == n; }
      }
    }
  }

  lemma AscendingIndex(p: seq<nat>, m: nat, j: nat)
    requires forall i, j :: 0 <= i < j < |p| ==> p[i] < p[j]
    requires m < |p| && j < |p|
    ensures p[m] < p[j] ==> m < j
  {
    if j < m { assert p[j] < p[m]; }
  }

  /** If the last `i` decodes sit at `nd` or later, the i-th prefill from the front sits before `nd`. */
  lemma PrefillInFront(s: seq<Req>, d: seq<nat>, p: seq<nat>, i: nat)
    requires ArePositions(s, true, d) && ArePositions(s, false, p)
    requires 0 < i <= |d| <= |s| && i <= |p| && d[|d| - i] >= |d|
    ensures p[i - 1] < |d|
  {
    var nd := |d|;
    if p[i - 1] >= nd {
      var a, b := d[..nd - i], p[..i - 1];
      forall x | 0 <= x < nd ensures x in a || x in b {
        if IsDecode(s[x]) {
          var m :| 0 <= m < nd && d[m] == x;
          AscendingIndex(d, m, nd - i);
          assert a[m] == x;
        } else {
          var m :| 0 <= m < |p| && p[m] == x;
          AscendingIndex(p, m, i - 1);
          assert b[m] == x;
        }
      }
      CoverSize(a, b, nd);
    }
  }

  ghost function Elements(a: seq<nat>): (r: set<int>)
    ensures |r| <= |a|
    ensures forall x :: x in r <==> x in a
  {
    if a == [] then {} else Elements(a[..|a| - 1]) + {a[|a| - 1]}
  }

  lemma CoverSize(a: seq<nat>, b: seq<nat>, n: nat)
    requires forall x: nat :: x < n ==> x in a || x in b
    ensures n <= |a| + |b|
  {
    var c := Elements(a) + Elements(b);
    assert Range(n) <= c;
    assert c == Range(n) + (c - Range(n));
  }

  /** After swapping the last `f` decodes with the first `f` prefills. */
  ghost predicate Swapped(s: seq<Req>, t: seq<Req>, d: seq<nat>, p: seq<nat>, f: nat)
    requires ArePositions(s, true, d) && ArePositions(s, false, p)
  {
    && |t| == |s| && f <= |d| && f <= |p|
    && CountFrom(t, 0) == CountFrom(s, 0) && CountFrom(t, |d|) == CountFrom(s, |d|) - f
    && (forall j :: 0 <= j < |d| - f ==> t[d[j]] == s[d[j]])
    && (forall j :: f <= j < |p| ==> t[p[j]] == s[p[j]])
    && (forall j :: |d| - f <= j < |d| ==> d[j] >= |d| && !IsDecode(t[d[j]]))
    && (forall j :: 0 <= j < f ==> p[j] < |d|)
  }

  lemma SwappedStep(s: seq<Req>, t: seq<Req>, d: seq<nat>, p: seq<nat>, f: nat)
    requires ArePositions(s, true, d) && ArePositions(s, false, p) && |d| <= |s|
    requires Swapped(s, t, d, p, f) && f < |d| && f < |p| && d[|d| - 1 - f] >= |d|
    ensures Swapped(s, Swap(t, p[f], d[|d| - 1 - f]), d, p, f + 1)
  {
    var a, b, nd := p[f], d[|d| - 1 - f], |d|;
    PrefillInFront(s, d, p, f + 1);
    CountSwap(t, a, b, 0);
    CountSwap(t, a, b, nd);
  }

  /** Strictly ascending positions leave room for the ones between them. */
  lemma {:induction false} AscendingGap(p: seq<nat>, i: nat, j: nat)
    requires forall i, j :: 0 <= i < j < |p| ==> p[i] < p[j]
    requires i <= j < |p|
    ensures p[j] - p[i] >= j - i
    decreases j
  {
    if i < j { AscendingGap(p, i, j - 1); }
  }

  /** When the loop stops, no decode is left behind the others. */
  lemma NoneLeft(s: seq<Req>, t: seq<Req>, d: seq<nat>, p: seq<nat>, f: nat)
    requires ArePositions(s, true, d) && ArePositions(s, false, p) && |d| + |p| == |s|
    requires Swapped(s, t, d, p, f)
    requires f == |d| || f == |p| || d[|d| - 1 - f] < |d|
    ensures forall i :: |d| <= i < |s| ==> !IsDecode(t[i])
  {
    var nd := |d|;
    if f < nd { AscendingGap(d, nd - 1 - f, nd - 1); }
    assert f < nd ==> d[nd - 1 - f] < nd;
    forall i | nd <= i < |s| ensures !IsDecode(t[i]) {
      if IsDecode(s[i]) {
        var m :| 0 <= m < nd && d[m] == i;
        if f < nd { AscendingIndex(d, nd - 1 - f, m); }
        assert m >= nd - f;
      } else {
        var m :| 0 <= m < |p| && p[m] == i;
        assert m >= f;
      }
    }
  }

  lemma {:induction false} CountSplit(s: seq<Req>, k: nat)
    requires k <= |s|
    ensures CountFrom(s, 0) == CountFrom(s[..k], 0) + CountFrom(s, k)
  {
    if k < |s| {
      CountSplit(s[..|s| - 1], k);
      assert s[..|s| - 1][..k] == s[..k];
    } else {
      assert s[..k] == s;
    }
  }

  lemma {:induction false} CountFull(s: seq<Req>)
    ensures CountFrom(s, 0) <= |s|
    ensures CountFrom(s, 0) == |s| <==> forall i :: 0 <= i < |s| ==> IsDecode(s[i])
  {
    if s != [] {
      CountFull(s[..|s| - 1]);
      assert forall i :: 0 <= i < |s| - 1 ==> s[..|s| - 1][i] == s[i];
    }
  }

  lemma NoneBehindMeansFirst(t: seq<Req>)
    requires forall i :: CountFrom(t, 0) <= i < |t| ==> !IsDecode(t[i])
    requires CountFrom(t, 0) <= |t|
    ensures DecodesFirst(t)
  {
    var k := CountFrom(t, 0);
    CountNone(t, k);
    CountSplit(t, k);
    CountFull(t[..k]);
    forall i | 0 <= i < k ensures IsDecode(t[i]) {
      assert t[..k][i] == t[i];
    }
  }

  /* ----- The algorithm ----- */

  method Classify(batch: array<Req>) returns (decodes: seq<nat>, prefills: seq<nat>)
    ensures decodes == Positions(batch[..], true) && prefills == Positions(batch[..], false)
  {
    decodes, prefills := [], [];
    for i := 0 to batch.Length
      invariant decodes == Positions(batch[..i], true) && prefills == Positions(batch[..i], false)
    {
      assert batch[..i + 1][..i] == batch[..i];
      if batch[i].tokens == 1 {
        decodes := decodes + [i];
      } else {
        prefills := prefills + [i];
      }
    }
    assert batch[..batch.Length] == batch[..];
  }

  lemma SwapsExtend(s: seq<Req>, swaps: seq<(nat, nat)>, a: nat, b: nat)
    requires SwapsOk(swaps, |s|) && a < |s| && b < |s|
    ensures SwapsOk(swaps + [(a, b)], |s|)
    ensures ApplySwaps(s, swaps + [(a, b)]) == Swap(ApplySwaps(s, swaps), a, b)
  {
    assert (swaps + [(a, b)])[..|swaps|] == swaps;
  }

  /** Reordering only moves requests. */
  lemma {:induction false} SwapsPermute(s: seq<Req>, swaps: seq<(nat, nat)>)
    requires SwapsOk(swaps, |s|)
    ensures multiset(ApplySwaps(s, swaps)) == multiset(s)
  {
    if swaps != [] {
      var k := |swaps| - 1;
      SwapsPermute(s, swaps[..k]);
      SwapPermutes(ApplySwaps(s, swaps[..k]), swaps[k].0, swaps[k].1);
    }
  }

  lemma SwapPermutes(s: seq<Req>, i: nat, j: nat)
    requires i < |s| && j < |s|
    ensures multiset(Swap(s, i, j)) == multiset(s)
  {
  }

  method SwapStates(batch: array<Req>, i: nat, j: nat)
    requires i < batch.Length && j < batch.Length
    modifies batch
    ensures batch[..] == Swap(old(batch[..]), i, j)
  {
    batch[i], batch[j] := batch[j], batch[i];
  }

  /** The batch after `f` swaps of the loop. */
  ghost predicate LoopInv(s: seq<Req>, t: seq<Req>, d: seq<nat>, p: seq<nat>, f: nat, swaps: seq<(nat, nat)>) {
    && ArePositions(s, true, d) && ArePositions(s, false, p)
    && |d| == CountFrom(s, 0) && |d| + |p| == |s|
    && SwapsOk(swaps, |s|) && t == ApplySwaps(s, swaps) && |swaps| == f
    && Swapped(s, t, d, p, f)
  }

  lemma LoopStart(s: seq<Req>, d: seq<nat>, p: seq<nat>)
    requires d == Positions(s, true) && p == Positions(s, false)
    ensures LoopInv(s, s, d, p, 0, [])
  {
    PositionsCorrect(s, true);
    PositionsCorrect(s, false);
    PositionsCount(s, true);
    PositionsCount(s, false);
  }

  lemma LoopStep(s: seq<Req>, t: seq<Req>, d: seq<nat>, p: seq<nat>, f: nat, swaps: seq<(nat, nat)>)
    requires LoopInv(s, t, d, p, f, swaps) && f < |d| && f < |p| && d[|d| - 1 - f] >= |d|
    ensures p[f] < |t| && d[|d| - 1 - f] < |t|
    ensures LoopInv(s, Swap(t, p[f], d[|d| - 1 - f]), d, p, f + 1, swaps + [(p[f], d[|d| - 1 - f])])
  {
    SwappedStep(s, t, d, p, f);
    SwapsExtend(s, swaps, p[f], d[|d| - 1 - f]);
  }

  /** Few enough: no other way of bringing the decodes to the front uses fewer swaps. */
  ghost predicate Fewest(s: seq<Req>, swaps: seq<(nat, nat)>) {
    forall other :: SwapsOk(other, |s|) && DecodesFirst(ApplySwaps(s, other)) ==> |swaps| <= |other|
  }

  lemma LoopEnd(s: seq<Req>, t: seq<Req>, d: seq<nat>, p: seq<nat>, f: nat, swaps: seq<(nat, nat)>)
    requires LoopInv(s, t, d, p, f, swaps)
    requires f == |d| || f == |p| || d[|d| - 1 - f] < |d|
    ensures DecodesFirst(t) && CountFrom(t, 0) == CountFrom(s, 0) && Fewest(s, swaps)
  {
    NoneLeft(s, t, d, p, f);
    NoneBehindMeansFirst(t);
    CountNone(t, |d|);
    forall other | SwapsOk(other, |s|) && DecodesFirst(ApplySwaps(s, other)) ensures |swaps| <= |other| {
      SwapsNeeded(s, other);
    }
  }

  method ReorderBatch(batch: array<Req>) returns (modified: bool, ghost swaps: seq<(nat, nat)>)
    modifies batch
    ensures SwapsOk(swaps, batch.Length) && batch[..] == ApplySwaps(old(batch[..]), swaps)
    ensures DecodesFirst(batch[..]) && CountFrom(batch[..], 0) == CountFrom(old(batch[..]), 0)
    ensures modified <==> swaps != []
    ensures forall i, j :: 0 <= i < j < batch.Length && batch[j].tokens == 1 ==> batch[i].tokens == 1
    ensures Fewest(old(batch[..]), swaps)
  {
    ghost var s := batch[..];
    ghost var t := s;
    var decodes, prefills := Classify(batch);
    LoopStart(s, decodes, prefills);
    var nd, np := |decodes|, |prefills|;
    modified, swaps := false, [];
    var first := 0;
    while first < nd && first < np && decodes[nd - 1 - first] >= nd
      invariant batch[..] == t && LoopInv(s, t, decodes, prefills, first, swaps)
      invariant modified <==> first > 0
      decreases nd - first
    {
      LoopStep(s, t, decodes, prefills, first, swaps);
      t, swaps := Swap(t, prefills[first], decodes[nd - 1 - first]), swaps + [(prefills[first], decodes[nd - 1 - first])];
      SwapStates(batch, prefills[first], decodes[nd - 1 - first]);
      first := first + 1;
      modified := true;
    }
    LoopEnd(s, t, decodes, prefills, first, swaps);
    assert forall i :: 0 <= i < batch.Length ==> (IsDecode(batch[..][i]) <==> i < CountFrom(t, 0));
  }
}
