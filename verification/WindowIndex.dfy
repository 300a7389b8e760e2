/** `get_window_index`: tokens of all grids listed window by window. */
module WindowIndex {
  import opened Common
  import opened Indexing
  import opened Sums
  import opened WindowGrid

  /** Drops the padding. */
  function Kept(s: seq<int>): seq<int> {
    if s == [] then []
    else Kept(s[..|s| - 1]) + (if s[|s| - 1] != PADDING then [s[|s| - 1]] else [])
  }

  lemma {:induction false} KeptConcat(a: seq<int>, b: seq<int>)
    ensures Kept(a + b) == Kept(a) + Kept(b)
  {
    if b == [] {
      assert a + b == a;
    } else {
      KeptConcat(a, b[..|b| - 1]);
      assert (a + b)[..|a + b| - 1] == a + b[..|b| - 1];
    }
  }

  lemma {:induction false} KeptMembers(s: seq<int>, v: int)
    ensures v in Kept(s) <==> v != PADDING && v in s
  {
    if s != [] {
      var n := |s| - 1;
      KeptMembers(s[..n], v);
      assert s == s[..n] + [s[n]];
    }
  }

  lemma {:induction false} KeptDistinct(s: seq<int>)
    requires forall i, j :: 0 <= i < j < |s| && s[i] != PADDING ==> s[i] != s[j]
    ensures Distinct(Kept(s))
  {
    if s != [] {
      var n := |s| - 1;
      KeptDistinct(s[..n]);
      KeptMembers(s[..n], s[n]);
    }
  }

  /** Window `k` of a grid, padding included, row by row. */
  function Window(g: Grid, l: Tiling, k: int): (s: seq<int>)
    requires l.perFrame != 0 && l.cols != 0 && l.side != 0 && l.area >= 0
    ensures |s| == l.area && forall q :: 0 <= q < l.area ==> s[q] == Entry(g, l, k, q)
  {
    seq(l.area, q => Entry(g, l, k, q))
  }

  /** Number of the token's window, or -1 when `v` is not a token of the grid. */
  ghost function WindowNo(g: Grid, l: Tiling, v: int): int
    requires l.side != 0
  {
    if 0 <= v < NumTokens(g) && g.h > 0 && g.w > 0 then WindowOf(g, l, v) else -1
  }

  /** The tokens of window `k` are exactly those whose row and column fall into it. */
  lemma WindowTokens(g: Grid, l: Tiling, k: int, v: int)
    requires IsTiling(g, l) && 0 <= k < g.t * l.perFrame
    ensures v in Kept(Window(g, l, k)) <==> WindowNo(g, l, v) == k
  {
    var s := Window(g, l, k);
    KeptMembers(s, v);
    if v != PADDING && v in s {
      var q :| 0 <= q < |s| && s[q] == v;
      TokenOfEntry(g, l, k, q);
    }
    if WindowNo(g, l, v) == k {
      PositionRange(g, l, v);
      EntryOfToken(g, l, v);
      assert s[PlaceOf(g, l, v)] == v;
    }
  }

  lemma WindowDistinct(g: Grid, l: Tiling, k: int)
    requires IsTiling(g, l) && 0 <= k < g.t * l.perFrame
    ensures Distinct(Kept(Window(g, l, k)))
  {
    var s := Window(g, l, k);
    forall i, j | 0 <= i < j < |s| && s[i] != PADDING ensures s[i] != s[j] {
      TokenOfEntry(g, l, k, i);
      if s[j] != PADDING { TokenOfEntry(g, l, k, j); }
    }
    KeptDistinct(s);
  }

  /** The first `n` windows one after the other: the flattened tensor. */
  function Flat(g: Grid, l: Tiling, n: nat): seq<int>
    requires l.perFrame != 0 && l.cols != 0 && l.side != 0 && l.area >= 0
  {
    if n == 0 then [] else Flat(g, l, n - 1) + Window(g, l, n - 1)
  }

  lemma {:induction false} FlatStep(g: Grid, l: Tiling, n: nat, v: int, w: int)
    requires IsTiling(g, l) && 0 < n
    requires v in Kept(Flat(g, l, n - 1)) <==> 0 <= w < n - 1
    requires v in Kept(Window(g, l, n - 1)) <==> w == n - 1
    ensures v in Kept(Flat(g, l, n)) <==> 0 <= w < n
  {
    var front, last := Flat(g, l, n - 1), Window(g, l, n - 1);
    KeptConcat(front, last);
    assert Flat(g, l, n) == front + last;
  }

  /** The flattened windows hold exactly the tokens of those windows. */
  lemma {:induction false} FlatMembers(g: Grid, l: Tiling, n: nat, v: int)
    requires IsTiling(g, l) && n <= g.t * l.perFrame
    ensures v in Kept(Flat(g, l, n)) <==> 0 <= WindowNo(g, l, v) < n
  {
    if n > 0 {
      FlatMembers(g, l, n - 1, v);
      WindowTokens(g, l, n - 1, v);
      FlatStep(g, l, n, v, WindowNo(g, l, v));
    }
  }

  lemma FlatApart(g: Grid, l: Tiling, k: nat, v: int)
    requires IsTiling(g, l) && k < g.t * l.perFrame
    ensures v in Kept(Flat(g, l, k)) ==> v !in Kept(Window(g, l, k))
  {
    FlatMembers(g, l, k, v);
    WindowTokens(g, l, k, v);
  }

  lemma {:induction false} FlatDistinct(g: Grid, l: Tiling, n: nat)
    requires IsTiling(g, l) && n <= g.t * l.perFrame
    ensures Distinct(Kept(Flat(g, l, n)))
  {
    if n > 0 {
      FlatDistinct(g, l, n - 1);
      KeptConcat(Flat(g, l, n - 1), Window(g, l, n - 1));
      NextWindowDistinct(g, l, n - 1);
    }
  }

  lemma NextWindowDistinct(g: Grid, l: Tiling, k: nat)
    requires IsTiling(g, l) && k < g.t * l.perFrame && Distinct(Kept(Flat(g, l, k)))
    ensures Distinct(Kept(Flat(g, l, k)) + Kept(Window(g, l, k)))
  {
    WindowDistinct(g, l, k);
    forall v | v in Kept(Flat(g, l, k)) ensures v !in Kept(Window(g, l, k)) {
      FlatApart(g, l, k, v);
    }
    DistinctConcat(Kept(Flat(g, l, k)), Kept(Window(g, l, k)));
  }

  lemma DistinctConcat(a: seq<int>, b: seq<int>)
    requires Distinct(a) && Distinct(b) && forall v :: v in a ==> v !in b
    ensures Distinct(a + b)
  {
    forall i, j | 0 <= i < j < |a + b| ensures (a + b)[i] != (a + b)[j] {
      if i < |a| <= j { assert a[i] in a && b[j - |a|] in b; }
    }
  }

  lemma CoverIsPermutation(p: seq<int>, n: nat)
    requires Distinct(p) && forall v :: v in p <==> 0 <= v < n
    ensures IsPermutation(p, n)
  {
    DistinctCardinality(p);
    assert (set x | x in p) == Range(n);
    forall i | 0 <= i < |p| ensures 0 <= p[i] < n { assert p[i] in p; }
  }

  /** Listing a grid's tokens window by window is a permutation of them. */
  lemma GridIndexPermutes(g: Grid, l: Tiling)
    requires IsTiling(g, l)
    ensures g.t * l.perFrame >= 0 && NumTokens(g) >= 0
    ensures IsPermutation(Kept(Flat(g, l, g.t * l.perFrame)), NumTokens(g))
  {
    MulNonNegative(g.t, l.perFrame);
    MulNonNegative(g.t, g.h);
    MulNonNegative(g.t * g.h, g.w);
    var p := Kept(Flat(g, l, g.t * l.perFrame));
    FlatDistinct(g, l, g.t * l.perFrame);
    forall v ensures v in p <==> 0 <= v < NumTokens(g) {
      FlatMembers(g, l, g.t * l.perFrame, v);
      if 0 <= v < NumTokens(g) { PositionRange(g, l, v); }
    }
    CoverIsPermutation(p, NumTokens(g));
  }

  /* ----- All grids ----- */

  function Shift(s: seq<int>, d: int): (r: seq<int>)
    ensures |r| == |s| && forall i :: 0 <= i < |s| ==> r[i] == s[i] + d
  {
    seq(|s|, i requires 0 <= i < |s| => s[i] + d)
  }

  /** The kept tokens of a grid's first `n` windows, numbered from `base`. */
  function GridSegments(g: Grid, l: Tiling, n: nat, base: int): (r: seq<seq<int>>)
    requires l.perFrame != 0 && l.cols != 0 && l.side != 0 && l.area >= 0
    ensures |r| == n && forall k :: 0 <= k < n ==> r[k] == Shift(Kept(Window(g, l, k)), base)
  {
    seq(n, k requires 0 <= k < n => Shift(Kept(Window(g, l, k)), base))
  }

  lemma ShiftConcat(a: seq<int>, b: seq<int>, d: int)
    ensures Shift(a + b, d) == Shift(a, d) + Shift(b, d)
  {
  }

  lemma {:induction false} SegmentsFlatten(g: Grid, l: Tiling, n: nat, base: int)
    requires l.perFrame != 0 && l.cols != 0 && l.side != 0 && l.area >= 0
    ensures Flatten(GridSegments(g, l, n, base)) == Shift(Kept(Flat(g, l, n)), base)
  {
    if n > 0 {
      SegmentsFlatten(g, l, n - 1, base);
      var front, last := Flat(g, l, n - 1), Window(g, l, n - 1);
      KeptConcat(front, last);
      assert GridSegments(g, l, n, base)[..n - 1] == GridSegments(g, l, n - 1, base);
      ShiftConcat(Kept(front), Kept(last), base);
    }
  }

  function TotalTokens(grids: seq<Grid>): int {
    if grids == [] then 0 else TotalTokens(grids[..|grids| - 1]) + NumTokens(grids[|grids| - 1])
  }

  ghost predicate GridsOk(grids: seq<Grid>) {
    forall i :: 0 <= i < |grids| ==> grids[i].ws > 0
  }

  /** All windows of all grids, in order. */
  ghost function AllSegments(grids: seq<Grid>): seq<seq<int>>
    requires GridsOk(grids)
  {
    if grids == [] then []
    else
      var n := |grids| - 1;
      var l := TilingOf(grids[n]);
      MulNonNegative(grids[n].t, l.perFrame);
      AllSegments(grids[..n]) + GridSegments(grids[n], l, grids[n].t * l.perFrame, TotalTokens(grids[..n]))
  }

  lemma PermutationConcat(p: seq<int>, n: nat, q: seq<int>, m: nat)
    requires IsPermutation(p, n) && IsPermutation(q, m)
    ensures IsPermutation(p + Shift(q, n), n + m)
  {
  }

  /** Window lengths turned into cumulative patch offsets, as `cumsum` and `extend` do. */
  ghost predicate AreOffsets(cu: seq<int>, segs: seq<seq<int>>, unit: int) {
    && |cu| == |segs| + 1 && cu[0] == 0
    && forall m {:trigger segs[m]} :: 0 <= m < |segs| ==> cu[m + 1] == cu[m] + |segs[m]| * unit
  }

  /** One more offset, the window sizes so far adding up to `total`. */
  lemma OffsetsNext(cu: seq<int>, segs: seq<seq<int>>, all: seq<seq<int>>, k: nat, unit: int, total: int, len: int, last: int)
    requires k < |all| && AreOffsets(cu, segs + all[..k], unit) && len == |all[k]|
    requires cu[|cu| - 1] == total * unit + last
    ensures AreOffsets(cu + [(total + len) * unit + last], segs + all[..k + 1], unit)
  {
    assert segs + all[..k + 1] == (segs + all[..k]) + [all[k]];
    assert (total + len) * unit == total * unit + len * unit;
  }

  method ExtendOffsets(cu: seq<int>, g: Grid, l: Tiling, n: nat, unit: nat, ghost segs: seq<seq<int>>, ghost base: int)
    returns (r: seq<int>)
    requires IsTiling(g, l) && AreOffsets(cu, segs, unit)
    ensures AreOffsets(r, segs + GridSegments(g, l, n, base), unit)
  {
    r := cu;
    var total, last := 0, cu[|cu| - 1];
    ghost var all := GridSegments(g, l, n, base);
    for k := 0 to n
      invariant AreOffsets(r, segs + all[..k], unit)
      invariant r[|r| - 1] == total * unit + last
    {
      var len := |Kept(Window(g, l, k))|;
      OffsetsNext(r, segs, all, k, unit, total, len, last);
      total := total + len;
      r := r + [total * unit + last];
    }
    assert all[..n] == all;
  }

  method GetWindowIndex(grids: seq<Grid>, unit: nat) returns (index: seq<int>, cu: seq<int>)
    requires GridsOk(grids)
    ensures TotalTokens(grids) >= 0 && IsPermutation(index, TotalTokens(grids))
    ensures index == Flatten(AllSegments(grids))
    ensures AreOffsets(cu, AllSegments(grids), unit)
  {
    index, cu := [], [0];
    var id := 0;
    for i := 0 to |grids|
      invariant id == TotalTokens(grids[..i]) >= 0 && IsPermutation(index, id)
      invariant index == Flatten(AllSegments(grids[..i]))
      invariant AreOffsets(cu, AllSegments(grids[..i]), unit)
    {
      var g := grids[i];
      var l := TilingOf(g);
      GridIndexPermutes(g, l);
      var n := g.t * l.perFrame;
      var indexNew := Kept(Flat(g, l, n));
      assert grids[..i + 1][..i] == grids[..i];
      PermutationConcat(index, id, indexNew, NumTokens(g));
      SegmentsFlatten(g, l, n, id);
      FlattenConcat(AllSegments(grids[..i]), GridSegments(g, l, n, id));
      cu := ExtendOffsets(cu, g, l, n, unit, AllSegments(grids[..i]), id);
      index := index + Shift(indexNew, id);
      id := id + NumTokens(g);
    }
    assert grids[..|grids|] == grids;
  }

  /** Segment `m` is one window of one grid. */
  lemma {:induction false} SegmentIsWindow(grids: seq<Grid>, m: nat) returns (i: nat, k: nat)
    requires GridsOk(grids) && m < |AllSegments(grids)|
    ensures i < |grids| && k < grids[i].t * TilingOf(grids[i]).perFrame
    ensures AllSegments(grids)[m] == Shift(Kept(Window(grids[i], TilingOf(grids[i]), k)), TotalTokens(grids[..i]))
  {
    var n := |grids| - 1;
    var before := |AllSegments(grids[..n])|;
    if m < before {
      i, k := SegmentIsWindow(grids[..n], m);
      assert grids[..n][..i] == grids[..i];
    } else {
      i, k := n, m - before;
    }
  }

  /** Tokens before segment `m`. */
  function Before(segs: seq<seq<int>>, m: nat): nat
    requires m <= |segs|
  {
    |Flatten(segs[..m])|
  }

  lemma BeforeNext(segs: seq<seq<int>>, m: nat)
    requires m < |segs|
    ensures Before(segs, m + 1) == Before(segs, m) + |segs[m]|
    ensures Flatten(segs[..m + 1]) == Flatten(segs[..m]) + segs[m]
  {
    assert segs[..m + 1][..m] == segs[..m];
  }

  lemma {:induction false} OffsetsAt(cu: seq<int>, segs: seq<seq<int>>, unit: int, m: nat)
    requires AreOffsets(cu, segs, unit) && m <= |segs|
    ensures cu[m] == Before(segs, m) * unit
  {
    if m > 0 {
      OffsetsAt(cu, segs, unit, m - 1);
      BeforeNext(segs, m - 1);
      var b, n := Before(segs, m - 1), |segs[m - 1]|;
      assert (b + n) * unit == b * unit + n * unit;
    }
  }

  /** The offsets cut the index into the segments. */
  lemma OffsetsCut(cu: seq<int>, segs: seq<seq<int>>, unit: int, m: nat)
    requires AreOffsets(cu, segs, unit) && m < |segs|
    ensures cu[m] == Before(segs, m) * unit && cu[m + 1] == Before(segs, m + 1) * unit
    ensures Before(segs, m) <= Before(segs, m + 1) <= |Flatten(segs)|
    ensures Flatten(segs)[Before(segs, m)..Before(segs, m + 1)] == segs[m]
  {
    OffsetsAt(cu, segs, unit, m);
    OffsetsAt(cu, segs, unit, m + 1);
    BeforeNext(segs, m);
    FlattenConcat(segs[..m + 1], segs[m + 1..]);
    assert segs == segs[..m + 1] + segs[m + 1..];
    SliceMiddle(Flatten(segs[..m]), segs[m], Flatten(segs[m + 1..]));
  }

  lemma SliceMiddle(a: seq<int>, b: seq<int>, c: seq<int>)
    ensures (a + b + c)[|a|..|a| + |b|] == b
  {
  }

  /** A segment holds exactly the tokens of one square of one frame: those in the square of any token in it. */
  lemma SegmentIsSquare(grids: seq<Grid>, m: nat, q: nat, v: int) returns (i: nat)
    requires GridsOk(grids) && m < |AllSegments(grids)| && q < |AllSegments(grids)[m]|
    ensures i < |grids|
    ensures var g, base := grids[i], TotalTokens(grids[..i]);
            var u := AllSegments(grids)[m][q] - base;
            && 0 <= u < g.t * g.h * g.w && g.ws > 0 && g.h > 0 && g.w > 0
            && (v in AllSegments(grids)[m] <==> 0 <= v - base < g.t * g.h * g.w && SameSquare(g, u, v - base))
  {
    var k;
    i, k := SegmentIsWindow(grids, m);
    WindowIsSquare(grids[i], TilingOf(grids[i]), k, TotalTokens(grids[..i]), AllSegments(grids)[m], q, v);
  }

  /** The same for one window of one grid. */
  lemma WindowIsSquare(g: Grid, l: Tiling, k: int, base: int, seg: seq<int>, q: nat, v: int)
    requires IsTiling(g, l) && 0 <= k < g.t * l.perFrame && seg == Shift(Kept(Window(g, l, k)), base) && q < |seg|
    ensures var u := seg[q] - base;
            && 0 <= u < g.t * g.h * g.w && g.ws > 0 && g.h > 0 && g.w > 0
            && (v in seg <==> 0 <= v - base < g.t * g.h * g.w && SameSquare(g, u, v - base))
  {
    ShiftMembers(Kept(Window(g, l, k)), base, seg[q]);
    ShiftMembers(Kept(Window(g, l, k)), base, v);
    WindowTokens(g, l, k, seg[q] - base);
    WindowTokens(g, l, k, v - base);
    if 0 <= v - base < NumTokens(g) {
      WindowsAreSquares(g, l, seg[q] - base, v - base);
    }
  }

  lemma ShiftMembers(s: seq<int>, d: int, v: int)
    ensures v in Shift(s, d) <==> v - d in s
  {
    if v in Shift(s, d) {
      var i :| 0 <= i < |s| && Shift(s, d)[i] == v;
      assert s[i] == v - d;
    }
    if v - d in s {
      var i :| 0 <= i < |s| && s[i] == v - d;
      assert Shift(s, d)[i] == v;
    }
  }

  /* ----- Lengths handed to the attention kernel ----- */

  /** `torch.unique_consecutive`. */
  function Unique(s: seq<int>): seq<int> {
    if |s| <= 1 then s
    else var n := |s| - 1;
         Unique(s[..n]) + (if s[n] == s[n - 1] then [] else [s[n]])
  }

  /** `torch.diff`. */
  function Diff(s: seq<int>): (r: seq<int>)
    ensures |r| == if s == [] then 0 else |s| - 1
    ensures forall i {:trigger r[i]} :: 0 <= i < |r| ==> r[i] == s[i + 1] - s[i]
  {
    if s == [] then [] else seq(|s| - 1, i requires 0 <= i < |s| - 1 => s[i + 1] - s[i])
  }

  function NonZero(lens: seq<int>): seq<int> {
    if lens == [] then []
    else var n := |lens| - 1; NonZero(lens[..n]) + (if lens[n] == 0 then [] else [lens[n]])
  }

  /** Patch counts of all windows. */
  function Lengths(segs: seq<seq<int>>, unit: int): (r: seq<int>)
    ensures |r| == |segs| && forall m :: 0 <= m < |r| ==> r[m] == |segs[m]| * unit
  {
    seq(|segs|, m requires 0 <= m < |segs| => |segs[m]| * unit)
  }

  ghost predicate Cumulative(cu: seq<int>, lens: seq<int>) {
    && |cu| == |lens| + 1 && cu[0] == 0
    && forall m {:trigger lens[m]} :: 0 <= m < |lens| ==> cu[m + 1] == cu[m] + lens[m]
  }

  lemma {:induction false} UniqueLast(s: seq<int>)
    requires s != []
    ensures Unique(s) != [] && Unique(s)[|Unique(s)| - 1] == s[|s| - 1]
  {
    if |s| > 1 { UniqueLast(s[..|s| - 1]); }
  }

  lemma DiffAppend(s: seq<int>, x: int)
    requires s != []
    ensures Diff(s + [x]) == Diff(s) + [x - s[|s| - 1]]
  {
  }

  lemma UniqueAppend(s: seq<int>, x: int)
    requires s != []
    ensures Unique(s + [x]) == if x == s[|s| - 1] then Unique(s) else Unique(s) + [x]
  {
    assert (s + [x])[..|s|] == s;
  }

  lemma CumulativeFront(cu: seq<int>, lens: seq<int>)
    requires Cumulative(cu, lens) && lens != []
    ensures Cumulative(cu[..|lens|], lens[..|lens| - 1])
    ensures cu == cu[..|lens|] + [cu[|lens| - 1] + lens[|lens| - 1]]
  {
  }

  lemma NonZeroAppend(lens: seq<int>, len: int)
    ensures NonZero(lens + [len]) == if len == 0 then NonZero(lens) else NonZero(lens) + [len]
  {
    assert (lens + [len])[..|lens|] == lens;
  }

  lemma DiffStep(u: seq<int>, last: int, len: int)
    requires u != [] && u[|u| - 1] == last
    ensures Diff(if last + len == last then u else u + [last + len]) == if len == 0 then Diff(u) else Diff(u) + [len]
  {
    if len != 0 { DiffAppend(u, last + len); }
  }

  lemma UniqueDiffStep(front: seq<int>, lens: seq<int>, len: int)
    requires front != [] && Diff(Unique(front)) == NonZero(lens)
    ensures Diff(Unique(front + [front[|front| - 1] + len])) == NonZero(lens + [len])
  {
    var x := front[|front| - 1] + len;
    UniqueAppend(front, x);
    NonZeroAppend(lens, len);
    UniqueLast(front);
    DiffStep(Unique(front), x - len, len);
  }

  lemma {:induction false} UniqueDiff(cu: seq<int>, lens: seq<int>)
    requires Cumulative(cu, lens)
    ensures Diff(Unique(cu)) == NonZero(lens)
    decreases |lens|
  {
    if lens != [] {
      var n := |lens| - 1;
      CumulativeFront(cu, lens);
      UniqueDiff(cu[..n + 1], lens[..n]);
      UniqueDiffStep(cu[..n + 1], lens[..n], lens[n]);
      assert lens == lens[..n] + [lens[n]];
    }
  }

  lemma {:induction false} NonZeroPositive(lens: seq<int>)
    requires forall m :: 0 <= m < |lens| ==> lens[m] >= 0
    ensures forall j :: 0 <= j < |NonZero(lens)| ==> NonZero(lens)[j] > 0
  {
    if lens != [] { NonZeroPositive(lens[..|lens| - 1]); }
  }

  lemma {:induction false} NonZeroSum(lens: seq<int>)
    ensures SumInt(NonZero(lens)) == SumInt(lens)
  {
    if lens != [] {
      var front, last := NonZero(lens[..|lens| - 1]), lens[|lens| - 1];
      NonZeroSum(lens[..|lens| - 1]);
      if last == 0 {
        assert front + [] == front;
      } else {
        SumIntAppend(front, last);
      }
    }
  }

  lemma {:induction false} LengthsSum(segs: seq<seq<int>>, unit: int)
    ensures SumInt(Lengths(segs, unit)) == |Flatten(segs)| * unit
  {
    if segs != [] {
      var n := |segs| - 1;
      LengthsSum(segs[..n], unit);
      assert Lengths(segs, unit)[..n] == Lengths(segs[..n], unit);
      var a, b := |Flatten(segs[..n])|, |segs[n]|;
      assert (a + b) * unit == a * unit + b * unit;
    }
  }

  lemma LengthsSign(segs: seq<seq<int>>, unit: int)
    requires unit > 0
    ensures forall m :: 0 <= m < |segs| ==> Lengths(segs, unit)[m] >= 0 && (Lengths(segs, unit)[m] == 0 <==> segs[m] == [])
  {
    forall m | 0 <= m < |segs|
      ensures Lengths(segs, unit)[m] >= 0 && (Lengths(segs, unit)[m] == 0 <==> segs[m] == [])
    {
      if segs[m] != [] { MulMonotone(1, |segs[m]|, unit); }
    }
  }

  /** The lengths handed to the kernel are those of the windows that hold any token: dropping repeated offsets
      drops exactly the empty windows. They are positive and together cover the whole sequence. */
  lemma KernelLengths(cu: seq<int>, segs: seq<seq<int>>, unit: int)
    requires AreOffsets(cu, segs, unit) && unit > 0
    ensures Diff(Unique(cu)) == NonZero(Lengths(segs, unit))
    ensures forall m :: 0 <= m < |segs| ==> (Lengths(segs, unit)[m] == 0 <==> segs[m] == [])
    ensures forall j :: 0 <= j < |Diff(Unique(cu))| ==> Diff(Unique(cu))[j] > 0
    ensures SumInt(Diff(Unique(cu))) == |Flatten(segs)| * unit
  {
    LengthsSign(segs, unit);
    UniqueDiff(cu, Lengths(segs, unit));
    NonZeroPositive(Lengths(segs, unit));
    NonZeroSum(Lengths(segs, unit));
    LengthsSum(segs, unit);
  }

  /* ----- Undoing the permutation ----- */

  /** `order` sorts `p`, as `argsort` does. */
  ghost predicate IsArgsort(p: seq<int>, order: seq<int>) {
    IsPermutation(order, |p|) && forall i, j :: 0 <= i < j < |p| ==> p[order[i]] <= p[order[j]]
  }

  lemma {:induction false} StrictlyAscendingLow(s: seq<int>, n: nat, i: nat)
    requires |s| == n && i < n && (forall i, j :: 0 <= i < j < n ==> s[i] < s[j]) && (forall i :: 0 <= i < n ==> 0 <= s[i])
    ensures s[i] >= i
  {
    if i > 0 { StrictlyAscendingLow(s, n, i - 1); }
  }

  lemma {:induction false} StrictlyAscendingHigh(s: seq<int>, n: nat, i: nat)
    requires |s| == n && i < n && (forall i, j :: 0 <= i < j < n ==> s[i] < s[j]) && (forall i :: 0 <= i < n ==> s[i] < n)
    ensures s[i] <= i
    decreases n - i
  {
    if i < n - 1 { StrictlyAscendingHigh(s, n, i + 1); }
  }

  /** Sorting a permutation gives its inverse. */
  lemma ArgsortInverts(p: seq<int>, order: seq<int>)
    requires IsPermutation(p, |p|) && IsArgsort(p, order)
    ensures forall t :: 0 <= t < |p| ==> p[order[t]] == t
    ensures forall i :: 0 <= i < |p| ==> order[p[i]] == i
  {
    var s := Gather(p, order);
    forall i, j | 0 <= i < j < |s| ensures s[i] < s[j] {
      assert order[i] != order[j];
      if order[i] < order[j] { assert p[order[i]] != p[order[j]]; } else { assert p[order[j]] != p[order[i]]; }
    }
    forall i | 0 <= i < |s| ensures s[i] == i {
      StrictlyAscendingLow(s, |s|, i);
      StrictlyAscendingHigh(s, |s|, i);
    }
    forall i | 0 <= i < |p| ensures order[p[i]] == i {
      SamePlace(p, order[p[i]], i);
    }
  }

  lemma SamePlace(p: seq<int>, i: int, j: int)
    requires IsPermutation(p, |p|) && 0 <= i < |p| && 0 <= j < |p| && p[i] == p[j]
    ensures i == j
  {
    if i < j {} else {}
  }

  /** Gathering by a permutation and then by its argsort gives every row back. */
  lemma ArgsortUndoes<T>(x: seq<T>, p: seq<int>, order: seq<int>)
    requires IsPermutation(p, |x|) && IsArgsort(p, order)
    ensures Gather(Gather(x, p), order) == x
  {
    ArgsortInverts(p, order);
  }

  method Argsort(p: seq<int>) returns (order: seq<int>)
    requires IsPermutation(p, |p|)
    ensures IsArgsort(p, order)
  {
    order := Inverse(p);
  }

  function Mapped<X, Y>(x: seq<X>, f: X -> Y): (y: seq<Y>)
    ensures |y| == |x| && forall i :: 0 <= i < |x| ==> y[i] == f(x[i])
  {
    seq(|x|, i requires 0 <= i < |x| => f(x[i]))
  }

  /* ----- Work done window by window ----- */

  /** A function on the rows of a window that gives as many rows back, as the attention blocks do. */
  ghost predicate KeepsLength<X(!new), Y>(work: seq<X> -> seq<Y>) {
    forall s :: |work(s)| == |s|
  }

  /** Cuts `x` into consecutive pieces of the given lengths and works on each piece by itself. */
  function BySegments<X, Y>(x: seq<X>, lens: seq<int>, work: seq<X> -> seq<Y>): seq<Y>
    requires SumInt(lens) == |x| && forall j :: 0 <= j < |lens| ==> lens[j] >= 0
    decreases |lens|
  {
    if lens == [] then []
    else
      var n := |lens| - 1;
      SumIntNonNegative(lens[..n]);
      BySegments(x[..|x| - lens[n]], lens[..n], work) + work(x[|x| - lens[n]..])
  }

  /** The work on every window of `x`. */
  ghost function Worked<X, Y>(x: seq<X>, segs: seq<seq<int>>, work: seq<X> -> seq<Y>): (r: seq<seq<Y>>)
    requires SegmentsOf(segs, |x|)
    ensures |r| == |segs| && forall m :: 0 <= m < |segs| ==> r[m] == work(Gather(x, segs[m]))
  {
    seq(|segs|, m requires 0 <= m < |segs| => work(Gather(x, segs[m])))
  }

  ghost predicate SegmentsOf(segs: seq<seq<int>>, n: nat) {
    forall m, q :: 0 <= m < |segs| && 0 <= q < |segs[m]| ==> 0 <= segs[m][q] < n
  }

  lemma LengthsFront(segs: seq<seq<int>>, unit: int)
    requires segs != []
    ensures Lengths(segs, unit) == Lengths(segs[..|segs| - 1], unit) + [|segs[|segs| - 1]| * unit]
  {
  }

  /** Cutting the permuted rows at the kernel's lengths, which skip empty windows, hands each window to the work. */
  ghost predicate WorkedOut<X(!new), Y>(x: seq<X>, index: seq<int>, lens: seq<int>, work: seq<X> -> seq<Y>, result: seq<Y>) {
    && (forall i :: 0 <= i < |index| ==> 0 <= index[i] < |x|)
    && SumInt(lens) == |index| && (forall j :: 0 <= j < |lens| ==> lens[j] >= 0)
    && BySegments(Gather(x, index), lens, work) == result
  }

  lemma {:induction false} WorkBySegments<X(!new), Y>(x: seq<X>, segs: seq<seq<int>>, work: seq<X> -> seq<Y>)
    requires SegmentsOf(segs, |x|) && KeepsLength(work)
    ensures WorkedOut(x, Flatten(segs), NonZero(Lengths(segs, 1)), work, Flatten(Worked(x, segs, work)))
    decreases |segs|
  {
    if segs != [] {
      var n := |segs| - 1;
      WorkBySegments(x, segs[..n], work);
      WorkedFront(x, segs, work);
      LengthsFront(segs, 1);
      NonZeroAppend(Lengths(segs[..n], 1), |segs[n]| * 1);
      WorkStep(x, Flatten(segs[..n]), segs[n], NonZero(Lengths(segs[..n], 1)), work, Flatten(Worked(x, segs[..n], work)));
    }
  }

  lemma WorkedFront<X(!new), Y>(x: seq<X>, segs: seq<seq<int>>, work: seq<X> -> seq<Y>)
    requires SegmentsOf(segs, |x|) && segs != []
    ensures var n := |segs| - 1;
            Flatten(Worked(x, segs, work)) == Flatten(Worked(x, segs[..n], work)) + work(Gather(x, segs[n]))
  {
    assert Worked(x, segs, work)[..|segs| - 1] == Worked(x, segs[..|segs| - 1], work);
  }

  lemma WorkStep<X(!new), Y>(x: seq<X>, front: seq<int>, last: seq<int>, lens: seq<int>, work: seq<X> -> seq<Y>, result: seq<Y>)
    requires KeepsLength(work) && WorkedOut(x, front, lens, work, result)
    requires forall i :: 0 <= i < |last| ==> 0 <= last[i] < |x|
    ensures WorkedOut(x, front + last, if last == [] then lens else lens + [|last|], work, result + work(Gather(x, last)))
  {
    if last == [] {
      assert front + last == front && Gather(x, last) == [] && work([]) == [];
    } else {
      var rows, lens' := Gather(x, front + last), lens + [|last|];
      SumIntAppend(lens, |last|);
      assert lens'[..|lens|] == lens;
      assert rows[..|front|] == Gather(x, front) && rows[|front|..] == Gather(x, last);
    }
  }

  lemma {:induction false} WorkedOffsets<X(!new), Y>(x: seq<X>, segs: seq<seq<int>>, work: seq<X> -> seq<Y>, m: nat)
    requires SegmentsOf(segs, |x|) && KeepsLength(work) && m <= |segs|
    ensures |Flatten(Worked(x, segs, work)[..m])| == |Flatten(segs[..m])|
  {
    if m > 0 {
      WorkedOffsets(x, segs, work, m - 1);
      assert Worked(x, segs, work)[..m][..m - 1] == Worked(x, segs, work)[..m - 1];
      assert segs[..m][..m - 1] == segs[..m - 1];
    }
  }

  /** Row `t` of the result is what the work on `t`'s own window left at `t`'s place in it. */
  ghost predicate FromOwnWindow<X(!new), Y, Z>(x: seq<X>, segs: seq<seq<int>>, work: seq<X> -> seq<Y>, f: Y -> Z, y: seq<Z>)
    requires SegmentsOf(segs, |x|) && KeepsLength(work)
  {
    |y| == |x| && forall m, q :: 0 <= m < |segs| && 0 <= q < |segs[m]| ==> y[segs[m][q]] == f(work(Gather(x, segs[m]))[q])
  }

  lemma WindowResult<X(!new), Y, Z>(x: seq<X>, segs: seq<seq<int>>, work: seq<X> -> seq<Y>, f: Y -> Z, order: seq<int>, y: seq<Z>)
    requires SegmentsOf(segs, |x|) && KeepsLength(work)
    requires IsPermutation(Flatten(segs), |x|) && IsArgsort(Flatten(segs), order)
    requires |Flatten(Worked(x, segs, work))| == |x|
    requires y == Gather(Mapped(Flatten(Worked(x, segs, work)), f), order)
    ensures FromOwnWindow(x, segs, work, f, y)
  {
    var worked := Worked(x, segs, work);
    forall m, q | 0 <= m < |segs| && 0 <= q < |segs[m]| ensures y[segs[m][q]] == f(work(Gather(x, segs[m]))[q]) {
      FlattenAt(segs, m, q);
      FlattenAt(worked, m, q);
      WorkedOffsets(x, segs, work, m);
      ArgsortInverts(Flatten(segs), order);
    }
  }

  /** Every row belongs to a window, and to only one place of one. */
  lemma OwnWindow(segs: seq<seq<int>>, n: nat, t: nat) returns (m: nat, q: nat)
    requires IsPermutation(Flatten(segs), n) && t < n
    ensures m < |segs| && q < |segs[m]| && segs[m][q] == t
  {
    var i := PermutationCovers(Flatten(segs), n, t);
    m, q := FlattenFind(segs, i);
  }

  /** Work that treats rows one by one comes out as the same work on the rows in their original order. */
  lemma RowwiseResult<X(!new), Y, Z>(x: seq<X>, segs: seq<seq<int>>, g: X -> Y, work: seq<X> -> seq<Y>, f: Y -> Z, y: seq<Z>)
    requires SegmentsOf(segs, |x|) && KeepsLength(work) && IsPermutation(Flatten(segs), |x|)
    requires (forall s :: work(s) == Mapped(s, g)) && FromOwnWindow(x, segs, work, f, y)
    ensures forall t :: 0 <= t < |x| ==> y[t] == f(g(x[t]))
  {
    forall t | 0 <= t < |x| ensures y[t] == f(g(x[t])) {
      var m, q := OwnWindow(segs, |x|, t);
    }
  }

  lemma {:induction false} SegmentsInRange(segs: seq<seq<int>>, n: nat)
    requires IsPermutation(Flatten(segs), n)
    ensures SegmentsOf(segs, n)
  {
    forall m, q | 0 <= m < |segs| && 0 <= q < |segs[m]| ensures 0 <= segs[m][q] < n {
      FlattenAt(segs, m, q);
    }
  }

  /** Lengths counted in patches are the window sizes times `unit`. */
  lemma {:induction false} LengthsInPatches(segs: seq<seq<int>>, unit: int)
    requires unit > 0
    ensures |NonZero(Lengths(segs, unit))| == |NonZero(Lengths(segs, 1))|
    ensures forall j :: 0 <= j < |NonZero(Lengths(segs, 1))| ==>
              NonZero(Lengths(segs, unit))[j] / unit == NonZero(Lengths(segs, 1))[j]
    decreases |segs|
  {
    if segs != [] {
      var n := |segs| - 1;
      LengthsInPatches(segs[..n], unit);
      LengthsFront(segs, unit);
      LengthsFront(segs, 1);
      NonZeroAppend(Lengths(segs[..n], unit), |segs[n]| * unit);
      NonZeroAppend(Lengths(segs[..n], 1), |segs[n]| * 1);
      CellDivMod(|segs[n]|, 0, unit);
    }
  }

  /** Cutting at the kernel's lengths, patches turned into rows, gives the work on every window. */
  lemma WorkBySizes<X(!new), Y>(x: seq<X>, segs: seq<seq<int>>, work: seq<X> -> seq<Y>, unit: int, sizes: seq<int>)
    requires SegmentsOf(segs, |x|) && KeepsLength(work) && unit > 0 && |Flatten(segs)| == |x|
    requires |sizes| == |NonZero(Lengths(segs, unit))|
    requires forall j :: 0 <= j < |sizes| ==> sizes[j] == NonZero(Lengths(segs, unit))[j] / unit
    ensures WorkedOut(x, Flatten(segs), sizes, work, Flatten(Worked(x, segs, work)))
    ensures |Flatten(Worked(x, segs, work))| == |x|
  {
    WorkBySegments(x, segs, work);
    LengthsInPatches(segs, unit);
    assert sizes == NonZero(Lengths(segs, 1));
    WorkedOffsets(x, segs, work, |segs|);
    assert Worked(x, segs, work)[..|segs|] == Worked(x, segs, work) && segs[..|segs|] == segs;
  }

  /** The permuting frame of `forward`: windows in window order for the blocks, one call of `work` per kernel length, the
      row-wise merger `f`, and the original order again at the end. */
  method Forward<X(!new), Y, Z>(grids: seq<Grid>, unit: nat, x: seq<X>, work: seq<X> -> seq<Y>, f: Y -> Z)
    returns (y: seq<Z>, lens: seq<int>)
    requires GridsOk(grids) && unit > 0 && |x| == TotalTokens(grids) && KeepsLength(work)
    ensures lens == NonZero(Lengths(AllSegments(grids), unit))
    ensures (forall j :: 0 <= j < |lens| ==> lens[j] > 0) && SumInt(lens) == TotalTokens(grids) * unit
    ensures IsPermutation(Flatten(AllSegments(grids)), |x|) && SegmentsOf(AllSegments(grids), |x|)
    ensures FromOwnWindow(x, AllSegments(grids), work, f, y)
  {
    var index, cu := GetWindowIndex(grids, unit);
    ghost var segs := AllSegments(grids);
    KernelLengths(cu, segs, unit);
    lens := Diff(Unique(cu));
    SegmentsInRange(segs, |x|);
    var sizes := seq(|lens|, j requires 0 <= j < |lens| => lens[j] / unit);
    WorkBySizes(x, segs, work, unit, sizes);
    var worked := BySegments(Gather(x, index), sizes, work);
    var order := Argsort(index);
    y := Gather(Mapped(worked, f), order);
    WindowResult(x, segs, work, f, order, y);
  }
}
