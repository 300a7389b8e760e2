/** Batching of block copies: `group_concurrent_contiguous` and the address lists of `_transfer_kv_cache`. */
module BlockGroups {
  import opened Common

  /* ----- Grouping ----- */

  /** Position `i` starts a new group: one of the two lists does not go up by one there. */
  predicate IsBreak(src: seq<int>, dst: seq<int>, i: nat)
    requires |src| == |dst| && 0 < i < |src|
  {
    src[i] - src[i - 1] != 1 || dst[i] - dst[i - 1] != 1
  }

  /** `b` lists exactly the breaks below `n`, in ascending order. */
  ghost predicate AreBreaks(src: seq<int>, dst: seq<int>, n: nat, b: seq<int>) {
    && |src| == |dst| && n <= |src|
    && (forall j :: 0 <= j < |b| ==> 0 < b[j] < n && IsBreak(src, dst, b[j]))
    && (forall i, j :: 0 <= i < j < |b| ==> b[i] < b[j])
    && (forall i :: 0 < i < n && IsBreak(src, dst, i) ==> i in b)
  }

  function Breaks(src: seq<int>, dst: seq<int>, n: nat): (b: seq<int>)
    requires |src| == |dst| && n <= |src|
    ensures AreBreaks(src, dst, n, b)
  {
    if n <= 1 then []
    else Breaks(src, dst, n - 1) + (if IsBreak(src, dst, n - 1) then [n - 1] else [])
  }

  /** Cuts a list before each of the given positions. */
  function Split(s: seq<int>, cuts: seq<int>): seq<seq<int>>
    requires forall j :: 0 <= j < |cuts| ==> 0 <= cuts[j] <= |s|
    requires forall i, j :: 0 <= i < j < |cuts| ==> cuts[i] <= cuts[j]
    decreases |cuts|
  {
    if cuts == [] then [s]
    else var k := |cuts| - 1; Split(s[..cuts[k]], cuts[..k]) + [s[cuts[k]..]]
  }

  function Group(src: seq<int>, dst: seq<int>): (seq<seq<int>>, seq<seq<int>>)
    requires |src| == |dst|
  {
    if src == [] then ([], [])
    else var cuts := Breaks(src, dst, |src|); (Split(src, cuts), Split(dst, cuts))
  }

  ghost predicate Contiguous(s: seq<int>) {
    forall i :: 0 < i < |s| ==> s[i] == s[i - 1] + 1
  }

  /** The two lists continue from one group into the next. */
  ghost predicate Joins(a: seq<int>, b: seq<int>) {
    a != [] && b != [] && b[0] == a[|a| - 1] + 1
  }

  ghost predicate BothJoin(a: seq<int>, b: seq<int>, c: seq<int>, d: seq<int>) {
    Joins(a, b) && Joins(c, d)
  }

  lemma {:induction false} SplitFlattens(s: seq<int>, cuts: seq<int>)
    requires forall j :: 0 <= j < |cuts| ==> 0 <= cuts[j] <= |s|
    requires forall i, j :: 0 <= i < j < |cuts| ==> cuts[i] <= cuts[j]
    ensures Flatten(Split(s, cuts)) == s && |Split(s, cuts)| == |cuts| + 1
    decreases |cuts|
  {
    if cuts == [] {
      assert [s][..0] == [];
    } else {
      var k := |cuts| - 1;
      SplitFlattens(s[..cuts[k]], cuts[..k]);
      var front := Split(s[..cuts[k]], cuts[..k]);
      assert (front + [s[cuts[k]..]])[..|front|] == front;
    }
  }

  /** Where the i-th piece starts and ends. */
  function From(cuts: seq<int>, i: nat): int
    requires i <= |cuts|
  {
    if i == 0 then 0 else cuts[i - 1]
  }

  function To(cuts: seq<int>, i: nat, n: nat): int
    requires i <= |cuts|
  {
    if i == |cuts| then n else cuts[i]
  }

  lemma {:induction false} SplitPiece(s: seq<int>, cuts: seq<int>, i: nat)
    requires forall j :: 0 <= j < |cuts| ==> 0 <= cuts[j] <= |s|
    requires forall i, j :: 0 <= i < j < |cuts| ==> cuts[i] <= cuts[j]
    requires i <= |cuts|
    ensures |Split(s, cuts)| == |cuts| + 1
    ensures 0 <= From(cuts, i) <= To(cuts, i, |s|) <= |s| && Split(s, cuts)[i] == s[From(cuts, i)..To(cuts, i, |s|)]
    decreases |cuts|
  {
    SplitFlattens(s, cuts);
    if cuts != [] && i < |cuts| {
      var k := |cuts| - 1;
      SplitPiece(s[..cuts[k]], cuts[..k], i);
    }
  }

  /** Between two neighbouring breaks both lists go up one by one. */
  lemma NoBreakInside(src: seq<int>, dst: seq<int>, from: nat, to: nat)
    requires |src| == |dst| && from <= to <= |src|
    requires forall i :: from < i < to ==> !IsBreak(src, dst, i)
    ensures Contiguous(src[from..to]) && Contiguous(dst[from..to])
  {
    forall i | 0 < i < to - from
      ensures src[from..to][i] == src[from..to][i - 1] + 1 && dst[from..to][i] == dst[from..to][i - 1] + 1
    {
      assert !IsBreak(src, dst, from + i);
    }
  }

  /** What the grouping promises about group `i`. */
  ghost predicate GroupOk(src: seq<seq<int>>, dst: seq<seq<int>>, i: nat)
    requires i < |src| == |dst|
  {
    && |src[i]| == |dst[i]| > 0 && Contiguous(src[i]) && Contiguous(dst[i])
    && (i + 1 < |src| ==> !BothJoin(src[i], src[i + 1], dst[i], dst[i + 1]))
  }

  lemma CutBounds(src: seq<int>, dst: seq<int>, cuts: seq<int>, i: nat)
    requires |src| > 0 && AreBreaks(src, dst, |src|, cuts) && i <= |cuts|
    ensures 0 <= From(cuts, i) < To(cuts, i, |src|) <= |src|
    ensures forall j :: From(cuts, i) < j < To(cuts, i, |src|) ==> !IsBreak(src, dst, j)
  {
    forall j | From(cuts, i) < j < To(cuts, i, |src|) ensures j !in cuts {
      forall m | 0 <= m < |cuts| ensures cuts[m] != j {
        if m < i { assert cuts[m] <= cuts[i - 1]; } else { assert cuts[i] <= cuts[m]; }
      }
    }
  }

  /** Groups give back the lists, are contiguous on both sides, and no two neighbours could be merged. */
  lemma GroupingCorrect(src: seq<int>, dst: seq<int>)
    requires |src| == |dst|
    ensures var (gs, gd) := Group(src, dst);
            && Flatten(gs) == src && Flatten(gd) == dst && |gs| == |gd|
            && forall i :: 0 <= i < |gs| ==> GroupOk(gs, gd, i)
  {
    if src != [] {
      var cuts := Breaks(src, dst, |src|);
      var gs, gd := Split(src, cuts), Split(dst, cuts);
      SplitFlattens(src, cuts);
      SplitFlattens(dst, cuts);
      forall i | 0 <= i < |gs| ensures GroupOk(gs, gd, i) {
        GroupIsOk(src, dst, cuts, i);
      }
    }
  }

  lemma BreakSeparates(src: seq<int>, dst: seq<int>, from: nat, at: nat, to: nat)
    requires |src| == |dst| && from < at < to <= |src| && IsBreak(src, dst, at)
    ensures !BothJoin(src[from..at], src[at..to], dst[from..at], dst[at..to])
  {
  }

  lemma GroupIsOk(src: seq<int>, dst: seq<int>, cuts: seq<int>, i: nat)
    requires |src| > 0 && AreBreaks(src, dst, |src|, cuts) && i <= |cuts|
    ensures |Split(src, cuts)| == |Split(dst, cuts)| == |cuts| + 1
    ensures GroupOk(Split(src, cuts), Split(dst, cuts), i)
  {
    GroupRises(src, dst, cuts, i);
    if i < |cuts| {
      GroupEnds(src, dst, cuts, i);
    }
  }

  lemma GroupRises(src: seq<int>, dst: seq<int>, cuts: seq<int>, i: nat)
    requires |src| > 0 && AreBreaks(src, dst, |src|, cuts) && i <= |cuts|
    ensures |Split(src, cuts)| == |Split(dst, cuts)| == |cuts| + 1
    ensures |Split(src, cuts)[i]| == |Split(dst, cuts)[i]| > 0
    ensures Contiguous(Split(src, cuts)[i]) && Contiguous(Split(dst, cuts)[i])
  {
    SplitPiece(src, cuts, i);
    SplitPiece(dst, cuts, i);
    CutBounds(src, dst, cuts, i);
    NoBreakInside(src, dst, From(cuts, i), To(cuts, i, |src|));
  }

  lemma TwoPieces(s: seq<int>, cuts: seq<int>, i: nat)
    requires forall j :: 0 <= j < |cuts| ==> 0 <= cuts[j] <= |s|
    requires forall i, j :: 0 <= i < j < |cuts| ==> cuts[i] <= cuts[j]
    requires i < |cuts|
    ensures |Split(s, cuts)| == |cuts| + 1
    ensures 0 <= From(cuts, i) <= cuts[i] <= To(cuts, i + 1, |s|) <= |s|
    ensures Split(s, cuts)[i] == s[From(cuts, i)..cuts[i]]
    ensures Split(s, cuts)[i + 1] == s[cuts[i]..To(cuts, i + 1, |s|)]
  {
    SplitPiece(s, cuts, i);
    SplitPiece(s, cuts, i + 1);
  }

  lemma BothSides(src: seq<int>, dst: seq<int>, cuts: seq<int>, i: nat)
    requires |src| > 0 && AreBreaks(src, dst, |src|, cuts) && i < |cuts|
    ensures 0 <= From(cuts, i) < cuts[i] < To(cuts, i + 1, |src|) <= |src| && IsBreak(src, dst, cuts[i])
  {
    CutBounds(src, dst, cuts, i);
    CutBounds(src, dst, cuts, i + 1);
  }

  lemma GroupEnds(src: seq<int>, dst: seq<int>, cuts: seq<int>, i: nat)
    requires |src| > 0 && AreBreaks(src, dst, |src|, cuts) && i < |cuts|
    ensures |Split(src, cuts)| == |Split(dst, cuts)| == |cuts| + 1
    ensures !BothJoin(Split(src, cuts)[i], Split(src, cuts)[i + 1], Split(dst, cuts)[i], Split(dst, cuts)[i + 1])
  {
    TwoPieces(src, cuts, i);
    TwoPieces(dst, cuts, i);
    BothSides(src, dst, cuts, i);
    BreakSeparates(src, dst, From(cuts, i), cuts[i], To(cuts, i + 1, |src|));
  }
}
