/** `split_decodes_and_prefills`: the border between decodes and prefills in a reordered batch. */
module BatchSplit {
  import opened BatchReorder

  /** Batch metadata: longest query, number of requests and tokens, and the start of every query. */
  datatype Meta = Meta(maxQueryLen: int, numReqs: nat, numTokens: int, queryStart: seq<int>)

  datatype Border = Border(numDecodes: int, numPrefills: int, numDecodeTokens: int, numPrefillTokens: int)

  datatype Result = Ok(border: Border) | AssertionFailed

  function QueryLen(m: Meta, i: nat): int
    requires i + 1 < |m.queryStart|
  {
    m.queryStart[i + 1] - m.queryStart[i]
  }

  /** The metadata describes `numReqs` queries laid out one after the other. */
  ghost predicate Consistent(m: Meta) {
    && |m.queryStart| == m.numReqs + 1 && m.queryStart[0] == 0 && m.queryStart[m.numReqs] == m.numTokens
    && (forall i :: 0 <= i < m.numReqs ==> 0 <= QueryLen(m, i) <= m.maxQueryLen)
  }

  /** First request longer than the threshold, or the number of requests. */
  function FirstPrefill(m: Meta, threshold: int, from: nat): (r: nat)
    requires from < |m.queryStart|
    ensures from <= r < |m.queryStart|
    ensures forall i :: from <= i < r ==> QueryLen(m, i) <= threshold
    ensures r + 1 < |m.queryStart| ==> QueryLen(m, r) > threshold
    decreases |m.queryStart| - from
  {
    if from + 1 == |m.queryStart| || QueryLen(m, from) > threshold then from
    else FirstPrefill(m, threshold, from + 1)
  }

  function SplitBatch(m: Meta, threshold: int): Result
    requires m.queryStart != []
  {
    var decodeOnly := Ok(Border(m.numReqs, 0, m.numTokens, 0));
    if m.maxQueryLen <= threshold then decodeOnly
    else
      var first := FirstPrefill(m, threshold, 0);
      if first + 1 == |m.queryStart| then decodeOnly
      else if (forall i :: first <= i < |m.queryStart| - 1 ==> QueryLen(m, i) >= threshold)
           && (forall i :: 0 <= i < first ==> QueryLen(m, i) <= threshold) then
        Ok(Border(first, m.numReqs - first, m.queryStart[first], m.numTokens - m.queryStart[first]))
      else AssertionFailed
  }

  /** `k` queries of at most one token hold `k` tokens only if every one of them holds one. */
  lemma {:induction false} ShortQueries(m: Meta, k: nat)
    requires Consistent(m) && k <= m.numReqs && forall i :: 0 <= i < k ==> QueryLen(m, i) <= 1
    ensures m.queryStart[k] <= k
    ensures m.queryStart[k] == k <==> forall i :: 0 <= i < k ==> QueryLen(m, i) == 1
  {
    if k > 0 {
      ShortQueries(m, k - 1);
      assert QueryLen(m, k - 1) <= 1;
    }
  }

  /** For any threshold, the split fails exactly when a query below the threshold follows one above it. Otherwise the
      border is the first query above the threshold, or the end. */
  lemma SplitMeaning(m: Meta, threshold: int)
    requires Consistent(m)
    ensures SplitBatch(m, threshold) == AssertionFailed <==>
              exists i, j :: 0 <= i < j < m.numReqs && QueryLen(m, i) > threshold > QueryLen(m, j)
    ensures SplitBatch(m, threshold).Ok? ==>
              var b := SplitBatch(m, threshold).border;
              && 0 <= b.numDecodes <= m.numReqs && b.numDecodes + b.numPrefills == m.numReqs
              && b.numDecodeTokens == m.queryStart[b.numDecodes] && b.numDecodeTokens + b.numPrefillTokens == m.numTokens
              && (forall i :: 0 <= i < b.numDecodes ==> QueryLen(m, i) <= threshold)
              && (b.numPrefills > 0 ==> QueryLen(m, b.numDecodes) > threshold)
  {
    var first := FirstPrefill(m, threshold, 0);
    if m.maxQueryLen > threshold && first + 1 < |m.queryStart| {
      if j :| first <= j < m.numReqs && QueryLen(m, j) < threshold {
        assert QueryLen(m, first) > threshold > QueryLen(m, j);
      }
    }
  }

  /** With threshold one, the split succeeds and its token offset is also its request offset exactly when
      every request has at least one token. */
  lemma OffsetsAgree(m: Meta)
    requires Consistent(m)
    ensures (SplitBatch(m, 1).Ok? && SplitBatch(m, 1).border.numDecodeTokens == SplitBatch(m, 1).border.numDecodes)
       <==> forall i :: 0 <= i < m.numReqs ==> QueryLen(m, i) >= 1
  {
    var first := FirstPrefill(m, 1, 0);
    if m.maxQueryLen <= 1 || first == m.numReqs {
      ShortQueries(m, m.numReqs);
    } else {
      ShortQueries(m, first);
    }
  }

  /** The batch whose queries the metadata lays out. */
  ghost predicate Describes(m: Meta, batch: seq<Req>) {
    Consistent(m) && m.numReqs == |batch| && forall i :: 0 <= i < |batch| ==> QueryLen(m, i) == batch[i].tokens
  }

  /** On a reordered batch the split finds the border the reordering made, and both assertions of `build` hold. */
  lemma SplitFindsBorder(m: Meta, batch: seq<Req>)
    requires Describes(m, batch) && DecodesFirst(batch)
    requires forall i :: 0 <= i < |batch| ==> batch[i].tokens >= 1
    ensures var d := CountFrom(batch, 0);
            SplitBatch(m, 1) == Ok(Border(d, |batch| - d, d, m.numTokens - d))
    ensures var b := SplitBatch(m, 1).border;
            b.numDecodes + b.numPrefills == m.numReqs && b.numDecodeTokens + b.numPrefillTokens == m.numTokens
  {
    var d, first := CountFrom(batch, 0), FirstPrefill(m, 1, 0);
    CountFull(batch);
    assert forall i :: 0 <= i < |batch| ==> (IsDecode(batch[i]) <==> QueryLen(m, i) == 1);
    if m.maxQueryLen <= 1 {
      AllDecodes(m, batch);
    } else {
      assert d < |batch| ==> QueryLen(m, d) > 1;
      assert first < |batch| ==> !IsDecode(batch[first]);
      ShortQueries(m, first);
    }
  }

  lemma AllDecodes(m: Meta, batch: seq<Req>)
    requires Describes(m, batch) && DecodesFirst(batch) && m.maxQueryLen <= 1
    requires forall i :: 0 <= i < |batch| ==> batch[i].tokens >= 1
    ensures CountFrom(batch, 0) == |batch| == m.numTokens
  {
    ShortQueries(m, m.numReqs);
    CountFull(batch);
    forall i | 0 <= i < |batch| ensures IsDecode(batch[i]) {
      assert QueryLen(m, i) <= 1;
    }
  }

  /** Query starts are the running sums of the scheduled tokens. */
  method LayOut(batch: array<Req>) returns (m: Meta)
    requires forall i :: 0 <= i < batch.Length ==> batch[i].tokens >= 0
    ensures Describes(m, batch[..])
  {
    var longest, starts := 0, [0];
    for i := 0 to batch.Length
      invariant |starts| == i + 1 && starts[0] == 0
      invariant forall j :: 0 <= j < i ==> starts[j + 1] - starts[j] == batch[j].tokens <= longest
    {
      starts := starts + [starts[i] + batch[i].tokens];
      if batch[i].tokens > longest { longest := batch[i].tokens; }
    }
    m := Meta(longest, batch.Length, starts[batch.Length], starts);
  }

  /** Reordering, laying out and splitting any batch of requests with at least one token each. */
  method ReorderAndSplit(batch: array<Req>) returns (r: Result)
    requires forall i :: 0 <= i < batch.Length ==> batch[i].tokens >= 1
    modifies batch
    ensures multiset(batch[..]) == multiset(old(batch[..]))
    ensures var d := CountFrom(old(batch[..]), 0);
            && r.Ok? && r.border.numDecodes == r.border.numDecodeTokens == d && r.border.numPrefills == batch.Length - d
            && forall i :: 0 <= i < batch.Length ==> (IsDecode(batch[i]) <==> i < d)
  {
    ghost var s := batch[..];
    var modified; ghost var swaps;
    modified, swaps := ReorderBatch(batch);
    SwapsPermute(s, swaps);
    forall i | 0 <= i < batch.Length ensures batch[i].tokens >= 1 {
      assert batch[..][i] in multiset(s);
    }
    var m := LayOut(batch);
    SplitFindsBorder(m, batch[..]);
    r := SplitBatch(m, 1);
  }
}
