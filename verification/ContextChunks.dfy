/** Chunked context of MLA prefills: workspace bound and chunk arithmetic of `AscendMLAMetadataBuilder`. */
module ContextChunks {
  import opened Indexing
  import opened Sums

  const WORKSPACE_CAP := 128 * 1024

  function Max(a: int, b: int): int { if a >= b then a else b }
  function Min(a: int, b: int): int { if a <= b then a else b }

  function WorkspaceSize(maxModelLen: nat, maxSeqs: nat, blockSize: nat): nat {
    Min(Max(8 * maxModelLen, 4 * (maxSeqs * blockSize)), WORKSPACE_CAP)
  }

  /** The workspace holds eight full-length requests and four pages per sequence, and no more, unless capped. */
  lemma WorkspaceMeaning(maxModelLen: nat, maxSeqs: nat, blockSize: nat)
    ensures IsWorkspace(WorkspaceSize(maxModelLen, maxSeqs, blockSize), 8 * maxModelLen, 4 * (maxSeqs * blockSize))
  {
    MulNonNegative(maxSeqs, blockSize);
  }

  /** Room for the full lengths and the pages, exactly one of them, or the cap if either goes beyond it. */
  ghost predicate IsWorkspace(workspace: int, lengths: int, pages: int) {
    || (workspace == 128 * 1024 && (lengths >= workspace || pages >= workspace))
    || (lengths <= workspace <= 128 * 1024 && pages <= workspace && (workspace == lengths || workspace == pages))
  }

  /** The constructor's assertion holds exactly when one block per sequence fits the cap. */
  lemma WorkspaceAssertion(maxModelLen: nat, maxSeqs: nat, blockSize: nat)
    ensures WorkspaceSize(maxModelLen, maxSeqs, blockSize) >= maxSeqs * blockSize <==> maxSeqs * blockSize <= WORKSPACE_CAP
  {
    MulNonNegative(maxSeqs, blockSize);
  }

  function RoundDown(x: int, unit: int): int
    requires unit > 0
  {
    x / unit * unit
  }

  function CeilDiv(a: int, b: int): int
    requires b > 0
  {
    (a + b - 1) / b
  }

  function ChunkSize(workspace: nat, withContext: nat, blockSize: nat): int
    requires withContext > 0 && blockSize > 0
  {
    RoundDown(workspace / withContext, blockSize)
  }

  /** Whenever the constructor's assertion held, the chunk size is the largest number of whole blocks for which one
      chunk of every prefill with context fits the workspace, and it is positive. */
  lemma ChunkSizeOk(workspace: nat, maxSeqs: nat, withContext: nat, blockSize: nat)
    requires blockSize > 0 && 0 < withContext <= maxSeqs && workspace >= maxSeqs * blockSize
    ensures ChunkSize(workspace, withContext, blockSize) >= blockSize
    ensures ChunkSize(workspace, withContext, blockSize) % blockSize == 0
    ensures withContext * ChunkSize(workspace, withContext, blockSize) <= workspace
    ensures withContext * (ChunkSize(workspace, withContext, blockSize) + blockSize) > workspace
  {
    var q := workspace / withContext;
    DivModFacts(workspace, withContext);
    MulMonotone(withContext, maxSeqs, blockSize);
    if q < blockSize {
      MulMonotone(q + 1, blockSize, withContext);
    }
    var c := ChunkSize(workspace, withContext, blockSize);
    DivModFacts(q, blockSize);
    assert q / blockSize >= 1 by { if q / blockSize <= 0 { MulMonotone(q / blockSize, 0, blockSize); } }
    MulMonotone(1, q / blockSize, blockSize);
    CellDivMod(q / blockSize, 0, blockSize);
    MulMonotone(c, q, withContext);
    MulMonotone(q + 1, c + blockSize, withContext);
  }

  /* ----- One prefill ----- */

  function ChunkStart(c: nat, size: nat): int {
    c * size
  }

  function ChunkEnd(context: int, c: nat, size: nat): int {
    Min(context, ChunkStart(c, size) + size)
  }

  function ChunkLen(context: int, c: nat, size: nat): nat {
    Max(ChunkEnd(context, c, size) - ChunkStart(c, size), 0)
  }

  /** Position `t` of the context belongs to chunk `c`. */
  predicate InChunk(context: int, c: nat, size: nat, t: int) {
    ChunkStart(c, size) <= t < ChunkStart(c, size) + ChunkLen(context, c, size)
  }

  lemma NumChunksCover(maxContext: nat, size: nat, t: nat)
    requires size > 0 && t < maxContext
    ensures 0 <= t / size < CeilDiv(maxContext, size)
  {
    DivModFacts(t, size);
    DivModFacts(maxContext + size - 1, size);
    var n := CeilDiv(maxContext, size);
    if t / size >= n {
      MulMonotone(n, t / size, size);
    }
    if t / size < 0 {
      MulMonotone(t / size, -1, size);
    }
  }

  /** Every context position lies in exactly one chunk, and chunks hold nothing else. */
  lemma ChunksPartition(context: nat, maxContext: nat, size: nat, t: int)
    requires size > 0 && context <= maxContext
    ensures 0 <= t < context <==> exists c :: 0 <= c < CeilDiv(maxContext, size) && InChunk(context, c, size, t)
    ensures forall c, d :: 0 <= c && 0 <= d && InChunk(context, c, size, t) && InChunk(context, d, size, t) ==> c == d
  {
    if 0 <= t < context {
      NumChunksCover(maxContext, size, t);
      DivModFacts(t, size);
      assert InChunk(context, t / size, size, t);
    }
    forall c | 0 <= c && InChunk(context, c, size, t) ensures 0 <= t < context && c == t / size {
      MulNonNegative(c, size);
      CellDivMod(c, t - c * size, size);
    }
  }

  /** Chunks follow each other without gaps: each one ends where the next one starts, or the context is used up. */
  lemma ChunksConsecutive(context: nat, size: nat, c: nat)
    requires size > 0
    ensures ChunkStart(0, size) == 0
    ensures ChunkStart(c, size) <= context ==>
              ChunkStart(c, size) + ChunkLen(context, c, size) == Min(context, ChunkStart(c + 1, size))
  {
    MulNonNegative(c, size);
    assert (c + 1) * size == c * size + size;
  }

  lemma StartsAligned(c: nat, size: nat, blockSize: nat)
    requires blockSize > 0 && size % blockSize == 0
    ensures ChunkStart(c, size) % blockSize == 0
  {
    DivModFacts(size, blockSize);
    NestedCell(0, c, 0, 1, size);
    assert c * size == c * (size / blockSize) * blockSize;
    CellDivMod(c * (size / blockSize), 0, blockSize);
  }

  /* ----- All prefills of one chunk ----- */

  function ChunkLens(contexts: seq<nat>, c: nat, size: nat): (r: seq<int>)
    ensures |r| == |contexts|
    ensures forall i :: 0 <= i < |r| ==> r[i] == ChunkLen(contexts[i], c, size)
  {
    seq(|contexts|, i requires 0 <= i < |contexts| => ChunkLen(contexts[i], c, size))
  }

  function CountWithContext(contexts: seq<nat>): nat {
    if contexts == [] then 0
    else CountWithContext(contexts[..|contexts| - 1]) + (if contexts[|contexts| - 1] > 0 then 1 else 0)
  }

  lemma {:induction false} ChunkTotal(contexts: seq<nat>, c: nat, size: nat)
    ensures 0 <= SumInt(ChunkLens(contexts, c, size)) <= CountWithContext(contexts) * size
  {
    if contexts != [] {
      var n := |contexts| - 1;
      ChunkTotal(contexts[..n], c, size);
      assert ChunkLens(contexts, c, size)[..n] == ChunkLens(contexts[..n], c, size);
      MulNonNegative(c, size);
      var k := CountWithContext(contexts[..n]);
      assert (k + 1) * size == k * size + size;
    }
  }

  /** The up-projected context of every chunk fits the workspace. */
  lemma ChunkFitsWorkspace(contexts: seq<nat>, workspace: nat, maxSeqs: nat, blockSize: nat, c: nat)
    requires blockSize > 0 && |contexts| <= maxSeqs && CountWithContext(contexts) > 0
    requires workspace >= maxSeqs * blockSize
    ensures ChunkSize(workspace, CountWithContext(contexts), blockSize) > 0
    ensures SumInt(ChunkLens(contexts, c, ChunkSize(workspace, CountWithContext(contexts), blockSize))) <= workspace
  {
    CountBound(contexts);
    ChunkSizeOk(workspace, maxSeqs, CountWithContext(contexts), blockSize);
    ChunkTotal(contexts, c, ChunkSize(workspace, CountWithContext(contexts), blockSize));
  }

  lemma {:induction false} CountBound(contexts: seq<nat>)
    ensures CountWithContext(contexts) <= |contexts|
  {
    if contexts != [] { CountBound(contexts[..|contexts| - 1]); }
  }

  /* ----- From the constructor to the chunks of a batch ----- */

  ghost predicate IsMaximum(contexts: seq<nat>, m: nat) {
    m in contexts && forall i :: 0 <= i < |contexts| ==> contexts[i] <= m
  }

  lemma {:induction false} SomeWithContext(contexts: seq<nat>)
    ensures CountWithContext(contexts) > 0 <==> exists i :: 0 <= i < |contexts| && contexts[i] > 0
  {
    if contexts != [] {
      var n := |contexts| - 1;
      SomeWithContext(contexts[..n]);
      assert forall i :: 0 <= i < n ==> contexts[..n][i] == contexts[i];
    }
  }

  /** The first `n` chunks cut a context into disjoint pieces: every position is in exactly one. */
  ghost predicate CutOnce(context: nat, n: int, size: nat) {
    forall t: int :: InOneChunk(context, n, size, t)
  }

  ghost predicate InOneChunk(context: nat, n: int, size: nat, t: int) {
    && (0 <= t < context <==> exists c :: 0 <= c < n && InChunk(context, c, size, t))
    && (forall c, d :: 0 <= c && 0 <= d && InChunk(context, c, size, t) && InChunk(context, d, size, t) ==> c == d)
  }

  /** Each chunk starts at a block border, and ends where the next one starts or the context does. */
  ghost predicate InLine(context: nat, n: int, size: nat, blockSize: nat)
    requires blockSize > 0
  {
    ChunkStart(0, size) == 0 &&
    forall c: nat :: c < n ==>
      && ChunkStart(c, size) % blockSize == 0
      && (ChunkStart(c, size) <= context ==>
            ChunkStart(c, size) + ChunkLen(context, c, size) == Min(context, ChunkStart(c + 1, size)))
  }

  ghost predicate FitsWorkspace(contexts: seq<nat>, n: int, size: nat, workspace: int) {
    forall c: nat :: c < n ==> SumInt(ChunkLens(contexts, c, size)) <= workspace
  }

  lemma CutsOnce(context: nat, maxContext: nat, size: nat)
    requires size > 0 && context <= maxContext
    ensures CutOnce(context, CeilDiv(maxContext, size), size)
  {
    forall t: int ensures InOneChunk(context, CeilDiv(maxContext, size), size, t) {
      ChunksPartition(context, maxContext, size, t);
    }
  }

  lemma AllInLine(context: nat, n: int, size: nat, blockSize: nat)
    requires size > 0 && blockSize > 0 && size % blockSize == 0
    ensures InLine(context, n, size, blockSize)
  {
    ChunksConsecutive(context, size, 0);
    forall c: nat | c < n
      ensures ChunkStart(c, size) % blockSize == 0
      ensures ChunkStart(c, size) <= context ==>
                ChunkStart(c, size) + ChunkLen(context, c, size) == Min(context, ChunkStart(c + 1, size))
    {
      StartsAligned(c, size, blockSize);
      ChunksConsecutive(context, size, c);
    }
  }

  /** Prefills that have any context. */
  ghost function WithContext(contexts: seq<nat>): (r: set<int>)
    ensures forall i :: i in r <==> 0 <= i < |contexts| && contexts[i] > 0
  {
    set i | 0 <= i < |contexts| && contexts[i] > 0
  }

  lemma {:induction false} CountIsCardinality(contexts: seq<nat>)
    ensures CountWithContext(contexts) == |WithContext(contexts)|
  {
    if contexts != [] {
      var n := |contexts| - 1;
      CountIsCardinality(contexts[..n]);
      assert WithContext(contexts) == WithContext(contexts[..n]) + (if contexts[n] > 0 then {n} else {});
    }
  }

  /** The size is the largest number of whole blocks that gives every prefill with context its chunk, and no chunk is
      one too many. */
  ghost predicate SizedWell(contexts: seq<nat>, workspace: nat, maxContext: nat, size: int, blockSize: nat)
    requires blockSize > 0
  {
    && size > 0 && size % blockSize == 0
    && |WithContext(contexts)| * size <= workspace < |WithContext(contexts)| * (size + blockSize)
    && (CeilDiv(maxContext, size) - 1) * size < maxContext
  }

  /** What `build` makes of a batch of prefills. */
  ghost predicate ChunkedWell(contexts: seq<nat>, workspace: nat, maxContext: nat, size: int, blockSize: nat)
    requires blockSize > 0
  {
    && SizedWell(contexts, workspace, maxContext, size, blockSize)
    && (forall i :: 0 <= i < |contexts| ==>
          && CutOnce(contexts[i], CeilDiv(maxContext, size), size)
          && InLine(contexts[i], CeilDiv(maxContext, size), size, blockSize))
    && FitsWorkspace(contexts, CeilDiv(maxContext, size), size, workspace)
  }

  /** A configuration passes the constructor's assertion exactly when one block per sequence fits the cap; and then
      every batch with any context is chunked into aligned, consecutive, disjoint pieces that fit the workspace. */
  lemma BatchIsChunked(maxModelLen: nat, maxSeqs: nat, blockSize: nat, contexts: seq<nat>, maxContext: nat)
    requires blockSize > 0 && |contexts| <= maxSeqs && IsMaximum(contexts, maxContext) && maxContext > 0
    ensures CountWithContext(contexts) > 0
    ensures var workspace := WorkspaceSize(maxModelLen, maxSeqs, blockSize);
            && (workspace >= maxSeqs * blockSize <==> maxSeqs * blockSize <= 128 * 1024)
            && IsWorkspace(workspace, 8 * maxModelLen, 4 * (maxSeqs * blockSize))
            && (workspace >= maxSeqs * blockSize ==>
                  ChunkedWell(contexts, workspace, maxContext,
                              ChunkSize(workspace, CountWithContext(contexts), blockSize), blockSize))
  {
    WorkspaceAssertion(maxModelLen, maxSeqs, blockSize);
    WorkspaceMeaning(maxModelLen, maxSeqs, blockSize);
    SomeWithContext(contexts);
    CountIsCardinality(contexts);
    var workspace := WorkspaceSize(maxModelLen, maxSeqs, blockSize);
    if workspace >= maxSeqs * blockSize {
      CountBound(contexts);
      ChunkSizeOk(workspace, maxSeqs, CountWithContext(contexts), blockSize);
      var size := ChunkSize(workspace, CountWithContext(contexts), blockSize);
      DivModFacts(maxContext + size - 1, size);
      assert (CeilDiv(maxContext, size) - 1) * size == CeilDiv(maxContext, size) * size - size;
      forall i | 0 <= i < |contexts|
        ensures CutOnce(contexts[i], CeilDiv(maxContext, size), size)
        ensures InLine(contexts[i], CeilDiv(maxContext, size), size, blockSize)
      {
        CutsOnce(contexts[i], maxContext, size);
        AllInLine(contexts[i], CeilDiv(maxContext, size), size, blockSize);
      }
      forall c: nat | c < CeilDiv(maxContext, size) ensures SumInt(ChunkLens(contexts, c, size)) <= workspace {
        ChunkFitsWorkspace(contexts, workspace, maxSeqs, blockSize, c);
      }
    }
  }
}
