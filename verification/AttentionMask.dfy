/** `AttentionMaskBuilder`: cached causal masks and masks for split-fuse batches. */
module AttentionMask {

  /** The type of a tensor: half precision, or one of the other floating types. Half precision masks with minus
      infinity, every other type with one. */
  datatype Dtype = Half | Other(tag: nat)

  /** The values a mask can hold; `Splitfuse` is -10000. */
  datatype Cell = Zero | One | Splitfuse | NegInf | PosInf

  type Mask = seq<seq<Cell>>

  /** A mask as it is handed out: its cells and its type. */
  datatype Tensor = Tensor(rows: Mask, dtype: Dtype)

  function MaskValue(d: Dtype): Cell {
    if d == Half then NegInf else One
  }

  function CausalRow(position: int, n: nat, v: Cell): (row: seq<Cell>)
    ensures |row| == n && forall c :: 0 <= c < n ==> row[c] == if c > position then v else Zero
  {
    seq(n, c => if c > position then v else Zero)
  }

  /** One row per position, later columns masked. */
  function Causal(positions: seq<int>, n: nat, v: Cell): (m: Mask)
    ensures |m| == |positions| && forall i :: 0 <= i < |m| ==> m[i] == CausalRow(positions[i], n, v)
  {
    seq(|positions|, i requires 0 <= i < |positions| => CausalRow(positions[i], n, v))
  }

  /** `_generate_attn_mask`: everything above the diagonal is masked. */
  function Generate(n: nat, d: Dtype): (m: Tensor)
    ensures |m.rows| == n && (forall r :: 0 <= r < n ==> m.rows[r] == CausalRow(r, n, MaskValue(d))) && m.dtype == d
  {
    Tensor(seq(n, r => CausalRow(r, n, MaskValue(d))), d)
  }

  /** Upper left corner. */
  function Corner(m: Tensor, n: nat): (r: Tensor)
    requires n <= |m.rows| && forall i :: 0 <= i < |m.rows| ==> n <= |m.rows[i]|
    ensures |r.rows| == n && (forall i :: 0 <= i < n ==> r.rows[i] == m.rows[i][..n]) && r.dtype == m.dtype
  {
    Tensor(seq(n, i requires 0 <= i < n => m.rows[i][..n]), m.dtype)
  }

  /** The corner of a bigger mask is the mask generated for the smaller size. */
  lemma CornerIsGenerated(big: nat, n: nat, d: Dtype)
    requires n <= big
    ensures Corner(Generate(big, d), n) == Generate(n, d)
  {
    forall r | 0 <= r < n
      ensures CausalRow(r, big, MaskValue(d))[..n] == CausalRow(r, n, MaskValue(d))
    {
    }
    assert Corner(Generate(big, d), n).rows == Generate(n, d).rows;
  }

  /* ----- The cache over many calls ----- */

  /** Size and type of the cached mask. */
  datatype Cache = Cache(len: nat, dtype: Dtype)

  /** A request for a mask: its size and type. */
  datatype Call = Call(len: nat, dtype: Dtype)

  /** The cache after a request: it grows, and takes over the requested type, only when too small. */
  function Grow(c: Cache, e: Call): Cache {
    if e.len > c.len then Cache(e.len, e.dtype) else c
  }

  function GrowAll(c: Cache, calls: seq<Call>): Cache {
    if calls == [] then c
    else var k := |calls| - 1; Grow(GrowAll(c, calls[..k]), calls[k])
  }

  /** What a request is served from a cache. */
  function Served(c: Cache, e: Call): Tensor {
    Corner(Generate(Grow(c, e).len, Grow(c, e).dtype), e.len)
  }

  /** A mask served from the cache is the freshly generated one exactly when the cache had to grow or is of the
      requested type. */
  lemma ServedIsFresh(c: Cache, e: Call)
    ensures Served(c, e) == Generate(e.len, e.dtype) <==> e.len > c.len || c.dtype == e.dtype
  {
    CornerIsGenerated(Grow(c, e).len, e.len, Grow(c, e).dtype);
  }

  /** Call `i` is the first of the longest calls. */
  ghost predicate IsFirstLongest(calls: seq<Call>, i: nat) {
    && i < |calls|
    && (forall j :: 0 <= j < |calls| ==> calls[j].len <= calls[i].len)
    && (forall j :: 0 <= j < i ==> calls[j].len < calls[i].len)
  }

  ghost predicate NoneLonger(calls: seq<Call>, len: nat) {
    forall j :: 0 <= j < |calls| ==> calls[j].len <= len
  }

  /** The cache `c` is the one call `i` made. */
  ghost predicate MadeBy(calls: seq<Call>, i: nat, c: Cache) {
    IsFirstLongest(calls, i) && c == Cache(calls[i].len, calls[i].dtype)
  }

  /** After any calls the cache is the constructor's if no call was longer, else the first longest call's. */
  lemma {:induction false} CacheHistory(start: Cache, calls: seq<Call>) returns (i: nat)
    ensures NoneLonger(calls, start.len) ==> GrowAll(start, calls) == start
    ensures !NoneLonger(calls, start.len) ==> MadeBy(calls, i, GrowAll(start, calls)) && GrowAll(start, calls).len > start.len
  {
    i := 0;
    if calls != [] {
      var k := |calls| - 1;
      i := CacheHistory(start, calls[..k]);
      HistoryStep(start, calls, GrowAll(start, calls[..k]), i);
      if calls[k].len > GrowAll(start, calls[..k]).len { i := k; }
    }
  }

  lemma HistoryStep(start: Cache, calls: seq<Call>, c: Cache, i: nat)
    requires calls != []
    requires var front := calls[..|calls| - 1];
             if NoneLonger(front, start.len) then c == start else MadeBy(front, i, c) && c.len > start.len
    ensures var last := calls[|calls| - 1];
            && (NoneLonger(calls, start.len) <==> Grow(c, last) == start && c == start && last.len <= start.len)
            && (last.len > c.len ==> MadeBy(calls, |calls| - 1, Grow(c, last)) && last.len > start.len)
            && (last.len <= c.len && !NoneLonger(calls, start.len) ==> MadeBy(calls, i, c) && c.len > start.len)
  {
    var k := |calls| - 1;
    var front := calls[..k];
    assert forall j :: 0 <= j < k ==> front[j] == calls[j];
    assert NoneLonger(calls, start.len) <==> NoneLonger(front, start.len) && calls[k].len <= start.len;
  }

  /** The type a cache has after some calls: the constructor's, or that of the first call that reached its length. */
  ghost predicate IsKindAfter(start: Cache, calls: seq<Call>, d: Dtype) {
    if NoneLonger(calls, start.len) then d == start.dtype
    else exists i: nat :: IsFirstLongest(calls, i) && d == calls[i].dtype
  }

  lemma KindIsCaches(start: Cache, calls: seq<Call>, d: Dtype, n: nat)
    ensures IsKindAfter(start, calls, d) <==> GrowAll(start, calls).dtype == d
    ensures n > GrowAll(start, calls).len <==> n > start.len && forall j :: 0 <= j < |calls| ==> n > calls[j].len
  {
    var i := CacheHistory(start, calls);
    if !NoneLonger(calls, start.len) {
      forall j: nat | IsFirstLongest(calls, j) ensures j == i {
        if j < i {} else if i < j {}
      }
    }
  }

  /** After any calls, a request is served the mask it asks for exactly when it is longer than all before it, or asks
      for the type of the first call that reached the cache's length. */
  lemma ServedAfterCalls(start: Cache, calls: seq<Call>, e: Call)
    ensures Served(GrowAll(start, calls), e) == Generate(e.len, e.dtype)
       <==> (e.len > start.len && forall j :: 0 <= j < |calls| ==> e.len > calls[j].len) || IsKindAfter(start, calls, e.dtype)
  {
    KindIsCaches(start, calls, e.dtype, e.len);
    ServedIsFresh(GrowAll(start, calls), e);
  }

  /** After any calls of one type, the cache still serves fresh masks of that type. */
  lemma OneKindStaysFresh(len: nat, calls: seq<Call>, e: Call)
    requires forall k :: 0 <= k < |calls| ==> calls[k].dtype == e.dtype
    ensures Served(GrowAll(Cache(len, e.dtype), calls), e) == Generate(e.len, e.dtype)
  {
    var i := CacheHistory(Cache(len, e.dtype), calls);
    ServedIsFresh(GrowAll(Cache(len, e.dtype), calls), e);
  }

  /** While no call goes beyond the constructor's length, every request of another type is served a stale mask. */
  lemma OtherKindIsStale(start: Cache, calls: seq<Call>, e: Call)
    requires NoneLonger(calls, start.len) && e.len <= start.len && e.dtype != start.dtype
    ensures Served(GrowAll(start, calls), e) != Generate(e.len, e.dtype)
  {
    var i := CacheHistory(start, calls);
    ServedIsFresh(GrowAll(start, calls), e);
  }

  /* ----- Split-fuse masks ----- */

  /** Positions of the queries of one request: the last `queryLen` of its `seqLen` tokens. */
  function QueryPositions(seqLen: int, queryLen: nat): (p: seq<int>)
    ensures |p| == queryLen && forall j :: 0 <= j < queryLen ==> p[j] == seqLen - queryLen + j
  {
    seq(queryLen, j => seqLen - queryLen + j)
  }

  function Positions(seqLens: seq<nat>, queryLens: seq<nat>): seq<int>
    requires |seqLens| == |queryLens|
  {
    if seqLens == [] then []
    else var n := |seqLens| - 1;
         Positions(seqLens[..n], queryLens[..n]) + QueryPositions(seqLens[n], queryLens[n])
  }

  method MaxOf(s: seq<nat>) returns (m: nat)
    ensures forall i :: 0 <= i < |s| ==> s[i] <= m
    ensures m == 0 || m in s
  {
    m := 0;
    for i := 0 to |s|
      invariant forall j :: 0 <= j < i ==> s[j] <= m
      invariant m == 0 || m in s
    {
      if s[i] > m { m := s[i]; }
    }
  }

  function Scale(x: Cell): Cell {
    match x
    case Zero => Zero
    case One => Splitfuse
    case Splitfuse => Splitfuse
    case NegInf => PosInf
    case PosInf => NegInf
  }

  function ScaleRow(row: seq<Cell>): (r: seq<Cell>)
    ensures |r| == |row| && forall c :: 0 <= c < |row| ==> r[c] == Scale(row[c])
  {
    seq(|row|, c requires 0 <= c < |row| => Scale(row[c]))
  }

  function ScaleAll(m: Mask): (r: Mask)
    ensures |r| == |m| && forall i :: 0 <= i < |m| ==> r[i] == ScaleRow(m[i])
  {
    seq(|m|, i requires 0 <= i < |m| => ScaleRow(m[i]))
  }

  /** `index_select` on rows, then the first `n` columns. */
  function SelectRows(m: Mask, index: seq<int>, n: nat): (r: Mask)
    requires forall i :: 0 <= i < |index| ==> 0 <= index[i] < |m| && n <= |m[index[i]]|
    ensures |r| == |index| && forall i :: 0 <= i < |index| ==> r[i] == m[index[i]][..n]
  {
    seq(|index|, i requires 0 <= i < |index| => m[index[i]][..n])
  }

  lemma SelectedIsCausal(big: nat, n: nat, d: Dtype, positions: seq<int>)
    requires n <= big && forall i :: 0 <= i < |positions| ==> 0 <= positions[i] < n
    ensures SelectRows(Generate(big, d).rows, positions, n) == Causal(positions, n, MaskValue(d))
  {
    forall i | 0 <= i < |positions|
      ensures CausalRow(positions[i], big, MaskValue(d))[..n] == CausalRow(positions[i], n, MaskValue(d))
    {
    }
  }

  /** With at most one column no cell is ever masked. */
  lemma NothingMasked(n: nat, positions: seq<int>, v: Cell, w: Cell)
    requires n <= 1 && forall i :: 0 <= i < |positions| ==> 0 <= positions[i] < n
    ensures Causal(positions, n, v) == Causal(positions, n, w)
  {
    forall i | 0 <= i < |positions|
      ensures CausalRow(positions[i], n, v) == CausalRow(positions[i], n, w)
    {
    }
  }

  lemma ScaledIsCausal(n: nat, d: Dtype, positions: seq<int>)
    requires d.Other? && forall i :: 0 <= i < |positions| ==> 0 <= positions[i] < n
    ensures SelectRows(ScaleAll(Generate(n, d).rows), positions, n) == Causal(positions, n, Splitfuse)
  {
    forall i | 0 <= i < |positions|
      ensures ScaleRow(CausalRow(positions[i], n, One))[..n] == CausalRow(positions[i], n, Splitfuse)
    {
    }
  }

  /** The rows of a two-dimensional array. */
  ghost function Rows(a: array2<Cell>): (m: Mask)
    reads a
    ensures |m| == a.Length0
    ensures forall r :: 0 <= r < |m| ==> |m[r]| == a.Length1 && forall c :: 0 <= c < a.Length1 ==> m[r][c] == a[r, c]
  {
    seq(a.Length0, r requires 0 <= r < a.Length0 reads a => RowOf(a, r))
  }

  ghost function RowOf(a: array2<Cell>, r: nat): (row: seq<Cell>)
    requires r < a.Length0
    reads a
    ensures |row| == a.Length1 && forall c :: 0 <= c < a.Length1 ==> row[c] == a[r, c]
  {
    seq(a.Length1, c requires 0 <= c < a.Length1 reads a => a[r, c])
  }

  /** One request of the slow path, in place on its rows: everything from the context on is masked, then the lower
      triangle of the query block is cleared again. */
  method FillRequest(a: array2<Cell>, row: nat, seqLen: nat, queryLen: nat)
    requires queryLen <= seqLen <= a.Length1 && row + queryLen <= a.Length0
    requires forall r, c :: row <= r < row + queryLen && 0 <= c < a.Length1 ==> a[r, c] == Zero
    modifies a
    ensures forall r, c :: row <= r < row + queryLen && 0 <= c < a.Length1 ==>
              a[r, c] == if c > seqLen - queryLen + (r - row) then Splitfuse else Zero
    ensures forall r, c :: 0 <= r < a.Length0 && !(row <= r < row + queryLen) && 0 <= c < a.Length1 ==>
              a[r, c] == old(a[r, c])
  {
    var context := seqLen - queryLen;
    assert context >= 0;
    forall r, c | row <= r < row + queryLen && context <= c < a.Length1 {
      a[r, c] := Splitfuse;
    }
    forall r, c | row <= r < row + queryLen && context <= c < seqLen && c - context <= r - row && a[r, c] == Splitfuse {
      a[r, c] := Zero;
    }
  }

  /** The row-by-row construction: the position of query `r` is found by running through the requests. */
  method BuildRows(seqLens: seq<nat>, queryLens: seq<nat>, n: nat) returns (a: array2<Cell>)
    requires |seqLens| == |queryLens| && forall i :: 0 <= i < |seqLens| ==> queryLens[i] <= seqLens[i] <= n
    ensures fresh(a) && Rows(a) == Causal(Positions(seqLens, queryLens), n, Splitfuse)
  {
    ghost var positions := Positions(seqLens, queryLens);
    var total := TotalOf(seqLens, queryLens);
    a := new Cell[total, n]((_, _) => Zero);
    var row := 0;
    assert seqLens[..|seqLens|] == seqLens && queryLens[..|seqLens|] == queryLens;
    for i := 0 to |seqLens|
      invariant Positions(seqLens[..i], queryLens[..i]) <= positions
      invariant row == |Positions(seqLens[..i], queryLens[..i])|
      invariant forall r, c :: 0 <= r < row && 0 <= c < n ==> a[r, c] == if c > positions[r] then Splitfuse else Zero
      invariant forall r, c :: row <= r < total && 0 <= c < n ==> a[r, c] == Zero
    {
      PositionsStep(seqLens, queryLens, i);
      FillRequest(a, row, seqLens[i], queryLens[i]);
      row := row + queryLens[i];
    }
    RowsAreCausal(a, positions, Splitfuse);
  }

  lemma RowsAreCausal(a: array2<Cell>, positions: seq<int>, v: Cell)
    requires a.Length0 == |positions|
    requires forall r, c :: 0 <= r < a.Length0 && 0 <= c < a.Length1 ==> a[r, c] == if c > positions[r] then v else Zero
    ensures Rows(a) == Causal(positions, a.Length1, v)
  {
    forall r | 0 <= r < a.Length0
      ensures Rows(a)[r] == CausalRow(positions[r], a.Length1, v)
    {
    }
  }

  /** The positions of the first requests stay in front. */
  lemma {:induction false} PositionsPrefix(seqLens: seq<nat>, queryLens: seq<nat>, i: nat)
    requires |seqLens| == |queryLens| && i <= |seqLens|
    ensures Positions(seqLens[..i], queryLens[..i]) <= Positions(seqLens, queryLens)
    decreases |seqLens|
  {
    var n := |seqLens|;
    if i == n {
      assert seqLens[..i] == seqLens && queryLens[..i] == queryLens;
    } else {
      PositionsPrefix(seqLens[..n - 1], queryLens[..n - 1], i);
      assert seqLens[..n - 1][..i] == seqLens[..i] && queryLens[..n - 1][..i] == queryLens[..i];
    }
  }

  lemma PositionsStep(seqLens: seq<nat>, queryLens: seq<nat>, i: nat)
    requires |seqLens| == |queryLens| && i < |seqLens|
    ensures Positions(seqLens[..i + 1], queryLens[..i + 1])
         == Positions(seqLens[..i], queryLens[..i]) + QueryPositions(seqLens[i], queryLens[i])
    ensures Positions(seqLens[..i + 1], queryLens[..i + 1]) <= Positions(seqLens, queryLens)
  {
    assert seqLens[..i + 1][..i] == seqLens[..i] && queryLens[..i + 1][..i] == queryLens[..i];
    PositionsPrefix(seqLens, queryLens, i + 1);
  }

  /** `sum(query_lens)`: the number of queries. */
  method TotalOf(seqLens: seq<nat>, queryLens: seq<nat>) returns (total: nat)
    requires |seqLens| == |queryLens|
    ensures total == |Positions(seqLens, queryLens)|
  {
    total := 0;
    for i := 0 to |queryLens|
      invariant total == |Positions(seqLens[..i], queryLens[..i])|
    {
      PositionsStep(seqLens, queryLens, i);
      total := total + queryLens[i];
    }
    assert seqLens[..|seqLens|] == seqLens && queryLens[..|seqLens|] == queryLens;
  }

  method ReadRows(a: array2<Cell>) returns (m: Mask)
    ensures m == Rows(a)
  {
    m := [];
    for r := 0 to a.Length0
      invariant |m| == r && forall k :: 0 <= k < r ==> m[k] == RowOf(a, k)
    {
      m := m + [seq(a.Length1, c requires 0 <= c < a.Length1 reads a => a[r, c])];
    }
  }

  lemma {:induction false} PositionsInRange(seqLens: seq<nat>, queryLens: seq<nat>, n: nat)
    requires |seqLens| == |queryLens|
    requires forall i :: 0 <= i < |seqLens| ==> queryLens[i] <= seqLens[i] <= n
    ensures forall i :: 0 <= i < |Positions(seqLens, queryLens)| ==> 0 <= Positions(seqLens, queryLens)[i] < n
  {
    if seqLens != [] {
      PositionsInRange(seqLens[..|seqLens| - 1], queryLens[..|seqLens| - 1], n);
    }
  }

  /** Which cells a mask hides, whatever value it uses for that. */
  ghost predicate SameMasking(a: Mask, b: Mask) {
    |a| == |b| && forall i :: 0 <= i < |a| ==>
      |a[i]| == |b[i]| && forall c :: 0 <= c < |a[i]| ==> (a[i][c] == Zero <==> b[i][c] == Zero)
  }

  lemma CausalSameMasking(positions: seq<int>, n: nat, v: Cell, w: Cell)
    requires v != Zero && w != Zero
    ensures SameMasking(Causal(positions, n, v), Causal(positions, n, w))
  {
  }

  /** Masks with different values are the same only if every query sees all columns. */
  lemma SameMaskIff(positions: seq<int>, n: nat, v: Cell, w: Cell)
    requires v != Zero && w != Zero && forall i :: 0 <= i < |positions| ==> 0 <= positions[i] < n
    ensures Causal(positions, n, v) == Causal(positions, n, w) <==> v == w || forall i :: 0 <= i < |positions| ==> positions[i] == n - 1
  {
    if forall i :: 0 <= i < |positions| ==> positions[i] == n - 1 {
      forall i | 0 <= i < |positions| ensures CausalRow(positions[i], n, v) == CausalRow(positions[i], n, w) {}
      assert Causal(positions, n, v) == Causal(positions, n, w);
    } else {
      var i :| 0 <= i < |positions| && positions[i] != n - 1;
      assert Causal(positions, n, v)[i][n - 1] == v && Causal(positions, n, w)[i][n - 1] == w;
    }
  }

  class AttentionMaskBuilder {
    var seqLenCached: nat
    var attnMaskCache: Tensor

    ghost predicate Valid()
      reads this
    {
      attnMaskCache == Generate(seqLenCached, attnMaskCache.dtype)
    }

    ghost function View(): Cache
      reads this
    {
      Cache(seqLenCached, attnMaskCache.dtype)
    }

    constructor (maxSeqLen: nat, d: Dtype)
      ensures Valid() && View() == Cache(maxSeqLen, d)
    {
      attnMaskCache := Generate(maxSeqLen, d);
      seqLenCached := maxSeqLen;
    }

    method UpdateAttnCache(n: nat, d: Dtype)
      requires Valid()
      modifies this
      ensures Valid() && View() == Grow(old(View()), Call(n, d))
    {
      if n > seqLenCached {
        seqLenCached := n;
        attnMaskCache := Generate(n, d);
      }
    }

    method GetAttnMask(n: nat, d: Dtype) returns (m: Tensor)
      requires Valid()
      modifies this
      ensures Valid() && View() == Grow(old(View()), Call(n, d))
      ensures m == Served(old(View()), Call(n, d)) == Generate(n, View().dtype)
      ensures m == Generate(n, d) <==> n > old(seqLenCached) || old(attnMaskCache.dtype) == d
    {
      ServedIsFresh(View(), Call(n, d));
      UpdateAttnCache(n, d);
      CornerIsGenerated(seqLenCached, n, attnMaskCache.dtype);
      m := Corner(attnMaskCache, n);
    }

    /** Cached and row-by-row path give the same causal mask. They differ in the value used only if the cache is of half
        precision and something is masked, and in the tensor's type only if the cache is of another type. */
    method GetSplitfuseAttnMask(seqLens: seq<nat>, queryLens: seq<nat>, positions: seq<int>, d: Dtype)
      returns (m: Tensor, ghost n: nat)
      requires Valid()
      requires |seqLens| == |queryLens| && forall i :: 0 <= i < |seqLens| ==> queryLens[i] <= seqLens[i]
      requires positions == Positions(seqLens, queryLens)
      modifies this
      ensures Valid() && View() == old(View())
      ensures n == 0 || n in seqLens
      ensures forall i :: 0 <= i < |seqLens| ==> seqLens[i] <= n
      ensures m.rows == Causal(positions, n, if n <= old(seqLenCached) && old(attnMaskCache.dtype) == Half then NegInf else Splitfuse)
      ensures m.dtype == if n <= old(seqLenCached) then old(attnMaskCache.dtype) else d
      ensures SameMasking(m.rows, Causal(positions, n, Splitfuse))
      ensures m == Tensor(Causal(positions, n, Splitfuse), d) <==>
                n > old(seqLenCached) ||
                (old(attnMaskCache.dtype) == d && (d != Half || forall i :: 0 <= i < |positions| ==> positions[i] == n - 1))
    {
      var maxSeqLen := MaxOf(seqLens);
      n := maxSeqLen;
      PositionsInRange(seqLens, queryLens, maxSeqLen);
      if maxSeqLen <= seqLenCached {
        UpdateAttnCache(maxSeqLen, d);
        m := FromCache(maxSeqLen, positions, d);
      } else {
        var rows := BuildRows(seqLens, queryLens, maxSeqLen);
        var cells := ReadRows(rows);
        m := Tensor(cells, d);
      }
      CausalSameMasking(positions, n, NegInf, Splitfuse);
      CausalSameMasking(positions, n, Splitfuse, Splitfuse);
      SameMaskIff(positions, n, NegInf, Splitfuse);
    }

    method FromCache(n: nat, positions: seq<int>, d: Dtype) returns (m: Tensor)
      requires Valid() && n <= seqLenCached
      requires forall i :: 0 <= i < |positions| ==> 0 <= positions[i] < n
      modifies this
      ensures Valid() && View() == old(View())
      ensures m == Tensor(Causal(positions, n, if View().dtype == Half then NegInf else Splitfuse), View().dtype)
    {
      if seqLenCached > 1 && attnMaskCache.rows[0][1] == One {
        var mask := GetAttnMask(n, d);
        ScaledIsCausal(n, attnMaskCache.dtype, positions);
        m := Tensor(SelectRows(ScaleAll(mask.rows), positions, n), mask.dtype);
      } else {
        SelectedIsCausal(seqLenCached, n, attnMaskCache.dtype, positions);
        m := Tensor(SelectRows(attnMaskCache.rows, positions, n), attnMaskCache.dtype);
        assert seqLenCached > 1 ==> attnMaskCache.rows[0][1] == MaskValue(attnMaskCache.dtype);
        if seqLenCached <= 1 {
          NothingMasked(n, positions, MaskValue(attnMaskCache.dtype), if attnMaskCache.dtype == Half then NegInf else Splitfuse);
        }
      }
    }
  }
}
