/** Effect of a batched transfer on local memory. */
module BlockCopy {
  import opened Common
  import opened Indexing
  import opened Sums
  import opened BlockGroups

  datatype Origin = Untouched | From(remote: int)

  /** Copies `len` bytes of remote memory at `from` to local memory at `to`. */
  datatype Copy = Copy(to: int, from: int, len: int)

  /** The remote address whose byte local address `a` holds after the copies, done in order. */
  function Source(ops: seq<Copy>, a: int): Origin {
    if ops == [] then Untouched
    else
      var op := ops[|ops| - 1];
      if Covers(op, a) then From(op.from + (a - op.to)) else Source(ops[..|ops| - 1], a)
  }

  /** The copy writes local address `a`. */
  predicate Covers(op: Copy, a: int) {
    op.to <= a < op.to + op.len
  }

  /** How many of the copies write local address `a`. */
  function Cover(ops: seq<Copy>, a: int): nat {
    if ops == [] then 0
    else Cover(ops[..|ops| - 1], a) + (if Covers(ops[|ops| - 1], a) then 1 else 0)
  }

  lemma {:induction false} CoverConcat(p: seq<Copy>, q: seq<Copy>, a: int)
    ensures Cover(p + q, a) == Cover(p, a) + Cover(q, a)
  {
    if q == [] {
      assert p + q == p;
    } else {
      CoverConcat(p, q[..|q| - 1], a);
      assert (p + q)[..|p + q| - 1] == p + q[..|q| - 1];
    }
  }

  lemma {:induction false} SourceConcat(p: seq<Copy>, q: seq<Copy>, a: int)
    ensures Source(p + q, a) == if Source(q, a) == Untouched then Source(p, a) else Source(q, a)
  {
    if q == [] {
      assert p + q == p;
    } else {
      SourceConcat(p, q[..|q| - 1], a);
      assert (p + q)[..|p + q| - 1] == p + q[..|q| - 1];
    }
  }

  /** One copy per block. */
  function BlockCopies(remote: seq<int>, local: seq<int>, remoteBase: int, localBase: int, blockLen: nat): seq<Copy>
    requires |remote| == |local|
  {
    if local == [] then []
    else var n := |local| - 1;
         BlockCopies(remote[..n], local[..n], remoteBase, localBase, blockLen)
         + [Copy(localBase + local[n] * blockLen, remoteBase + remote[n] * blockLen, blockLen)]
  }

  /** The copy of a whole group, addressed by its first blocks. */
  function GroupCopy(remote: seq<int>, local: seq<int>, remoteBase: int, localBase: int, blockLen: nat): Copy
    requires remote != [] && local != []
  {
    Copy(localBase + local[0] * blockLen, remoteBase + remote[0] * blockLen, |local| * blockLen)
  }

  lemma {:induction false} ContiguousAt(s: seq<int>, i: nat)
    requires Contiguous(s) && i < |s|
    ensures s[i] == s[0] + i
  {
    if i > 0 { ContiguousAt(s, i - 1); }
  }

  lemma AddressSplit(first: int, n: int, len: int)
    ensures (first + n) * len == first * len + n * len
    ensures (n + 1) * len == n * len + len
  {
  }

  /** A contiguous run copied block by block or in one go reads every byte from the same place. */
  lemma {:induction false} RunAsOne(remote: seq<int>, local: seq<int>, rb: int, lb: int, len: nat, a: int)
    requires |remote| == |local| > 0 && Contiguous(remote) && Contiguous(local)
    ensures Source(BlockCopies(remote, local, rb, lb, len), a) == Source([GroupCopy(remote, local, rb, lb, len)], a)
  {
    var n := |local| - 1;
    ContiguousAt(remote, n);
    ContiguousAt(local, n);
    AddressSplit(local[0], n, len);
    AddressSplit(remote[0], n, len);
    MulNonNegative(n, len);
    if n == 0 {
      assert BlockCopies(remote[..0], local[..0], rb, lb, len) == [];
    } else {
      RunAsOne(remote[..n], local[..n], rb, lb, len, a);
    }
  }

  /** Either way every address is written equally often. */
  lemma {:induction false} RunCover(remote: seq<int>, local: seq<int>, rb: int, lb: int, len: nat, a: int)
    requires |remote| == |local| > 0 && Contiguous(local)
    ensures Cover(BlockCopies(remote, local, rb, lb, len), a) == Cover([GroupCopy(remote, local, rb, lb, len)], a)
  {
    var n := |local| - 1;
    ContiguousAt(local, n);
    AddressSplit(local[0], n, len);
    MulNonNegative(n, len);
    if n == 0 {
      assert BlockCopies(remote[..0], local[..0], rb, lb, len) == [];
    } else {
      RunCover(remote[..n], local[..n], rb, lb, len, a);
    }
  }

  /** Block-by-block copies of a concatenation are the concatenated copies. */
  lemma {:induction false} BlockCopiesConcat(r1: seq<int>, r2: seq<int>, l1: seq<int>, l2: seq<int>, rb: int, lb: int, len: nat)
    requires |r1| == |l1| && |r2| == |l2|
    ensures BlockCopies(r1 + r2, l1 + l2, rb, lb, len) == BlockCopies(r1, l1, rb, lb, len) + BlockCopies(r2, l2, rb, lb, len)
  {
    if l2 == [] {
      assert r1 + r2 == r1 && l1 + l2 == l1;
    } else {
      var n := |l2| - 1;
      BlockCopiesConcat(r1, r2[..n], l1, l2[..n], rb, lb, len);
      assert (r1 + r2)[..|r1| + n] == r1 + r2[..n] && (l1 + l2)[..|l1| + n] == l1 + l2[..n];
    }
  }

  ghost predicate GroupsOk(gr: seq<seq<int>>, gl: seq<seq<int>>) {
    |gr| == |gl| && forall i :: 0 <= i < |gl| ==> |gr[i]| == |gl[i]| > 0 && Contiguous(gr[i]) && Contiguous(gl[i])
  }

  /** One copy per group. */
  function GroupCopies(gr: seq<seq<int>>, gl: seq<seq<int>>, rb: int, lb: int, len: nat): seq<Copy>
    requires |gr| == |gl| && forall i :: 0 <= i < |gl| ==> gr[i] != [] && gl[i] != []
  {
    if gl == [] then []
    else var n := |gl| - 1;
         GroupCopies(gr[..n], gl[..n], rb, lb, len) + [GroupCopy(gr[n], gl[n], rb, lb, len)]
  }

  lemma {:induction false} GroupsAsBlocks(gr: seq<seq<int>>, gl: seq<seq<int>>, rb: int, lb: int, len: nat, a: int)
    requires GroupsOk(gr, gl)
    ensures |Flatten(gr)| == |Flatten(gl)|
    ensures Source(GroupCopies(gr, gl, rb, lb, len), a) == Source(BlockCopies(Flatten(gr), Flatten(gl), rb, lb, len), a)
    ensures Cover(GroupCopies(gr, gl, rb, lb, len), a) == Cover(BlockCopies(Flatten(gr), Flatten(gl), rb, lb, len), a)
  {
    if gl != [] {
      var n := |gl| - 1;
      GroupsAsBlocks(gr[..n], gl[..n], rb, lb, len, a);
      BlockCopiesConcat(Flatten(gr[..n]), gr[n], Flatten(gl[..n]), gl[n], rb, lb, len);
      RunAsOne(gr[n], gl[n], rb, lb, len, a);
      RunCover(gr[n], gl[n], rb, lb, len, a);
      SourceConcat(GroupCopies(gr[..n], gl[..n], rb, lb, len), [GroupCopy(gr[n], gl[n], rb, lb, len)], a);
      SourceConcat(BlockCopies(Flatten(gr[..n]), Flatten(gl[..n]), rb, lb, len), BlockCopies(gr[n], gl[n], rb, lb, len), a);
      CoverConcat(GroupCopies(gr[..n], gl[..n], rb, lb, len), [GroupCopy(gr[n], gl[n], rb, lb, len)], a);
      CoverConcat(BlockCopies(Flatten(gr[..n]), Flatten(gl[..n]), rb, lb, len), BlockCopies(gr[n], gl[n], rb, lb, len), a);
    }
  }

  /* ----- All layers ----- */

  /** Bytes per block: one length, or with MLA two that alternate. */
  datatype Lens = One(len: nat) | Alternating(even: nat, odd: nat)

  /** Bytes per block of layer `k`. */
  function BlockLen(lens: Lens, k: nat): nat {
    match lens
    case One(len) => len
    case Alternating(even, odd) => if k % 2 == 0 then even else odd
  }

  /** Copying every block of every layer one by one. */
  function AllBlockCopies(remote: seq<int>, local: seq<int>, remoteBases: seq<int>, localBases: seq<int>, lens: Lens): seq<Copy>
    requires |remote| == |local| && |remoteBases| == |localBases|
  {
    if localBases == [] then []
    else var k := |localBases| - 1;
         AllBlockCopies(remote, local, remoteBases[..k], localBases[..k], lens)
         + BlockCopies(remote, local, remoteBases[k], localBases[k], BlockLen(lens, k))
  }

  lemma {:induction false} AllBlockCopiesEmpty(remoteBases: seq<int>, localBases: seq<int>, lens: Lens)
    requires |remoteBases| == |localBases|
    ensures AllBlockCopies([], [], remoteBases, localBases, lens) == []
  {
    if localBases != [] {
      var k := |localBases| - 1;
      AllBlockCopiesEmpty(remoteBases[..k], localBases[..k], lens);
    }
  }

  /** The same effect as copying block by block, address by address, and no address written more or less often. */
  ghost predicate SameEffect(p: seq<Copy>, q: seq<Copy>) {
    forall a :: Source(p, a) == Source(q, a) && Cover(p, a) == Cover(q, a)
  }

  lemma AppendEffect(p: seq<Copy>, q: seq<Copy>, p': seq<Copy>, q': seq<Copy>)
    requires SameEffect(p, q) && SameEffect(p', q')
    ensures SameEffect(p + p', q + q')
  {
    forall a ensures Source(p + p', a) == Source(q + q', a) && Cover(p + p', a) == Cover(q + q', a) {
      SourceConcat(p, p', a);
      SourceConcat(q, q', a);
      CoverConcat(p, p', a);
      CoverConcat(q, q', a);
    }
  }

  /** The address lists handed to the transfer engine leave local memory as a block-by-block copy would; and if blocks
      and layers do not overlap, they do so in whatever order the engine takes them. */
  method TransferLists(remote: seq<int>, local: seq<int>, remoteBases: seq<int>, localBases: seq<int>, lens: Lens,
                       ghost numBlocks: nat)
    returns (ops: seq<Copy>)
    requires |remote| == |local| && |remoteBases| == |localBases|
    ensures forall a :: Source(ops, a) == Source(AllBlockCopies(remote, local, remoteBases, localBases, lens), a)
    ensures BlocksApart(local, numBlocks) && LayersApart(localBases, lens, numBlocks) ==>
              OrderFree(ops) && BytesMoved(ops, remote, local, remoteBases, localBases, lens)
  {
    ops := [];
    if local == [] {
      AllBlockCopiesEmpty(remoteBases, localBases, lens);
      WhenApart(ops, remote, local, remoteBases, localBases, lens, numBlocks);
      return;
    }
    var (gr, gl) := Group(remote, local);
    GroupingCorrect(remote, local);
    forall i | 0 <= i < |gl| ensures |gr[i]| == |gl[i]| > 0 && Contiguous(gr[i]) && Contiguous(gl[i]) {
      assert GroupOk(gr, gl, i);
    }
    for k := 0 to |localBases|
      invariant SameEffect(ops, AllBlockCopies(remote, local, remoteBases[..k], localBases[..k], lens))
    {
      var layer := LayerLists(gr, gl, remoteBases[k], localBases[k], BlockLen(lens, k));
      NextLayer(ops, layer, gr, gl, remoteBases, localBases, lens, k);
      ops := ops + layer;
    }
    assert remoteBases[..|localBases|] == remoteBases && localBases[..|localBases|] == localBases;
    WhenApart(ops, remote, local, remoteBases, localBases, lens, numBlocks);
  }

  lemma NextLayer(ops: seq<Copy>, layer: seq<Copy>, gr: seq<seq<int>>, gl: seq<seq<int>>, remoteBases: seq<int>,
                  localBases: seq<int>, lens: Lens, k: nat)
    requires GroupsOk(gr, gl) && |Flatten(gr)| == |Flatten(gl)| && k < |remoteBases| == |localBases|
    requires SameEffect(ops, AllBlockCopies(Flatten(gr), Flatten(gl), remoteBases[..k], localBases[..k], lens))
    requires layer == GroupCopies(gr, gl, remoteBases[k], localBases[k], BlockLen(lens, k))
    ensures SameEffect(ops + layer, AllBlockCopies(Flatten(gr), Flatten(gl), remoteBases[..k + 1], localBases[..k + 1], lens))
  {
    assert remoteBases[..k + 1][..k] == remoteBases[..k] && localBases[..k + 1][..k] == localBases[..k];
    LayerEffect(gr, gl, remoteBases[k], localBases[k], BlockLen(lens, k));
    AppendEffect(ops, AllBlockCopies(Flatten(gr), Flatten(gl), remoteBases[..k], localBases[..k], lens),
                 layer, BlockCopies(Flatten(gr), Flatten(gl), remoteBases[k], localBases[k], BlockLen(lens, k)));
  }

  lemma WhenApart(ops: seq<Copy>, remote: seq<int>, local: seq<int>, remoteBases: seq<int>, localBases: seq<int>,
                  lens: Lens, numBlocks: nat)
    requires |remote| == |local| && |remoteBases| == |localBases|
    requires SameEffect(ops, AllBlockCopies(remote, local, remoteBases, localBases, lens))
    ensures forall a :: Source(ops, a) == Source(AllBlockCopies(remote, local, remoteBases, localBases, lens), a)
    ensures BlocksApart(local, numBlocks) && LayersApart(localBases, lens, numBlocks) ==>
              OrderFree(ops) && BytesMoved(ops, remote, local, remoteBases, localBases, lens)
  {
    if BlocksApart(local, numBlocks) && LayersApart(localBases, lens, numBlocks) {
      ReorderIfApart(ops, remote, local, remoteBases, localBases, lens, numBlocks);
      AllBytes(ops, remote, local, remoteBases, localBases, lens, numBlocks);
    }
  }

  lemma LayerEffect(gr: seq<seq<int>>, gl: seq<seq<int>>, rb: int, lb: int, len: nat)
    requires GroupsOk(gr, gl)
    ensures |Flatten(gr)| == |Flatten(gl)|
    ensures SameEffect(GroupCopies(gr, gl, rb, lb, len), BlockCopies(Flatten(gr), Flatten(gl), rb, lb, len))
  {
    GroupsAsBlocks(gr, gl, rb, lb, len, 0);
    forall a
      ensures Source(GroupCopies(gr, gl, rb, lb, len), a) == Source(BlockCopies(Flatten(gr), Flatten(gl), rb, lb, len), a)
      ensures Cover(GroupCopies(gr, gl, rb, lb, len), a) == Cover(BlockCopies(Flatten(gr), Flatten(gl), rb, lb, len), a)
    {
      GroupsAsBlocks(gr, gl, rb, lb, len, a);
    }
  }

  method LayerLists(gr: seq<seq<int>>, gl: seq<seq<int>>, rb: int, lb: int, len: nat) returns (ops: seq<Copy>)
    requires |gr| == |gl| && forall i :: 0 <= i < |gl| ==> gr[i] != [] && gl[i] != []
    ensures ops == GroupCopies(gr, gl, rb, lb, len)
  {
    ops := [];
    for i := 0 to |gl|
      invariant ops == GroupCopies(gr[..i], gl[..i], rb, lb, len)
    {
      assert gr[..i + 1][..i] == gr[..i] && gl[..i + 1][..i] == gl[..i];
      ops := ops + [Copy(lb + gl[i][0] * len, rb + gr[i][0] * len, |gl[i]| * len)];
    }
    assert gr[..|gl|] == gr && gl[..|gl|] == gl;
  }

  /* ----- Any order ----- */

  /** Whatever order the copies are done in, every local byte comes from the same place. */
  ghost predicate OrderFree(ops: seq<Copy>) {
    forall perm, a :: IsPermutation(perm, |ops|) ==> Source(Gather(ops, perm), a) == Source(ops, a)
  }

  /** The local blocks are distinct blocks of the cache. */
  ghost predicate BlocksApart(local: seq<int>, numBlocks: nat) {
    Distinct(local) && forall i :: 0 <= i < |local| ==> 0 <= local[i] < numBlocks
  }

  /** Address `a` belongs to the cache of layer `k`. */
  ghost predicate InLayer(localBases: seq<int>, lens: Lens, numBlocks: nat, k: nat, a: int)
    requires k < |localBases|
  {
    exists len :: IsLen(lens, k, len) && localBases[k] <= a < localBases[k] + numBlocks * len
  }

  /** A block of layer `k` has `len` bytes: always as many, or in turns with MLA. */
  ghost predicate IsLen(lens: Lens, k: nat, len: nat) {
    && (lens.One? ==> len == lens.len)
    && (lens.Alternating? && k % 2 == 0 ==> len == lens.even)
    && (lens.Alternating? && k % 2 == 1 ==> len == lens.odd)
  }

  lemma LenOfLayer(lens: Lens, k: nat, len: nat)
    ensures IsLen(lens, k, len) <==> len == BlockLen(lens, k)
  {
  }

  /** No address belongs to the caches of two layers. */
  ghost predicate LayersApart(localBases: seq<int>, lens: Lens, numBlocks: nat)
  {
    forall k, l, a :: 0 <= k < l < |localBases| ==>
      !(InLayer(localBases, lens, numBlocks, k, a) && InLayer(localBases, lens, numBlocks, l, a))
  }

  /** An address written by block copies lies in one of the blocks. */
  lemma {:induction false} CoveringBlock(remote: seq<int>, local: seq<int>, rb: int, lb: int, len: nat, a: int) returns (i: nat)
    requires |remote| == |local| && Cover(BlockCopies(remote, local, rb, lb, len), a) > 0
    ensures i < |local| && lb + local[i] * len <= a < lb + local[i] * len + len
  {
    var n := |local| - 1;
    if lb + local[n] * len <= a < lb + local[n] * len + len {
      i := n;
    } else {
      i := CoveringBlock(remote[..n], local[..n], rb, lb, len, a);
    }
  }

  /** Copies of distinct blocks write every address at most once. */
  lemma {:induction false} BlocksCoverOnce(remote: seq<int>, local: seq<int>, rb: int, lb: int, len: nat, a: int)
    requires |remote| == |local| && Distinct(local)
    ensures Cover(BlockCopies(remote, local, rb, lb, len), a) <= 1
  {
    if local != [] {
      var n := |local| - 1;
      BlocksCoverOnce(remote[..n], local[..n], rb, lb, len, a);
      if Cover(BlockCopies(remote[..n], local[..n], rb, lb, len), a) > 0 {
        var i := CoveringBlock(remote[..n], local[..n], rb, lb, len, a);
        SameBlock(local[i], local[n], lb, len, a);
      }
    }
  }

  lemma SameBlock(b: int, c: int, lb: int, len: nat, a: int)
    requires b != c && lb + b * len <= a < lb + b * len + len
    ensures !(lb + c * len <= a < lb + c * len + len)
  {
    if lb + c * len <= a < lb + c * len + len {
      CellUnique(b, a - lb - b * len, c, a - lb - c * len, len);
    }
  }

  lemma BlockInLayer(localBases: seq<int>, lens: Lens, numBlocks: nat, k: nat, b: int, a: int)
    requires k < |localBases| && 0 <= b < numBlocks
    requires var len := BlockLen(lens, k); localBases[k] + b * len <= a < localBases[k] + b * len + len
    ensures InLayer(localBases, lens, numBlocks, k, a)
  {
    RowInRange(b, numBlocks, BlockLen(lens, k));
    LenOfLayer(lens, k, BlockLen(lens, k));
  }

  /** An address written at all lies in some layer. */
  lemma {:induction false} CoveringLayer(remote: seq<int>, local: seq<int>, remoteBases: seq<int>, localBases: seq<int>,
                                         lens: Lens, numBlocks: nat, a: int) returns (k: nat)
    requires |remote| == |local| && |remoteBases| == |localBases| && BlocksApart(local, numBlocks)
    requires Cover(AllBlockCopies(remote, local, remoteBases, localBases, lens), a) > 0
    ensures k < |localBases| && InLayer(localBases, lens, numBlocks, k, a)
    decreases |localBases|
  {
    var n := |localBases| - 1;
    var layer := BlockCopies(remote, local, remoteBases[n], localBases[n], BlockLen(lens, n));
    CoverConcat(AllBlockCopies(remote, local, remoteBases[..n], localBases[..n], lens), layer, a);
    if Cover(layer, a) > 0 {
      var i := CoveringBlock(remote, local, remoteBases[n], localBases[n], BlockLen(lens, n), a);
      BlockInLayer(localBases, lens, numBlocks, n, local[i], a);
      k := n;
    } else {
      k := CoveringLayer(remote, local, remoteBases[..n], localBases[..n], lens, numBlocks, a);
    }
  }

  /** With blocks and layers apart every address is written at most once. */
  lemma {:induction false} CoverOnce(remote: seq<int>, local: seq<int>, remoteBases: seq<int>, localBases: seq<int>,
                                     lens: Lens, numBlocks: nat, a: int)
    requires |remote| == |local| && |remoteBases| == |localBases|
    requires BlocksApart(local, numBlocks) && LayersApart(localBases, lens, numBlocks)
    ensures Cover(AllBlockCopies(remote, local, remoteBases, localBases, lens), a) <= 1
    decreases |localBases|
  {
    if localBases != [] {
      var n := |localBases| - 1;
      var front := AllBlockCopies(remote, local, remoteBases[..n], localBases[..n], lens);
      var layer := BlockCopies(remote, local, remoteBases[n], localBases[n], BlockLen(lens, n));
      FrontApart(localBases, lens, numBlocks);
      CoverOnce(remote, local, remoteBases[..n], localBases[..n], lens, numBlocks, a);
      BlocksCoverOnce(remote, local, remoteBases[n], localBases[n], BlockLen(lens, n), a);
      CoverConcat(front, layer, a);
      if Cover(front, a) > 0 {
        var k := CoveringLayer(remote, local, remoteBases[..n], localBases[..n], lens, numBlocks, a);
        NotInLast(remote, local, remoteBases, localBases, lens, numBlocks, k, a);
      }
    }
  }

  lemma FrontApart(localBases: seq<int>, lens: Lens, numBlocks: nat)
    requires localBases != [] && LayersApart(localBases, lens, numBlocks)
    ensures LayersApart(localBases[..|localBases| - 1], lens, numBlocks)
  {
    var front := localBases[..|localBases| - 1];
    forall k, l, a | 0 <= k < l < |front|
      ensures !(InLayer(front, lens, numBlocks, k, a) && InLayer(front, lens, numBlocks, l, a))
    {
      assert !(InLayer(localBases, lens, numBlocks, k, a) && InLayer(localBases, lens, numBlocks, l, a));
    }
  }

  lemma NotInLast(remote: seq<int>, local: seq<int>, remoteBases: seq<int>, localBases: seq<int>,
                  lens: Lens, numBlocks: nat, k: nat, a: int)
    requires |remote| == |local| && |remoteBases| == |localBases|
    requires BlocksApart(local, numBlocks) && LayersApart(localBases, lens, numBlocks) && k < |localBases| - 1
    requires InLayer(localBases[..|localBases| - 1], lens, numBlocks, k, a)
    ensures var n := |localBases| - 1;
            Cover(BlockCopies(remote, local, remoteBases[n], localBases[n], BlockLen(lens, n)), a) == 0
  {
    var n := |localBases| - 1;
    assert InLayer(localBases, lens, numBlocks, k, a);
    if Cover(BlockCopies(remote, local, remoteBases[n], localBases[n], BlockLen(lens, n)), a) > 0 {
      var i := CoveringBlock(remote, local, remoteBases[n], localBases[n], BlockLen(lens, n), a);
      BlockInLayer(localBases, lens, numBlocks, n, local[i], a);
    }
  }

  /** Two copies writing the same address are counted twice. */
  lemma {:induction false} CoverCounts(ops: seq<Copy>, i: nat, a: int)
    requires i < |ops| && Covers(ops[i], a)
    ensures Cover(ops, a) >= 1
    ensures forall j :: 0 <= j < |ops| && j != i && Covers(ops[j], a) ==> Cover(ops, a) >= 2
  {
    var n := |ops| - 1;
    if i < n {
      CoverCounts(ops[..n], i, a);
      assert forall j :: 0 <= j < n ==> ops[..n][j] == ops[j];
    } else {
      forall j | 0 <= j < n && Covers(ops[j], a) ensures Cover(ops[..n], a) >= 1 {
        CoverCounts(ops[..n], j, a);
      }
    }
  }

  /** An address that only one copy writes holds that copy's byte. */
  lemma {:induction false} SourceOfOnly(ops: seq<Copy>, i: nat, a: int)
    requires i < |ops| && Covers(ops[i], a) && forall j :: 0 <= j < |ops| && j != i ==> !Covers(ops[j], a)
    ensures Source(ops, a) == From(ops[i].from + (a - ops[i].to))
  {
    var n := |ops| - 1;
    if i < n { SourceOfOnly(ops[..n], i, a); }
  }

  lemma {:induction false} SourceOfNone(ops: seq<Copy>, a: int)
    requires forall j :: 0 <= j < |ops| ==> !Covers(ops[j], a)
    ensures Source(ops, a) == Untouched
  {
    if ops != [] { SourceOfNone(ops[..|ops| - 1], a); }
  }

  lemma Reordered(ops: seq<Copy>, perm: seq<int>, a: int)
    requires IsPermutation(perm, |ops|) && Cover(ops, a) <= 1
    ensures Source(Gather(ops, perm), a) == Source(ops, a)
  {
    var r := Gather(ops, perm);
    if i :| 0 <= i < |ops| && Covers(ops[i], a) {
      CoverCounts(ops, i, a);
      SourceOfOnly(ops, i, a);
      var k := PermutationCovers(perm, |ops|, i);
      forall j | 0 <= j < |r| && j != k ensures !Covers(r[j], a) {
        if j < k { assert perm[j] != perm[k]; } else { assert perm[k] != perm[j]; }
      }
      SourceOfOnly(r, k, a);
    } else {
      SourceOfNone(ops, a);
      SourceOfNone(r, a);
    }
  }

  lemma ReorderIfApart(ops: seq<Copy>, remote: seq<int>, local: seq<int>, remoteBases: seq<int>, localBases: seq<int>,
                       lens: Lens, numBlocks: nat)
    requires |remote| == |local| && |remoteBases| == |localBases|
    requires SameEffect(ops, AllBlockCopies(remote, local, remoteBases, localBases, lens))
    ensures BlocksApart(local, numBlocks) && LayersApart(localBases, lens, numBlocks) ==> OrderFree(ops)
  {
    if BlocksApart(local, numBlocks) && LayersApart(localBases, lens, numBlocks) {
      forall perm, a | IsPermutation(perm, |ops|) ensures Source(Gather(ops, perm), a) == Source(ops, a) {
        CoverOnce(remote, local, remoteBases, localBases, lens, numBlocks, a);
        Reordered(ops, perm, a);
      }
    }
  }

  /* ----- Byte by byte ----- */

  /** Address `a` lies in block `i` of layer `k`, whose blocks have `len` bytes. */
  ghost predicate InBlock(local: seq<int>, localBases: seq<int>, lens: Lens, k: nat, i: nat, len: nat, a: int)
    requires k < |localBases| && i < |local|
  {
    IsLen(lens, k, len) && localBases[k] + local[i] * len <= a < localBases[k] + local[i] * len + len
  }

  /** Every byte of every block comes from the same byte of the remote block, and nothing else is touched. */
  ghost predicate BytesMoved(ops: seq<Copy>, remote: seq<int>, local: seq<int>, remoteBases: seq<int>, localBases: seq<int>, lens: Lens)
    requires |remote| == |local| && |remoteBases| == |localBases|
  {
    && (forall k: nat, i: nat, len: nat, a :: k < |localBases| && i < |local| && InBlock(local, localBases, lens, k, i, len, a) ==>
          Source(ops, a) == From(remoteBases[k] + remote[i] * len + (a - (localBases[k] + local[i] * len))))
    && (forall a :: InNoBlock(local, localBases, lens, a) ==> Source(ops, a) == Untouched)
  }

  ghost predicate InNoBlock(local: seq<int>, localBases: seq<int>, lens: Lens, a: int) {
    forall k: nat, i: nat, len: nat :: k < |localBases| && i < |local| ==> !InBlock(local, localBases, lens, k, i, len, a)
  }

  lemma {:induction false} NoCover(ops: seq<Copy>, a: int)
    requires Cover(ops, a) == 0
    ensures Source(ops, a) == Untouched
  {
    if ops != [] { NoCover(ops[..|ops| - 1], a); }
  }

  /** A byte of a distinct block within one layer. */
  lemma {:induction false} BlockByte(remote: seq<int>, local: seq<int>, rb: int, lb: int, len: nat, i: nat, a: int)
    requires |remote| == |local| && Distinct(local) && i < |local| && lb + local[i] * len <= a < lb + local[i] * len + len
    ensures Source(BlockCopies(remote, local, rb, lb, len), a) == From(rb + remote[i] * len + (a - (lb + local[i] * len)))
    decreases |local|
  {
    var n := |local| - 1;
    if i < n {
      SameBlock(local[i], local[n], lb, len, a);
      BlockByte(remote[..n], local[..n], rb, lb, len, i, a);
    }
  }

  /** A byte of a block of one of the layers. */
  lemma {:induction false} LayerByte(remote: seq<int>, local: seq<int>, remoteBases: seq<int>, localBases: seq<int>,
                                     lens: Lens, numBlocks: nat, k: nat, i: nat, a: int)
    requires |remote| == |local| && |remoteBases| == |localBases| && k < |localBases| && i < |local|
    requires BlocksApart(local, numBlocks) && LayersApart(localBases, lens, numBlocks)
    requires var len := BlockLen(lens, k); localBases[k] + local[i] * len <= a < localBases[k] + local[i] * len + len
    ensures var len := BlockLen(lens, k);
            Source(AllBlockCopies(remote, local, remoteBases, localBases, lens), a)
            == From(remoteBases[k] + remote[i] * len + (a - (localBases[k] + local[i] * len)))
    decreases |localBases|
  {
    var n := |localBases| - 1;
    var front := AllBlockCopies(remote, local, remoteBases[..n], localBases[..n], lens);
    var layer := BlockCopies(remote, local, remoteBases[n], localBases[n], BlockLen(lens, n));
    SourceConcat(front, layer, a);
    if k == n {
      BlockByte(remote, local, remoteBases[n], localBases[n], BlockLen(lens, n), i, a);
    } else {
      FrontApart(localBases, lens, numBlocks);
      LayerByte(remote, local, remoteBases[..n], localBases[..n], lens, numBlocks, k, i, a);
      BlockInLayer(localBases[..n], lens, numBlocks, k, local[i], a);
      NotInLast(remote, local, remoteBases, localBases, lens, numBlocks, k, a);
      NoCover(layer, a);
    }
  }

  lemma FrontInNoBlock(local: seq<int>, localBases: seq<int>, lens: Lens, a: int)
    requires localBases != [] && InNoBlock(local, localBases, lens, a)
    ensures InNoBlock(local, localBases[..|localBases| - 1], lens, a)
  {
    var front := localBases[..|localBases| - 1];
    forall k: nat, i: nat, len: nat | k < |front| && i < |local| ensures !InBlock(local, front, lens, k, i, len, a) {
      assert !InBlock(local, localBases, lens, k, i, len, a);
    }
  }

  lemma OutsideLayer(remote: seq<int>, local: seq<int>, rb: int, localBases: seq<int>, lens: Lens, k: nat, a: int)
    requires |remote| == |local| && k < |localBases| && InNoBlock(local, localBases, lens, a)
    ensures Cover(BlockCopies(remote, local, rb, localBases[k], BlockLen(lens, k)), a) == 0
  {
    if Cover(BlockCopies(remote, local, rb, localBases[k], BlockLen(lens, k)), a) > 0 {
      var i := CoveringBlock(remote, local, rb, localBases[k], BlockLen(lens, k), a);
      LenOfLayer(lens, k, BlockLen(lens, k));
      assert InBlock(local, localBases, lens, k, i, BlockLen(lens, k), a);
    }
  }

  /** An address outside all blocks is not written. */
  lemma {:induction false} OutsideByte(remote: seq<int>, local: seq<int>, remoteBases: seq<int>, localBases: seq<int>, lens: Lens, a: int)
    requires |remote| == |local| && |remoteBases| == |localBases| && InNoBlock(local, localBases, lens, a)
    ensures Cover(AllBlockCopies(remote, local, remoteBases, localBases, lens), a) == 0
    decreases |localBases|
  {
    if localBases != [] {
      var n := |localBases| - 1;
      CoverConcat(AllBlockCopies(remote, local, remoteBases[..n], localBases[..n], lens),
                  BlockCopies(remote, local, remoteBases[n], localBases[n], BlockLen(lens, n)), a);
      FrontInNoBlock(local, localBases, lens, a);
      OutsideByte(remote, local, remoteBases[..n], localBases[..n], lens, a);
      OutsideLayer(remote, local, remoteBases[n], localBases, lens, n, a);
    }
  }

  lemma InsideByte(ops: seq<Copy>, remote: seq<int>, local: seq<int>, remoteBases: seq<int>, localBases: seq<int>,
                   lens: Lens, numBlocks: nat, k: nat, i: nat, len: nat, a: int)
    requires |remote| == |local| && |remoteBases| == |localBases|
    requires Source(ops, a) == Source(AllBlockCopies(remote, local, remoteBases, localBases, lens), a)
    requires BlocksApart(local, numBlocks) && LayersApart(localBases, lens, numBlocks)
    requires k < |localBases| && i < |local| && InBlock(local, localBases, lens, k, i, len, a)
    ensures Source(ops, a) == From(remoteBases[k] + remote[i] * len + (a - (localBases[k] + local[i] * len)))
  {
    LenOfLayer(lens, k, len);
    LayerByte(remote, local, remoteBases, localBases, lens, numBlocks, k, i, a);
  }

  lemma AllBytes(ops: seq<Copy>, remote: seq<int>, local: seq<int>, remoteBases: seq<int>, localBases: seq<int>,
                 lens: Lens, numBlocks: nat)
    requires |remote| == |local| && |remoteBases| == |localBases|
    requires SameEffect(ops, AllBlockCopies(remote, local, remoteBases, localBases, lens))
    requires BlocksApart(local, numBlocks) && LayersApart(localBases, lens, numBlocks)
    ensures BytesMoved(ops, remote, local, remoteBases, localBases, lens)
  {
    forall k: nat, i: nat, len: nat, a | k < |localBases| && i < |local| && InBlock(local, localBases, lens, k, i, len, a)
      ensures Source(ops, a) == From(remoteBases[k] + remote[i] * len + (a - (localBases[k] + local[i] * len)))
    {
      InsideByte(ops, remote, local, remoteBases, localBases, lens, numBlocks, k, i, len, a);
    }
    forall a | InNoBlock(local, localBases, lens, a) ensures Source(ops, a) == Untouched {
      OutsideByte(remote, local, remoteBases, localBases, lens, a);
      NoCover(AllBlockCopies(remote, local, remoteBases, localBases, lens), a);
    }
  }
}
