/** Layout exchanges of `tensor_parallel.py`: matrices as sequences of rows, one matrix per rank. */
module TensorLayout {
  import opened Common
  import opened Indexing
  import opened Sums

  /* ----- Cutting and joining along one dimension ----- */

  ghost predicate AllLength<T>(pieces: seq<seq<T>>, n: nat) {
    forall j :: 0 <= j < |pieces| ==> |pieces[j]| == n
  }

  lemma {:induction false} JoinLength<T>(pieces: seq<seq<T>>, n: nat)
    requires AllLength(pieces, n)
    ensures |Flatten(pieces)| == |pieces| * n
  {
    if pieces != [] {
      var k := |pieces| - 1;
      JoinLength(pieces[..k], n);
      assert (k + 1) * n == k * n + n;
    }
  }

  lemma {:induction false} JoinPrefix<T>(pieces: seq<seq<T>>, n: nat, j: nat)
    requires AllLength(pieces, n) && j < |pieces|
    ensures |Flatten(pieces)| == |pieces| * n && Piece(Flatten(pieces), |pieces|, n, j) == pieces[j]
  {
    var k := |pieces| - 1;
    JoinLength(pieces, n);
    JoinLength(pieces[..k], n);
    if j < k {
      JoinPrefix(pieces[..k], n, j);
      RowInRange(j, k, n);
      SliceOfFront(Flatten(pieces[..k]), pieces[k], j * n, j * n + n);
    }
  }

  lemma SliceOfFront<T>(a: seq<T>, b: seq<T>, lo: nat, hi: nat)
    requires lo <= hi <= |a|
    ensures (a + b)[lo..hi] == a[lo..hi]
  {
  }

  /** Joining equal pieces and cutting again. */
  lemma PiecesOfJoin<T>(pieces: seq<seq<T>>, n: nat)
    requires AllLength(pieces, n)
    ensures |Flatten(pieces)| == |pieces| * n && Pieces(Flatten(pieces), |pieces|, n) == pieces
  {
    JoinLength(pieces, n);
    forall j | 0 <= j < |pieces| ensures Piece(Flatten(pieces), |pieces|, n, j) == pieces[j] {
      JoinPrefix(pieces, n, j);
    }
  }

  /** Cutting into pieces and joining again. */
  lemma {:induction false} JoinOfPieces<T>(s: seq<T>, r: nat, n: nat)
    requires |s| == r * n
    ensures Flatten(Pieces(s, r, n)) == s
  {
    if r > 0 {
      RowInRange(r - 1, r, n);
      var cut := (r - 1) * n;
      JoinOfPieces(s[..cut], r - 1, n);
      FrontPieces(s, r, n, cut);
      assert s == s[..cut] + s[cut..cut + n];
    } else {
      assert Pieces(s, r, n) == [] && s == [];
    }
  }

  lemma FrontPieces<T>(s: seq<T>, r: nat, n: nat, cut: nat)
    requires r > 0 && |s| == r * n && cut == (r - 1) * n <= |s|
    ensures Pieces(s, r, n)[..r - 1] == Pieces(s[..cut], r - 1, n)
  {
    forall j | 0 <= j < r - 1 ensures Piece(s, r, n, j) == Piece(s[..cut], r - 1, n, j) {
      RowInRange(j, r - 1, n);
      assert s == s[..cut] + s[cut..];
      SliceOfFront(s[..cut], s[cut..], j * n, j * n + n);
    }
  }

  /* ----- Matrices ----- */

  type Matrix<T> = seq<seq<T>>

  ghost predicate IsMatrix<T>(m: Matrix<T>, rows: nat, cols: nat) {
    |m| == rows && AllLength(m, cols)
  }

  /** Column block `j` of `r` blocks of `h` columns. */
  function ColBlock<T>(m: Matrix<T>, r: nat, h: nat, j: nat): (b: Matrix<T>)
    requires AllLength(m, r * h) && j < r
    ensures IsMatrix(b, |m|, h) && forall s :: 0 <= s < |m| ==> b[s] == Piece(m[s], r, h, j)
  {
    seq(|m|, s requires 0 <= s < |m| => Piece(m[s], r, h, j))
  }

  /** `torch.split(dim=1)`. */
  function SplitCols<T>(m: Matrix<T>, r: nat, h: nat): (b: seq<Matrix<T>>)
    requires AllLength(m, r * h)
    ensures |b| == r && forall j :: 0 <= j < r ==> b[j] == ColBlock(m, r, h, j)
  {
    seq(r, j requires 0 <= j < r => ColBlock(m, r, h, j))
  }

  /** Row `s` of several matrices. */
  function RowOfAll<T>(ms: seq<Matrix<T>>, s: nat): (p: seq<seq<T>>)
    requires forall j :: 0 <= j < |ms| ==> s < |ms[j]|
    ensures |p| == |ms| && forall j :: 0 <= j < |p| ==> p[j] == ms[j][s]
  {
    seq(|ms|, j requires 0 <= j < |ms| => ms[j][s])
  }

  /** `torch.cat(dim=-1)` of matrices with `rows` rows. */
  function CatCols<T>(ms: seq<Matrix<T>>, rows: nat): (m: Matrix<T>)
    requires forall j :: 0 <= j < |ms| ==> |ms[j]| == rows
    ensures |m| == rows && forall s :: 0 <= s < rows ==> m[s] == Flatten(RowOfAll(ms, s))
  {
    seq(rows, s requires 0 <= s < rows => Flatten(RowOfAll(ms, s)))
  }

  lemma CatOfSplit<T>(m: Matrix<T>, r: nat, h: nat)
    requires AllLength(m, r * h)
    ensures CatCols(SplitCols(m, r, h), |m|) == m
  {
    forall s | 0 <= s < |m| ensures CatCols(SplitCols(m, r, h), |m|)[s] == m[s] {
      assert RowOfAll(SplitCols(m, r, h), s) == Pieces(m[s], r, h);
      JoinOfPieces(m[s], r, h);
    }
  }

  lemma SplitOfCat<T>(ms: seq<Matrix<T>>, rows: nat, h: nat, j: nat)
    requires forall i :: 0 <= i < |ms| ==> |ms[i]| == rows && AllLength(ms[i], h)
    requires j < |ms|
    ensures AllLength(CatCols(ms, rows), |ms| * h)
    ensures ColBlock(CatCols(ms, rows), |ms|, h, j) == ms[j]
  {
    var m := CatCols(ms, rows);
    forall s | 0 <= s < rows ensures |m[s]| == |ms| * h && Piece(m[s], |ms|, h, j) == ms[j][s] {
      var p := RowOfAll(ms, s);
      assert AllLength(p, h);
      PiecesOfJoin(p, h);
      assert Pieces(Flatten(p), |p|, h)[j] == p[j];
    }
  }

  /* ----- Collectives: one matrix per rank in, one per rank out ----- */

  /** What rank `j` receives: piece `j` of every rank's rows, in rank order. */
  function Received<T>(ins: seq<Matrix<T>>, rows: nat, j: nat): (p: seq<Matrix<T>>)
    requires j < |ins| && AllLength(ins, |ins| * rows)
    ensures |p| == |ins| && forall i :: 0 <= i < |p| ==> p[i] == Piece(ins[i], |ins|, rows, j)
  {
    seq(|ins|, i requires 0 <= i < |ins| => Piece(ins[i], |ins|, rows, j))
  }

  /** `all_to_all_single` with equal splits; with one rank it hands the input back. */
  function AllToAll<T>(ins: seq<Matrix<T>>, rows: nat): (outs: seq<Matrix<T>>)
    requires AllLength(ins, |ins| * rows)
    ensures |outs| == |ins| && forall j :: 0 <= j < |ins| ==> outs[j] == Flatten(Received(ins, rows, j))
  {
    seq(|ins|, j requires 0 <= j < |ins| => Flatten(Received(ins, rows, j)))
  }

  lemma ReceivedShape<T>(ins: seq<Matrix<T>>, rows: nat, j: nat)
    requires j < |ins| && AllLength(ins, |ins| * rows)
    ensures AllLength(Received(ins, rows, j), rows)
    ensures |AllToAll(ins, rows)[j]| == |ins| * rows
    ensures Pieces(AllToAll(ins, rows)[j], |ins|, rows) == Received(ins, rows, j)
  {
    PiecesOfJoin(Received(ins, rows, j), rows);
  }

  ghost predicate AreMatrices<T>(ms: seq<Matrix<T>>, rows: nat, cols: nat) {
    forall i :: 0 <= i < |ms| ==> IsMatrix(ms[i], rows, cols)
  }

  /** Each rank's column blocks stacked on top of each other. */
  function Stacked<T>(ins: seq<Matrix<T>>, h: nat): (outs: seq<Matrix<T>>)
    requires forall i :: 0 <= i < |ins| ==> AllLength(ins[i], |ins| * h)
    ensures |outs| == |ins| && forall i :: 0 <= i < |ins| ==> outs[i] == Flatten(SplitCols(ins[i], |ins|, h))
  {
    seq(|ins|, i requires 0 <= i < |ins| => Flatten(SplitCols(ins[i], |ins|, h)))
  }

  lemma StackedPiece<T>(ins: seq<Matrix<T>>, rows: nat, h: nat, i: nat, j: nat)
    requires AreMatrices(ins, rows, |ins| * h) && i < |ins| && j < |ins|
    ensures |Stacked(ins, h)[i]| == |ins| * rows
    ensures Piece(Stacked(ins, h)[i], |ins|, rows, j) == ColBlock(ins[i], |ins|, h, j)
  {
    var blocks := SplitCols(ins[i], |ins|, h);
    assert AllLength(blocks, rows);
    PiecesOfJoin(blocks, rows);
    assert Pieces(Flatten(blocks), |ins|, rows)[j] == blocks[j];
  }

  lemma StackedShape<T>(ins: seq<Matrix<T>>, rows: nat, h: nat)
    requires AreMatrices(ins, rows, |ins| * h)
    ensures AllLength(Stacked(ins, h), |ins| * rows)
  {
    forall i | 0 <= i < |ins| ensures |Stacked(ins, h)[i]| == |ins| * rows {
      StackedPiece(ins, rows, h, i, 0);
    }
  }

  /** `all_to_all_sp2hp`: rows of all ranks, columns of one. */
  function Sp2Hp<T>(ins: seq<Matrix<T>>, rows: nat, h: nat): seq<Matrix<T>>
    requires AreMatrices(ins, rows, |ins| * h)
  {
    StackedShape(ins, rows, h);
    AllToAll(Stacked(ins, h), rows)
  }

  /** `all_to_all_hp2sp`: rows of one rank, columns of all. */
  function Hp2Sp<T>(ins: seq<Matrix<T>>, rows: nat): (outs: seq<Matrix<T>>)
    requires AllLength(ins, |ins| * rows)
    ensures |outs| == |ins| && forall i :: 0 <= i < |ins| ==> outs[i] == CatRank(ins, rows, i)
  {
    seq(|ins|, i requires 0 <= i < |ins| => CatRank(ins, rows, i))
  }

  function CatRank<T>(ins: seq<Matrix<T>>, rows: nat, i: nat): Matrix<T>
    requires AllLength(ins, |ins| * rows) && i < |ins|
  {
    ReceivedShape(ins, rows, i);
    CatCols(Pieces(AllToAll(ins, rows)[i], |ins|, rows), rows)
  }

  /** After the exchange rank `j` holds, rank after rank, everyone's column block `j`. */
  lemma Sp2HpIs<T>(ins: seq<Matrix<T>>, rows: nat, h: nat, i: nat, j: nat)
    requires AreMatrices(ins, rows, |ins| * h) && i < |ins| && j < |ins|
    ensures |Sp2Hp(ins, rows, h)| == |ins| && |Sp2Hp(ins, rows, h)[j]| == |ins| * rows
    ensures Piece(Sp2Hp(ins, rows, h)[j], |ins|, rows, i) == ColBlock(ins[i], |ins|, h, j)
  {
    StackedShape(ins, rows, h);
    ReceivedShape(Stacked(ins, h), rows, j);
    StackedPiece(ins, rows, h, i, j);
    assert Pieces(Sp2Hp(ins, rows, h)[j], |ins|, rows)[i] == Received(Stacked(ins, h), rows, j)[i];
  }

  lemma RowsOnRank<T>(m: Matrix<T>, mid: seq<Matrix<T>>, rows: nat, h: nat, i: nat)
    requires i < |mid| && AllLength(mid, |mid| * rows) && IsMatrix(m, rows, |mid| * h)
    requires forall j :: 0 <= j < |mid| ==> Piece(mid[j], |mid|, rows, i) == ColBlock(m, |mid|, h, j)
    ensures CatRank(mid, rows, i) == m
  {
    ReceivedShape(mid, rows, i);
    assert Received(mid, rows, i) == SplitCols(m, |mid|, h);
    CatOfSplit(m, |mid|, h);
  }

  lemma Sp2HpShape<T>(ins: seq<Matrix<T>>, rows: nat, h: nat)
    requires AreMatrices(ins, rows, |ins| * h)
    ensures AllLength(Sp2Hp(ins, rows, h), |ins| * rows) && |Sp2Hp(ins, rows, h)| == |ins|
  {
    StackedShape(ins, rows, h);
    forall j | 0 <= j < |ins| ensures |Sp2Hp(ins, rows, h)[j]| == |ins| * rows {
      Sp2HpIs(ins, rows, h, j, j);
    }
  }

  /** Rank `i` gets its rows back. */
  lemma RankGetsRows<T>(ins: seq<Matrix<T>>, mid: seq<Matrix<T>>, rows: nat, h: nat, i: nat)
    requires AreMatrices(ins, rows, |ins| * h) && i < |ins|
    requires mid == Sp2Hp(ins, rows, h) && AllLength(mid, |ins| * rows) && |mid| == |ins|
    ensures CatRank(mid, rows, i) == ins[i]
  {
    forall j | 0 <= j < |ins| ensures Piece(mid[j], |ins|, rows, i) == ColBlock(ins[i], |ins|, h, j) {
      Sp2HpIs(ins, rows, h, i, j);
    }
    RowsOnRank(ins[i], mid, rows, h, i);
  }

  /** Back and forth on all ranks jointly: every rank gets its own rows back. */
  lemma Hp2SpUndoesSp2Hp<T>(ins: seq<Matrix<T>>, rows: nat, h: nat)
    requires AreMatrices(ins, rows, |ins| * h)
    ensures AllLength(Sp2Hp(ins, rows, h), |ins| * rows) && |Sp2Hp(ins, rows, h)| == |ins|
    ensures Hp2Sp(Sp2Hp(ins, rows, h), rows) == ins
  {
    Sp2HpShape(ins, rows, h);
    forall i | 0 <= i < |ins| ensures CatRank(Sp2Hp(ins, rows, h), rows, i) == ins[i] {
      RankGetsRows(ins, Sp2Hp(ins, rows, h), rows, h, i);
    }
  }

  /** Rank `i`'s rows after the exchange back: its piece of every rank, side by side. */
  lemma Hp2SpIs<T>(ins: seq<Matrix<T>>, rows: nat, h: nat, i: nat, j: nat)
    requires AreMatrices(ins, |ins| * rows, h) && i < |ins| && j < |ins|
    ensures AllLength(ins, |ins| * rows)
    ensures IsMatrix(Hp2Sp(ins, rows)[i], rows, |ins| * h)
    ensures ColBlock(Hp2Sp(ins, rows)[i], |ins|, h, j) == Piece(ins[j], |ins|, rows, i)
  {
    assert AllLength(ins, |ins| * rows);
    ReceivedShape(ins, rows, i);
    var got := Received(ins, rows, i);
    forall k | 0 <= k < |got| ensures AllLength(got[k], h) {
      forall s | 0 <= s < |got[k]| ensures |got[k][s]| == h {
        RowInRange(i, |ins|, rows);
        assert got[k][s] == ins[k][i * rows + s];
      }
    }
    SplitOfCat(got, rows, h, j);
  }

  lemma Hp2SpShape<T>(ins: seq<Matrix<T>>, rows: nat, h: nat)
    requires AreMatrices(ins, |ins| * rows, h)
    ensures AllLength(ins, |ins| * rows)
    ensures AreMatrices(Hp2Sp(ins, rows), rows, |ins| * h)
  {
    assert AllLength(ins, |ins| * rows);
    forall i | 0 <= i < |ins| ensures IsMatrix(Hp2Sp(ins, rows)[i], rows, |ins| * h) {
      Hp2SpIs(ins, rows, h, i, i);
    }
  }

  lemma BackOnRank<T>(ins: seq<Matrix<T>>, mid: seq<Matrix<T>>, rows: nat, h: nat, j: nat)
    requires |mid| == |ins| && AreMatrices(mid, rows, |ins| * h) && j < |ins| && |ins[j]| == |ins| * rows
    requires forall i :: 0 <= i < |ins| ==> ColBlock(mid[i], |ins|, h, j) == Piece(ins[j], |ins|, rows, i)
    ensures |Sp2Hp(mid, rows, h)| == |ins| && Sp2Hp(mid, rows, h)[j] == ins[j]
  {
    var back := Sp2Hp(mid, rows, h);
    Sp2HpIs(mid, rows, h, j, j);
    forall i | 0 <= i < |ins| ensures Piece(back[j], |ins|, rows, i) == Piece(ins[j], |ins|, rows, i) {
      Sp2HpIs(mid, rows, h, i, j);
    }
    SamePieces(back[j], ins[j], |ins|, rows);
  }

  /** The other way round: every rank gets its own columns back. */
  lemma Sp2HpUndoesHp2Sp<T>(ins: seq<Matrix<T>>, rows: nat, h: nat)
    requires AreMatrices(ins, |ins| * rows, h)
    ensures AllLength(ins, |ins| * rows)
    ensures AreMatrices(Hp2Sp(ins, rows), rows, |ins| * h)
    ensures Sp2Hp(Hp2Sp(ins, rows), rows, h) == ins
  {
    Hp2SpShape(ins, rows, h);
    var mid := Hp2Sp(ins, rows);
    forall j | 0 <= j < |ins| ensures |Sp2Hp(mid, rows, h)| == |ins| && Sp2Hp(mid, rows, h)[j] == ins[j] {
      forall i | 0 <= i < |ins| ensures ColBlock(mid[i], |ins|, h, j) == Piece(ins[j], |ins|, rows, i) {
        Hp2SpIs(ins, rows, h, i, j);
      }
      BackOnRank(ins, mid, rows, h, j);
    }
  }

  lemma SamePieces<T>(a: seq<T>, b: seq<T>, r: nat, n: nat)
    requires |a| == |b| == r * n && forall j :: 0 <= j < r ==> Piece(a, r, n, j) == Piece(b, r, n, j)
    ensures a == b
  {
    assert Pieces(a, r, n) == Pieces(b, r, n);
    JoinOfPieces(a, r, n);
    JoinOfPieces(b, r, n);
  }

  /** Entry by entry: row `i * rows + s` of rank `j` holds rank `i`'s row `s`, in its columns from `j * h`. */
  lemma Sp2HpEntry<T>(ins: seq<Matrix<T>>, rows: nat, h: nat, i: nat, j: nat, s: nat, c: nat)
    requires AreMatrices(ins, rows, |ins| * h) && i < |ins| && j < |ins| && s < rows && c < h
    ensures |Sp2Hp(ins, rows, h)| == |ins| && 0 <= i * rows + s < |Sp2Hp(ins, rows, h)[j]|
    ensures c < |Sp2Hp(ins, rows, h)[j][i * rows + s]| && 0 <= j * h + c < |ins[i][s]|
    ensures Sp2Hp(ins, rows, h)[j][i * rows + s][c] == ins[i][s][j * h + c]
  {
    Sp2HpIs(ins, rows, h, i, j);
    CellInRange(i, s, |ins|, rows);
    CellInRange(j, c, |ins|, h);
    assert Piece(Sp2Hp(ins, rows, h)[j], |ins|, rows, i)[s] == Sp2Hp(ins, rows, h)[j][i * rows + s];
  }

  /** Entry by entry: row `s` of rank `i` holds, in its columns from `j * h`, rank `j`'s row `i * rows + s`. */
  lemma Hp2SpEntry<T>(ins: seq<Matrix<T>>, rows: nat, h: nat, i: nat, j: nat, s: nat, c: nat)
    requires AreMatrices(ins, |ins| * rows, h) && i < |ins| && j < |ins| && s < rows && c < h
    ensures AllLength(ins, |ins| * rows) && s < |Hp2Sp(ins, rows)[i]| && 0 <= j * h + c < |Hp2Sp(ins, rows)[i][s]|
    ensures 0 <= i * rows + s < |ins[j]| && c < |ins[j][i * rows + s]|
    ensures Hp2Sp(ins, rows)[i][s][j * h + c] == ins[j][i * rows + s][c]
  {
    Hp2SpIs(ins, rows, h, i, j);
    CellInRange(i, s, |ins|, rows);
    CellInRange(j, c, |ins|, h);
    assert ColBlock(Hp2Sp(ins, rows)[i], |ins|, h, j)[s] == Piece(ins[j], |ins|, rows, i)[s];
  }

  /* ----- Reduce-scatter and gather along the last dimension ----- */

  /** The entries of all ranks at one place. */
  function Entries(ms: seq<Matrix<real>>, s: nat, c: nat): (v: seq<real>)
    requires forall i :: 0 <= i < |ms| ==> s < |ms[i]| && c < |ms[i][s]|
    ensures |v| == |ms| && forall i :: 0 <= i < |v| ==> v[i] == ms[i][s][c]
  {
    seq(|ms|, i requires 0 <= i < |ms| => ms[i][s][c])
  }

  function SumRow(ms: seq<Matrix<real>>, s: nat, cols: nat): (row: seq<real>)
    requires forall i :: 0 <= i < |ms| ==> s < |ms[i]| && |ms[i][s]| == cols
    ensures |row| == cols && forall c :: 0 <= c < cols ==> row[c] == Sum(Entries(ms, s, c))
  {
    seq(cols, c requires 0 <= c < cols => Sum(Entries(ms, s, c)))
  }

  /** Entry-wise sum of one matrix per rank. */
  function SumAll(ms: seq<Matrix<real>>, rows: nat, cols: nat): (m: Matrix<real>)
    requires AreMatrices(ms, rows, cols)
    ensures IsMatrix(m, rows, cols) && forall s :: 0 <= s < rows ==> m[s] == SumRow(ms, s, cols)
  {
    seq(rows, s requires 0 <= s < rows => SumRow(ms, s, cols))
  }

  /** Column block `j` of every rank. */
  function Blocks(ins: seq<Matrix<real>>, rows: nat, h: nat, j: nat): (b: seq<Matrix<real>>)
    requires AreMatrices(ins, rows, |ins| * h) && j < |ins|
    ensures |b| == |ins| && AreMatrices(b, rows, h)
    ensures forall i :: 0 <= i < |b| ==> b[i] == ColBlock(ins[i], |ins|, h, j)
  {
    seq(|ins|, i requires 0 <= i < |ins| => ColBlock(ins[i], |ins|, h, j))
  }

  /** `_reduce_scatter_along_last_dim` on rank `j`: the stacked blocks are summed and piece `j` is kept. */
  function ReduceScatter(ins: seq<Matrix<real>>, rows: nat, h: nat, j: nat): Matrix<real>
    requires AreMatrices(ins, rows, |ins| * h) && j < |ins|
  {
    StackedShape(ins, rows, h);
    StackedBlocks(ins, rows, h, j);
    SumAll(Received(Stacked(ins, h), rows, j), rows, h)
  }

  lemma StackedBlocks(ins: seq<Matrix<real>>, rows: nat, h: nat, j: nat)
    requires AreMatrices(ins, rows, |ins| * h) && j < |ins|
    ensures AllLength(Stacked(ins, h), |ins| * rows)
    ensures Received(Stacked(ins, h), rows, j) == Blocks(ins, rows, h, j)
  {
    StackedShape(ins, rows, h);
    forall i | 0 <= i < |ins| ensures Received(Stacked(ins, h), rows, j)[i] == Blocks(ins, rows, h, j)[i] {
      StackedPiece(ins, rows, h, i, j);
    }
  }

  lemma SumRowOfBlocks(ins: seq<Matrix<real>>, rows: nat, h: nat, j: nat, s: nat)
    requires AreMatrices(ins, rows, |ins| * h) && j < |ins| && s < rows
    ensures SumRow(Blocks(ins, rows, h, j), s, h) == Piece(SumRow(ins, s, |ins| * h), |ins|, h, j)
  {
    RowInRange(j, |ins|, h);
    var b, all := Blocks(ins, rows, h, j), SumRow(ins, s, |ins| * h);
    forall c | 0 <= c < h ensures Sum(Entries(b, s, c)) == all[j * h + c] {
      BlockEntries(ins, rows, h, j, s, c);
    }
  }

  lemma BlockEntries(ins: seq<Matrix<real>>, rows: nat, h: nat, j: nat, s: nat, c: nat)
    requires AreMatrices(ins, rows, |ins| * h) && j < |ins| && s < rows && c < h
    ensures 0 <= j * h + c < |ins| * h
    ensures Entries(Blocks(ins, rows, h, j), s, c) == Entries(ins, s, j * h + c)
  {
    CellInRange(j, c, |ins|, h);
  }

  /** Summing column blocks is the column block of the sum. */
  lemma SumOfBlocks(ins: seq<Matrix<real>>, rows: nat, h: nat, j: nat)
    requires AreMatrices(ins, rows, |ins| * h) && j < |ins|
    ensures SumAll(Blocks(ins, rows, h, j), rows, h) == ColBlock(SumAll(ins, rows, |ins| * h), |ins|, h, j)
  {
    var b, total := Blocks(ins, rows, h, j), SumAll(ins, rows, |ins| * h);
    forall s | 0 <= s < rows ensures SumRow(b, s, h) == Piece(total[s], |ins|, h, j) {
      SumRowOfBlocks(ins, rows, h, j, s);
    }
  }

  /** Entry by entry: rank `j` keeps the sums over all ranks of the columns from `j * h`. */
  lemma ReduceScatterEntry(ins: seq<Matrix<real>>, rows: nat, h: nat, j: nat, s: nat, c: nat)
    requires AreMatrices(ins, rows, |ins| * h) && j < |ins| && s < rows && c < h
    ensures s < |ReduceScatter(ins, rows, h, j)| && c < |ReduceScatter(ins, rows, h, j)[s]| && 0 <= j * h + c < |ins| * h
    ensures ReduceScatter(ins, rows, h, j)[s][c] == Sum(Entries(ins, s, j * h + c))
  {
    StackedBlocks(ins, rows, h, j);
    CellInRange(j, c, |ins|, h);
    SumOfBlocks(ins, rows, h, j);
    var total := SumAll(ins, rows, |ins| * h);
    assert ReduceScatter(ins, rows, h, j) == ColBlock(total, |ins|, h, j);
    assert ColBlock(total, |ins|, h, j)[s][c] == total[s][j * h + c];
  }

  function Scattered(ins: seq<Matrix<real>>, rows: nat, h: nat): (outs: seq<Matrix<real>>)
    requires AreMatrices(ins, rows, |ins| * h)
    ensures |outs| == |ins| && forall j :: 0 <= j < |ins| ==> outs[j] == ReduceScatter(ins, rows, h, j)
  {
    seq(|ins|, j requires 0 <= j < |ins| => ReduceScatter(ins, rows, h, j))
  }

  /** `_gather_along_last_dim`: the ranks' rows are stacked, cut apart again and put side by side. */
  function GatherLast(ins: seq<Matrix<real>>, rows: nat): Matrix<real>
    requires AllLength(ins, rows)
  {
    PiecesOfJoin(ins, rows);
    CatCols(Pieces(Flatten(ins), |ins|, rows), rows)
  }

  /** Reduce-scatter followed by gather is the sum over all ranks. */
  lemma GatherOfReduceScatter(ins: seq<Matrix<real>>, rows: nat, h: nat)
    requires AreMatrices(ins, rows, |ins| * h)
    ensures AllLength(Scattered(ins, rows, h), rows)
    ensures GatherLast(Scattered(ins, rows, h), rows) == SumAll(ins, rows, |ins| * h)
  {
    var outs, total := Scattered(ins, rows, h), SumAll(ins, rows, |ins| * h);
    forall j | 0 <= j < |ins| ensures outs[j] == SplitCols(total, |ins|, h)[j] {
      StackedBlocks(ins, rows, h, j);
      SumOfBlocks(ins, rows, h, j);
    }
    assert outs == SplitCols(total, |ins|, h);
    PiecesOfJoin(outs, rows);
    CatOfSplit(total, |ins|, h);
  }
}
