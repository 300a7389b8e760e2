/** `NativeAllGatherCommImpl`: dispatch of tokens to local experts and recombination of their outputs,
    for one component of the hidden state. */
module MoeDispatch {
  import opened Indexing
  import opened Sums
  import opened ExpertSort

  /** Routing of one batch: `topK` experts per token, flattened row by row. */
  datatype Routing = Routing(numTokens: nat, topK: nat, ids: seq<nat>, weights: seq<real>)

  /** A rank's experts: global id to local id, -1 for experts of other ranks. */
  datatype Rank = Rank(expertMap: seq<int>, numExperts: nat)

  ghost predicate RoutingOk(r: Routing, globalExperts: nat) {
    && r.topK > 0 && |r.ids| == |r.weights| == r.numTokens * r.topK
    && forall i :: 0 <= i < |r.ids| ==> r.ids[i] < globalExperts
  }

  ghost predicate RankOk(k: Rank, globalExperts: nat) {
    |k.expertMap| == globalExperts && forall g :: 0 <= g < globalExperts ==> -1 <= k.expertMap[g] < k.numExperts
  }

  function TokenIndices(r: Routing): (t: seq<int>)
    requires r.topK > 0
    ensures |t| == r.numTokens * r.topK
    ensures forall i :: 0 <= i < |t| ==> t[i] == i / r.topK
  {
    seq(r.numTokens * r.topK, i => i / r.topK)
  }

  /** Local expert of every pair; pairs of other ranks get the extra key `numExperts`. */
  function FilteredExperts(r: Routing, k: Rank): (e: seq<int>)
    requires forall i :: 0 <= i < |r.ids| ==> r.ids[i] < |k.expertMap|
    ensures |e| == |r.ids|
    ensures forall i :: 0 <= i < |e| ==>
              e[i] == if k.expertMap[r.ids[i]] != -1 then k.expertMap[r.ids[i]] else k.numExperts
  {
    seq(|r.ids|, i requires 0 <= i < |r.ids| =>
      if k.expertMap[r.ids[i]] != -1 then k.expertMap[r.ids[i]] else k.numExperts)
  }

  function FilteredWeights(r: Routing, k: Rank): (w: seq<real>)
    requires |r.ids| == |r.weights| && forall i :: 0 <= i < |r.ids| ==> r.ids[i] < |k.expertMap|
    ensures |w| == |r.ids|
    ensures forall i :: 0 <= i < |w| ==> w[i] == if k.expertMap[r.ids[i]] != -1 then r.weights[i] else 0.0
  {
    seq(|r.ids|, i requires 0 <= i < |r.ids| => if k.expertMap[r.ids[i]] != -1 then r.weights[i] else 0.0)
  }

  /* ----- Expert computation on the permuted rows ----- */

  /** Rows are cut by the counts and expert `e` works on its own rows; rows past the last cut hold anything. */
  ghost predicate IsGroupedMlp<H>(output: seq<real>, rows: seq<H>, counts: seq<int>, mlp: (int, H) -> real) {
    |output| == |rows| && forall e :: 0 <= e < |counts| ==> ExpertDone(output, rows, counts, mlp, e)
  }

  /** Expert `e` has written its rows. */
  ghost predicate ExpertDone<H>(output: seq<real>, rows: seq<H>, counts: seq<int>, mlp: (int, H) -> real, e: nat)
    requires e < |counts| && |output| == |rows|
  {
    forall s :: 0 <= s < |rows| && SumInt(counts[..e]) <= s < SumInt(counts[..e + 1]) ==> output[s] == mlp(e, rows[s])
  }

  /** Weighted expert output of pair `i`, zero when the expert lives elsewhere. */
  ghost function PairTerms<H>(r: Routing, k: Rank, hidden: seq<H>, mlp: (int, H) -> real): (v: seq<real>)
    requires r.topK > 0 && |r.ids| == |r.weights| == r.numTokens * r.topK && |hidden| == r.numTokens
    requires forall i :: 0 <= i < |r.ids| ==> r.ids[i] < |k.expertMap|
    ensures |v| == |r.ids|
    ensures forall i :: 0 <= i < |v| ==> v[i] == PairTerm(r, k, hidden, mlp, i)
  {
    seq(|r.ids|, i requires 0 <= i < |r.ids| => PairTerm(r, k, hidden, mlp, i))
  }

  ghost function PairTerm<H>(r: Routing, k: Rank, hidden: seq<H>, mlp: (int, H) -> real, i: nat): real
    requires r.topK > 0 && i < |r.ids| == |r.weights| == r.numTokens * r.topK && |hidden| == r.numTokens
    requires r.ids[i] < |k.expertMap|
  {
    DivInRange(i, r.numTokens, r.topK);
    var e := k.expertMap[r.ids[i]];
    if e != -1 then mlp(e, hidden[i / r.topK]) * r.weights[i] else 0.0
  }

  /** What the dispatch keeps for the combine step. */
  datatype Dispatch<H> = Dispatch(rows: seq<H>, counts: seq<int>, tokens: seq<int>, weights: seq<real>)

  /** Pairs sorted by local expert: their tokens, rows and weights, and how many each expert gets. */
  ghost predicate IsDispatch<H>(r: Routing, k: Rank, hidden: seq<H>, order: seq<int>, d: Dispatch<H>)
    requires r.topK > 0 && |r.ids| == |r.weights| == r.numTokens * r.topK
    requires forall i :: 0 <= i < |r.ids| ==> r.ids[i] < |k.expertMap|
    requires IsPermutation(order, |r.ids|)
  {
    && d.tokens == Gather(TokenIndices(r), order) && d.weights == Gather(FilteredWeights(r, k), order)
    && |d.rows| == |order|
    && (forall s :: 0 <= s < |order| ==> 0 <= d.tokens[s] < |hidden| && d.rows[s] == hidden[d.tokens[s]])
    && |d.counts| == k.numExperts
    && (forall e :: 0 <= e < k.numExperts ==> d.counts[e] == Count(FilteredExperts(r, k), e))
  }

  method PreProcess<H>(r: Routing, k: Rank, hidden: seq<H>, order: seq<int>, globalExperts: nat) returns (d: Dispatch<H>)
    requires RoutingOk(r, globalExperts) && RankOk(k, globalExperts) && |hidden| == r.numTokens
    requires IsSortOrder(FilteredExperts(r, k), order)
    ensures IsDispatch(r, k, hidden, order, d)
  {
    var tokens := Gather(TokenIndices(r), order);
    forall s | 0 <= s < |order| ensures 0 <= tokens[s] < |hidden| {
      DivInRange(order[s], r.numTokens, r.topK);
    }
    var counts := CountExperts(FilteredExperts(r, k), k.numExperts);
    d := Dispatch(Gather(hidden, tokens), counts, tokens, Gather(FilteredWeights(r, k), order));
  }

  function Scaled(output: seq<real>, weights: seq<real>): (v: seq<real>)
    requires |output| == |weights|
    ensures |v| == |output| && forall s :: 0 <= s < |v| ==> v[s] == output[s] * weights[s]
  {
    seq(|output|, s requires 0 <= s < |output| => output[s] * weights[s])
  }

  /** `index_add_`: every weighted output row is added to its token. */
  method PostProcess(output: seq<real>, tokens: seq<int>, weights: seq<real>, numTokens: nat) returns (final: seq<real>)
    requires |output| == |tokens| == |weights| && forall s :: 0 <= s < |tokens| ==> 0 <= tokens[s] < numTokens
    ensures |final| == numTokens && forall t :: 0 <= t < numTokens ==> final[t] == TagTotal(Scaled(output, weights), tokens, t)
  {
    var v := Scaled(output, weights);
    final := seq(numTokens, _ => 0.0);
    for s := 0 to |v|
      invariant |final| == numTokens
      invariant forall t :: 0 <= t < numTokens ==> final[t] == TagTotal(v[..s], tokens[..s], t)
    {
      forall t | 0 <= t < numTokens
        ensures TagTotal(v[..s + 1], tokens[..s + 1], t) == TagTotal(v[..s], tokens[..s], t) + (if tokens[s] == t then v[s] else 0.0)
      {
        assert Tagged(v[..s + 1], tokens[..s + 1], t)[..s] == Tagged(v[..s], tokens[..s], t);
      }
      final := final[tokens[s] := final[tokens[s]] + v[s]];
    }
    assert v[..|v|] == v && tokens[..|v|] == tokens;
  }

  /* ----- Dispatch, experts and combine together ----- */

  /** Every weighted output row is the term of the pair it came from, whatever the rows past the cuts hold. */
  lemma OutputIsTerm<H>(r: Routing, k: Rank, hidden: seq<H>, order: seq<int>, d: Dispatch<H>, output: seq<real>,
                        mlp: (int, H) -> real, globalExperts: nat, s: nat)
    requires RoutingOk(r, globalExperts) && RankOk(k, globalExperts) && |hidden| == r.numTokens
    requires IsSortOrder(FilteredExperts(r, k), order) && IsDispatch(r, k, hidden, order, d)
    requires IsGroupedMlp(output, d.rows, d.counts, mlp) && s < |order|
    ensures output[s] * d.weights[s] == PairTerm(r, k, hidden, mlp, order[s])
  {
    var i := order[s];
    var e := k.expertMap[r.ids[i]];
    if e != -1 {
      SegmentsAreExperts(FilteredExperts(r, k), order, d.counts, e, s);
      assert ExpertDone(output, d.rows, d.counts, mlp, e);
    }
  }

  lemma RowOfToken(r: Routing, t: nat, i: nat)
    requires r.topK > 0 && t < r.numTokens && i < r.numTokens * r.topK
    ensures 0 <= t * r.topK <= t * r.topK + r.topK <= r.numTokens * r.topK
    ensures i / r.topK == t <==> t * r.topK <= i < t * r.topK + r.topK
  {
    RowInRange(t, r.numTokens, r.topK);
    DivModFacts(i, r.topK);
    if t * r.topK <= i < t * r.topK + r.topK {
      CellDivMod(t, i - t * r.topK, r.topK);
    }
  }

  /** The terms of one token are its row of the flattened pairs. */
  lemma TokenTotal(r: Routing, v: seq<real>, t: nat, lo: nat)
    requires r.topK > 0 && |v| == r.numTokens * r.topK && t < r.numTokens && lo == t * r.topK
    ensures lo + r.topK <= |v|
    ensures TagTotal(v, TokenIndices(r), t) == Sum(v[lo..lo + r.topK])
  {
    var tokens := TokenIndices(r);
    RowInRange(t, r.numTokens, r.topK);
    var items: seq<int> := seq(r.topK, j => lo + j);
    forall i | 0 <= i < |v| ensures tokens[i] == t <==> i in items {
      RowOfToken(r, t, i);
      if lo <= i < lo + r.topK { assert items[i - lo] == i; }
    }
    TagTotalByListing(v, tokens, t, items);
    assert Gather(v, items) == v[lo..lo + r.topK];
  }

  /** One rank's result: each token gets the weighted sum over its experts on this rank. */
  lemma RankResult<H>(r: Routing, k: Rank, hidden: seq<H>, order: seq<int>, d: Dispatch<H>, output: seq<real>,
                      mlp: (int, H) -> real, globalExperts: nat, t: nat)
    requires RoutingOk(r, globalExperts) && RankOk(k, globalExperts) && |hidden| == r.numTokens && t < r.numTokens
    requires IsSortOrder(FilteredExperts(r, k), order) && IsDispatch(r, k, hidden, order, d)
    requires IsGroupedMlp(output, d.rows, d.counts, mlp)
    ensures 0 <= t * r.topK <= t * r.topK + r.topK <= |r.ids|
    ensures TagTotal(Scaled(output, d.weights), d.tokens, t)
         == Sum(PairTerms(r, k, hidden, mlp)[t * r.topK..t * r.topK + r.topK])
  {
    var v := PairTerms(r, k, hidden, mlp);
    var scaled := Scaled(output, d.weights);
    forall s | 0 <= s < |order| ensures scaled[s] == Gather(v, order)[s] {
      OutputIsTerm(r, k, hidden, order, d, output, mlp, globalExperts, s);
    }
    assert scaled == Gather(v, order);
    TagTotalGather(v, TokenIndices(r), order, t);
    RowInRange(t, r.numTokens, r.topK);
    TokenTotal(r, v, t, t * r.topK);
  }

  /* ----- All ranks ----- */

  /** Column `j` of a matrix given by rows. */
  ghost function Column(rows: seq<seq<real>>, j: nat): (c: seq<real>)
    requires forall r :: 0 <= r < |rows| ==> j < |rows[r]|
    ensures |c| == |rows| && forall r :: 0 <= r < |c| ==> c[r] == rows[r][j]
  {
    seq(|rows|, r requires 0 <= r < |rows| => rows[r][j])
  }

  ghost function RowTotals(rows: seq<seq<real>>): (c: seq<real>)
    ensures |c| == |rows| && forall r :: 0 <= r < |c| ==> c[r] == Sum(rows[r])
  {
    seq(|rows|, r requires 0 <= r < |rows| => Sum(rows[r]))
  }

  ghost function ColumnTotals(rows: seq<seq<real>>, n: nat): (c: seq<real>)
    requires forall r :: 0 <= r < |rows| ==> |rows[r]| == n
    ensures |c| == n && forall j :: 0 <= j < n ==> c[j] == Sum(Column(rows, j))
  {
    seq(n, j requires 0 <= j < n => Sum(Column(rows, j)))
  }

  ghost function Front(rows: seq<seq<real>>, n: nat): (c: seq<seq<real>>)
    requires forall r :: 0 <= r < |rows| ==> |rows[r]| == n + 1
    ensures |c| == |rows| && forall r :: 0 <= r < |c| ==> c[r] == rows[r][..n]
  {
    seq(|rows|, r requires 0 <= r < |rows| => rows[r][..n])
  }

  /** Summing a matrix by rows or by columns. */
  lemma {:induction false} SumExchange(rows: seq<seq<real>>, n: nat)
    requires forall r :: 0 <= r < |rows| ==> |rows[r]| == n
    ensures Sum(RowTotals(rows)) == Sum(ColumnTotals(rows, n))
    decreases n
  {
    if n == 0 {
      forall r | 0 <= r < |rows| ensures Sum(rows[r]) == 0.0 { assert rows[r] == []; }
      SumConstant(RowTotals(rows), 0.0);
    } else {
      var front := Front(rows, n - 1);
      SumExchange(front, n - 1);
      SumPointwiseAdd(RowTotals(front), Column(rows, n - 1), RowTotals(rows));
      FrontColumns(rows, n - 1);
    }
  }

  lemma FrontColumns(rows: seq<seq<real>>, n: nat)
    requires forall r :: 0 <= r < |rows| ==> |rows[r]| == n + 1
    ensures ColumnTotals(rows, n + 1)[..n] == ColumnTotals(Front(rows, n), n)
  {
    forall j | 0 <= j < n ensures Column(Front(rows, n), j) == Column(rows, j) {}
  }

  lemma SingleTerm(c: seq<real>, o: nat, x: real)
    requires o < |c| && forall r :: 0 <= r < |c| ==> c[r] == if r == o then x else 0.0
    ensures Sum(c) == x
  {
    SumUpdate(c, o, 0.0);
    SumConstant(c[o := 0.0], 0.0);
  }

  /** `owner[g]` is the one rank that holds expert `g`, and its local copy computes what `dense` prescribes. */
  ghost predicate RanksPartition<H>(ranks: seq<Rank>, mlps: seq<(int, H) -> real>, owner: seq<nat>,
                                    dense: (int, H) -> real, hidden: seq<H>, globalExperts: nat) {
    && |ranks| == |mlps| && |owner| == globalExperts
    && (forall q :: 0 <= q < |ranks| ==> RankOk(ranks[q], globalExperts))
    && (forall g :: 0 <= g < globalExperts ==> owner[g] < |ranks|)
    && (forall g, q :: 0 <= g < globalExperts && 0 <= q < |ranks| ==> (ranks[q].expertMap[g] != -1 <==> owner[g] == q))
    && (forall g, t :: 0 <= g < globalExperts && 0 <= t < |hidden| ==>
          mlps[owner[g]](ranks[owner[g]].expertMap[g], hidden[t]) == dense(g, hidden[t]))
  }

  ghost function DenseTerms<H>(r: Routing, hidden: seq<H>, dense: (int, H) -> real, t: nat): (v: seq<real>)
    requires |r.ids| == |r.weights| == r.numTokens * r.topK && t < r.numTokens == |hidden|
    ensures |v| == r.topK
    ensures 0 <= t * r.topK <= t * r.topK + r.topK <= |r.ids|
    ensures forall j :: 0 <= j < r.topK ==> v[j] == dense(r.ids[t * r.topK + j], hidden[t]) * r.weights[t * r.topK + j]
  {
    RowInRange(t, r.numTokens, r.topK);
    seq(r.topK, j requires 0 <= j < r.topK => dense(r.ids[t * r.topK + j], hidden[t]) * r.weights[t * r.topK + j])
  }

  /** The terms of token `t` on rank `q`. */
  ghost function RankTerms<H>(r: Routing, k: Rank, hidden: seq<H>, mlp: (int, H) -> real, t: nat): (v: seq<real>)
    requires r.topK > 0 && |r.ids| == |r.weights| == r.numTokens * r.topK && t < r.numTokens == |hidden|
    requires forall i :: 0 <= i < |r.ids| ==> r.ids[i] < |k.expertMap|
    ensures |v| == r.topK
    ensures 0 <= t * r.topK <= t * r.topK + r.topK <= |r.ids|
    ensures forall j :: 0 <= j < r.topK ==> v[j] == PairTerm(r, k, hidden, mlp, t * r.topK + j)
  {
    RowInRange(t, r.numTokens, r.topK);
    PairTerms(r, k, hidden, mlp)[t * r.topK..t * r.topK + r.topK]
  }

  ghost function AllTerms<H>(r: Routing, ranks: seq<Rank>, hidden: seq<H>, mlps: seq<(int, H) -> real>, t: nat): (m: seq<seq<real>>)
    requires r.topK > 0 && |r.ids| == |r.weights| == r.numTokens * r.topK && t < r.numTokens == |hidden|
    requires |ranks| == |mlps|
    requires forall q, i :: 0 <= q < |ranks| && 0 <= i < |r.ids| ==> r.ids[i] < |ranks[q].expertMap|
    ensures |m| == |ranks| && forall q :: 0 <= q < |m| ==> m[q] == RankTerms(r, ranks[q], hidden, mlps[q], t)
  {
    seq(|ranks|, q requires 0 <= q < |ranks| => RankTerms(r, ranks[q], hidden, mlps[q], t))
  }

  /** On the owner a pair contributes its dense term, on every other rank nothing. */
  lemma OwnerTerm<H>(r: Routing, ranks: seq<Rank>, mlps: seq<(int, H) -> real>, owner: seq<nat>,
                     dense: (int, H) -> real, hidden: seq<H>, globalExperts: nat, t: nat, j: nat, q: nat)
    requires RoutingOk(r, globalExperts) && |hidden| == r.numTokens && t < r.numTokens && j < r.topK
    requires RanksPartition(ranks, mlps, owner, dense, hidden, globalExperts) && q < |ranks|
    ensures 0 <= t * r.topK + j < |r.ids|
    ensures RankTerms(r, ranks[q], hidden, mlps[q], t)[j]
         == if owner[r.ids[t * r.topK + j]] == q then DenseTerms(r, hidden, dense, t)[j] else 0.0
  {
    CellInRange(t, j, r.numTokens, r.topK);
    CellDivMod(t, j, r.topK);
    var g := r.ids[t * r.topK + j];
    assert ranks[q].expertMap[g] != -1 <==> owner[g] == q;
    assert mlps[owner[g]](ranks[owner[g]].expertMap[g], hidden[t]) == dense(g, hidden[t]);
  }

  lemma ColumnIsDense<H>(r: Routing, ranks: seq<Rank>, mlps: seq<(int, H) -> real>, owner: seq<nat>,
                         dense: (int, H) -> real, hidden: seq<H>, globalExperts: nat, t: nat, j: nat)
    requires RoutingOk(r, globalExperts) && |hidden| == r.numTokens && t < r.numTokens && j < r.topK
    requires RanksPartition(ranks, mlps, owner, dense, hidden, globalExperts)
    ensures Sum(Column(AllTerms(r, ranks, hidden, mlps, t), j)) == DenseTerms(r, hidden, dense, t)[j]
  {
    var c := Column(AllTerms(r, ranks, hidden, mlps, t), j);
    CellInRange(t, j, r.numTokens, r.topK);
    var o := owner[r.ids[t * r.topK + j]];
    forall q | 0 <= q < |ranks| ensures c[q] == if q == o then DenseTerms(r, hidden, dense, t)[j] else 0.0 {
      OwnerTerm(r, ranks, mlps, owner, dense, hidden, globalExperts, t, j, q);
    }
    SingleTerm(c, o, DenseTerms(r, hidden, dense, t)[j]);
  }

  /** Summing the ranks' results gives each token its dense mixture of experts. */
  lemma RanksSumToDense<H>(r: Routing, ranks: seq<Rank>, mlps: seq<(int, H) -> real>, owner: seq<nat>,
                           dense: (int, H) -> real, hidden: seq<H>, globalExperts: nat, t: nat)
    requires RoutingOk(r, globalExperts) && |hidden| == r.numTokens && t < r.numTokens
    requires RanksPartition(ranks, mlps, owner, dense, hidden, globalExperts)
    ensures Sum(RowTotals(AllTerms(r, ranks, hidden, mlps, t))) == Sum(DenseTerms(r, hidden, dense, t))
  {
    var m := AllTerms(r, ranks, hidden, mlps, t);
    SumExchange(m, r.topK);
    forall j | 0 <= j < r.topK ensures ColumnTotals(m, r.topK)[j] == DenseTerms(r, hidden, dense, t)[j] {
      ColumnIsDense(r, ranks, mlps, owner, dense, hidden, globalExperts, t, j);
    }
    assert ColumnTotals(m, r.topK) == DenseTerms(r, hidden, dense, t);
  }

  /* ----- The ranks' own steps, end to end ----- */

  /** `final` adds every weighted output row to its token. */
  ghost predicate IsCombined(output: seq<real>, tokens: seq<int>, weights: seq<real>, numTokens: nat, final: seq<real>) {
    && |output| == |tokens| == |weights| && |final| == numTokens
    && forall t :: 0 <= t < numTokens ==> final[t] == TagTotal(Scaled(output, weights), tokens, t)
  }

  /** What happened on one rank: sort order, dispatch, expert outputs and combined result. */
  datatype Pass<H> = Pass(order: seq<int>, d: Dispatch<H>, output: seq<real>, final: seq<real>)

  ghost predicate IsPass<H>(r: Routing, k: Rank, hidden: seq<H>, mlp: (int, H) -> real, globalExperts: nat, p: Pass<H>)
    requires RoutingOk(r, globalExperts) && RankOk(k, globalExperts)
  {
    && IsSortOrder(FilteredExperts(r, k), p.order)
    && IsDispatch(r, k, hidden, p.order, p.d)
    && IsGroupedMlp(p.output, p.d.rows, p.d.counts, mlp)
    && IsCombined(p.output, p.d.tokens, p.d.weights, r.numTokens, p.final)
  }

  /** A rank's combined result is the sum of its terms. */
  lemma PassResult<H>(r: Routing, k: Rank, hidden: seq<H>, mlp: (int, H) -> real, globalExperts: nat, p: Pass<H>, t: nat)
    requires RoutingOk(r, globalExperts) && RankOk(k, globalExperts) && |hidden| == r.numTokens && t < r.numTokens
    requires IsPass(r, k, hidden, mlp, globalExperts, p)
    ensures p.final[t] == Sum(RankTerms(r, k, hidden, mlp, t))
  {
    RankResult(r, k, hidden, p.order, p.d, p.output, mlp, globalExperts, t);
    assert RankTerms(r, k, hidden, mlp, t) == PairTerms(r, k, hidden, mlp)[t * r.topK..t * r.topK + r.topK];
  }

  /** The results of all ranks for token `t`. */
  ghost function Finals<H>(passes: seq<Pass<H>>, t: nat): (v: seq<real>)
    requires forall q :: 0 <= q < |passes| ==> t < |passes[q].final|
    ensures |v| == |passes| && forall q :: 0 <= q < |v| ==> v[q] == passes[q].final[t]
  {
    seq(|passes|, q requires 0 <= q < |passes| => passes[q].final[t])
  }

  ghost predicate ArePasses<H>(r: Routing, ranks: seq<Rank>, hidden: seq<H>, mlps: seq<(int, H) -> real>,
                               globalExperts: nat, passes: seq<Pass<H>>)
    requires RoutingOk(r, globalExperts) && forall q :: 0 <= q < |ranks| ==> RankOk(ranks[q], globalExperts)
  {
    |ranks| == |mlps| == |passes| &&
    forall q :: 0 <= q < |ranks| ==> IsPass(r, ranks[q], hidden, mlps[q], globalExperts, passes[q])
  }

  /** What the ranks write, summed over ranks, is the dense mixture of experts: for any sort orders and whatever
      the expert outputs hold past the valid rows. */
  lemma CombinedIsDense<H>(r: Routing, ranks: seq<Rank>, mlps: seq<(int, H) -> real>, owner: seq<nat>,
                           dense: (int, H) -> real, hidden: seq<H>, globalExperts: nat, passes: seq<Pass<H>>, t: nat)
    requires RoutingOk(r, globalExperts) && |hidden| == r.numTokens && t < r.numTokens
    requires RanksPartition(ranks, mlps, owner, dense, hidden, globalExperts)
    requires ArePasses(r, ranks, hidden, mlps, globalExperts, passes)
    ensures forall q :: 0 <= q < |passes| ==> t < |passes[q].final|
    ensures Sum(Finals(passes, t)) == Sum(DenseTerms(r, hidden, dense, t))
  {
    var terms := AllTerms(r, ranks, hidden, mlps, t);
    forall q | 0 <= q < |passes| ensures t < |passes[q].final| && passes[q].final[t] == RowTotals(terms)[q] {
      PassResult(r, ranks[q], hidden, mlps[q], globalExperts, passes[q], t);
    }
    assert Finals(passes, t) == RowTotals(terms);
    RanksSumToDense(r, ranks, mlps, owner, dense, hidden, globalExperts, t);
  }

  lemma {:induction false} CutsAscend(counts: seq<int>, a: nat, b: nat)
    requires a <= b <= |counts| && forall e :: 0 <= e < |counts| ==> counts[e] >= 0
    ensures SumInt(counts[..a]) <= SumInt(counts[..b])
    decreases b
  {
    if a < b {
      CutsAscend(counts, a, b - 1);
      assert counts[..b][..b - 1] == counts[..b - 1];
    }
  }

  /** The grouped expert computation, over a buffer that holds anything. */
  method GroupedMlp<H>(rows: seq<H>, counts: seq<int>, mlp: (int, H) -> real, buffer: seq<real>) returns (output: seq<real>)
    requires |buffer| == |rows| && SumInt(counts) <= |rows| && forall e :: 0 <= e < |counts| ==> counts[e] >= 0
    ensures IsGroupedMlp(output, rows, counts, mlp)
    ensures forall s :: 0 <= s < |rows| && SumInt(counts) <= s ==> output[s] == buffer[s]
  {
    output := buffer;
    var from := 0;
    assert counts[..|counts|] == counts;
    for e := 0 to |counts|
      invariant |output| == |rows| && from == SumInt(counts[..e]) && 0 <= from
      invariant forall x :: 0 <= x < e ==> ExpertDone(output, rows, counts, mlp, x)
      invariant forall s :: from <= s < |rows| ==> output[s] == buffer[s]
    {
      assert counts[..e + 1][..e] == counts[..e];
      CutsAscend(counts, e + 1, |counts|);
      var to := from + counts[e];
      ghost var before := output;
      for s := from to to
        invariant |output| == |rows|
        invariant forall i :: 0 <= i < from || s <= i < |rows| ==> output[i] == before[i]
        invariant forall i :: from <= i < s ==> output[i] == mlp(e, rows[i])
      {
        output := output[s := mlp(e, rows[s])];
      }
      forall x | 0 <= x < e ensures ExpertDone(output, rows, counts, mlp, x) {
        CutsAscend(counts, x + 1, e);
        assert ExpertDone(before, rows, counts, mlp, x);
      }
      from := to;
    }
  }

  lemma CountsFit<H>(r: Routing, k: Rank, hidden: seq<H>, order: seq<int>, d: Dispatch<H>, globalExperts: nat)
    requires RoutingOk(r, globalExperts) && RankOk(k, globalExperts)
    requires IsSortOrder(FilteredExperts(r, k), order) && IsDispatch(r, k, hidden, order, d)
    ensures SumInt(d.counts) <= |d.rows| && forall e :: 0 <= e < |d.counts| ==> d.counts[e] >= 0
  {
    var keys := FilteredExperts(r, k);
    OffsetIsCountBelow(keys, d.counts, |d.counts|);
    CountBelowBound(keys, |d.counts|);
    assert d.counts[..|d.counts|] == d.counts;
  }

  /** One rank: dispatch in the order that sorts the ids read as floats, experts, combine. */
  method RankForward<H>(r: Routing, k: Rank, hidden: seq<H>, order: seq<int>, mlp: (int, H) -> real, buffer: seq<real>,
                        globalExperts: nat)
    returns (final: seq<real>, ghost p: Pass<H>)
    requires RoutingOk(r, globalExperts) && RankOk(k, globalExperts) && |hidden| == r.numTokens
    requires SortsFloats(FilteredExperts(r, k), order) && |buffer| == |r.ids|
    ensures IsPass(r, k, hidden, mlp, globalExperts, p) && p.final == final
    ensures |final| == r.numTokens && forall t :: 0 <= t < r.numTokens ==> final[t] == Sum(RankTerms(r, k, hidden, mlp, t))
  {
    SortedThroughFloats(FilteredExperts(r, k), order);
    var d := PreProcess(r, k, hidden, order, globalExperts);
    CountsFit(r, k, hidden, order, d, globalExperts);
    var output := GroupedMlp(d.rows, d.counts, mlp, buffer);
    final := PostProcess(output, d.tokens, d.weights, r.numTokens);
    p := Pass(order, d, output, final);
    forall t | 0 <= t < r.numTokens ensures final[t] == Sum(RankTerms(r, k, hidden, mlp, t)) {
      PassResult(r, k, hidden, mlp, globalExperts, p, t);
    }
  }

  function Added(a: seq<real>, b: seq<real>): (c: seq<real>)
    requires |a| == |b|
    ensures |c| == |a| && forall t :: 0 <= t < |c| ==> c[t] == a[t] + b[t]
  {
    seq(|a|, t requires 0 <= t < |a| => a[t] + b[t])
  }

  /** `total` is the token-wise sum of the passes' results. */
  ghost predicate IsTotal<H>(total: seq<real>, passes: seq<Pass<H>>, n: nat) {
    && |total| == n && (forall q :: 0 <= q < |passes| ==> |passes[q].final| == n)
    && forall t :: 0 <= t < n ==> total[t] == Sum(Finals(passes, t))
  }

  lemma AddPass<H>(total: seq<real>, passes: seq<Pass<H>>, p: Pass<H>, n: nat)
    requires IsTotal(total, passes, n) && |p.final| == n
    ensures IsTotal(Added(total, p.final), passes + [p], n)
  {
    forall t | 0 <= t < n ensures Sum(Finals(passes + [p], t)) == total[t] + p.final[t] {
      assert Finals(passes + [p], t)[..|passes|] == Finals(passes, t);
    }
  }

  /** All ranks and the sum of their results: the dense mixture of experts. */
  method AllRanksForward<H>(r: Routing, ranks: seq<Rank>, hidden: seq<H>, orders: seq<seq<int>>,
                            mlps: seq<(int, H) -> real>, buffers: seq<seq<real>>, globalExperts: nat,
                            ghost owner: seq<nat>, ghost dense: (int, H) -> real)
    returns (total: seq<real>)
    requires RoutingOk(r, globalExperts) && |hidden| == r.numTokens
    requires RanksPartition(ranks, mlps, owner, dense, hidden, globalExperts)
    requires |orders| == |buffers| == |ranks|
    requires forall q :: 0 <= q < |ranks| ==> SortsFloats(FilteredExperts(r, ranks[q]), orders[q]) && |buffers[q]| == |r.ids|
    ensures |total| == r.numTokens
    ensures forall t :: 0 <= t < r.numTokens ==> total[t] == Sum(DenseTerms(r, hidden, dense, t))
  {
    total := seq(r.numTokens, _ => 0.0);
    ghost var passes: seq<Pass<H>> := [];
    for q := 0 to |ranks|
      invariant |passes| == q && forall i :: 0 <= i < q ==> IsPass(r, ranks[i], hidden, mlps[i], globalExperts, passes[i])
      invariant IsTotal(total, passes, r.numTokens)
    {
      var final; ghost var p;
      final, p := RankForward(r, ranks[q], hidden, orders[q], mlps[q], buffers[q], globalExperts);
      AddPass(total, passes, p, r.numTokens);
      total := Added(total, final);
      passes := passes + [p];
    }
    forall t | 0 <= t < r.numTokens ensures total[t] == Sum(DenseTerms(r, hidden, dense, t)) {
      CombinedIsDense(r, ranks, mlps, owner, dense, hidden, globalExperts, passes, t);
    }
  }
}
