/** `deepseek_deploy`: experts per GPU and the load each GPU carries after rebalancing. */
module Deploy {
  import opened Common
  import opened Indexing
  import opened Sums
  import opened Packing
  import opened Replication
  import opened Rebalance
  import opened ExpertMaps

  /* ----- Redistributed load ----- */

  /** The entries of a row that name a slot. */
  function NamedSlots(row: seq<int>): seq<int> {
    if row == [] then []
    else NamedSlots(row[..|row| - 1]) + (if row[|row| - 1] != -1 then [row[|row| - 1]] else [])
  }

  lemma {:induction false} NamedSlotsPrefix(row: seq<int>, c: nat)
    requires c <= |row|
    requires forall r :: 0 <= r < |row| ==> (row[r] == -1 <==> r >= c)
    ensures NamedSlots(row) == row[..c]
  {
    if row != [] {
      var n := |row| - 1;
      if c <= n {
        NamedSlotsPrefix(row[..n], c);
        assert row[..n][..c] == row[..c];
      } else {
        NamedSlotsPrefix(row[..n], n);
        assert row[..c] == row[..n] + [row[n]];
      }
    }
  }

  lemma {:induction false} TimesIsProduct(n: nat, x: real)
    ensures Times(n, x) == n as real * x
  {
    if n > 0 {
      TimesIsProduct(n - 1, x);
      var m := (n - 1) as real;
      assert n as real == m + 1.0;
      assert (m + 1.0) * x == m * x + x;
    }
  }

  lemma SharesAddUp(w: real, c: nat)
    requires c >= 1
    ensures Times(c, Share(w, c)) == w
  {
    TimesIsProduct(c, Share(w, c));
  }

  /** Load of slot `p` once the experts before `e`, and `j` replicas of `e`, are accounted for. */
  ghost function LoadSoFar(w: seq<real>, phy2log: seq<int>, rank: seq<int>, cnt: seq<int>, e: int, j: int, p: int): real
    requires 0 <= p < |phy2log| == |rank| && 0 <= phy2log[p] < |w| == |cnt| && cnt[phy2log[p]] >= 1
  {
    var x := phy2log[p];
    if x < e || (x == e && rank[p] < j) then Share(w[x], cnt[x]) else 0.0
  }

  ghost predicate SpreadSoFar(opt: seq<real>, w: seq<real>, phy2log: seq<int>, rank: seq<int>, cnt: seq<int>, e: int, j: int)
    requires |w| == |cnt| && IsReplicaMap(phy2log, rank, cnt) && forall i :: 0 <= i < |cnt| ==> cnt[i] >= 1
  {
    |opt| == |rank| && forall p :: 0 <= p < |rank| ==> opt[p] == LoadSoFar(w, phy2log, rank, cnt, e, j, p)
  }

  lemma SpreadStep(opt: seq<real>, w: seq<real>, phy2log: seq<int>, rank: seq<int>, cnt: seq<int>,
                   e: nat, j: nat, p: nat)
    requires |w| == |cnt| && IsReplicaMap(phy2log, rank, cnt) && forall i :: 0 <= i < |cnt| ==> cnt[i] >= 1
    requires SpreadSoFar(opt, w, phy2log, rank, cnt, e, j)
    requires p < |rank| && phy2log[p] == e && rank[p] == j
    ensures SpreadSoFar(opt[p := opt[p] + Share(w[e], cnt[e])], w, phy2log, rank, cnt, e, j + 1)
    ensures Sum(opt[p := opt[p] + Share(w[e], cnt[e])]) == Sum(opt) + Share(w[e], cnt[e])
  {
    SumUpdate(opt, p, opt[p] + Share(w[e], cnt[e]));
    forall q | 0 <= q < |rank| && q != p
      ensures LoadSoFar(w, phy2log, rank, cnt, e, j + 1, q) == LoadSoFar(w, phy2log, rank, cnt, e, j, q)
    {
      if p < q {} else {}
    }
  }

  method SpreadExpert(opt: seq<real>, w: seq<real>, e: nat, row: seq<int>,
                      ghost phy2log: seq<int>, ghost rank: seq<int>, ghost cnt: seq<int>, ghost width: nat,
                      ghost rows: seq<seq<int>>)
    returns (r: seq<real>)
    requires |w| == |cnt| && IsReplicaMap(phy2log, rank, cnt) && forall i :: 0 <= i < |cnt| ==> cnt[i] >= 1
    requires IsInverseMap(phy2log, rank, cnt, rows, width)
    requires e < |w| && row == rows[e]
    requires SpreadSoFar(opt, w, phy2log, rank, cnt, e, 0)
    ensures SpreadSoFar(r, w, phy2log, rank, cnt, e + 1, 0)
    ensures Sum(r) == Sum(opt) + w[e]
  {
    NamedSlotsPrefix(row, cnt[e]);
    assert forall j :: 0 <= j < cnt[e] ==> row[j] == rows[e][j] != -1;
    r := SpreadOver(opt, w, e, NamedSlots(row), phy2log, rank, cnt);
    AllSpread(r, w, phy2log, rank, cnt, e);
    SharesAddUp(w[e], cnt[e]);
  }

  /** `slots` lists the replicas of one expert by rank. */
  ghost predicate AreSlotsOf(e: int, slots: seq<int>, phy2log: seq<int>, rank: seq<int>)
    requires |phy2log| == |rank|
  {
    forall j :: 0 <= j < |slots| ==> 0 <= slots[j] < |rank| && phy2log[slots[j]] == e && rank[slots[j]] == j
  }

  method SpreadOver(opt: seq<real>, w: seq<real>, e: nat, slots: seq<int>,
                    ghost phy2log: seq<int>, ghost rank: seq<int>, ghost cnt: seq<int>)
    returns (r: seq<real>)
    requires |w| == |cnt| && IsReplicaMap(phy2log, rank, cnt) && forall i :: 0 <= i < |cnt| ==> cnt[i] >= 1
    requires e < |w| && |slots| == cnt[e] && AreSlotsOf(e, slots, phy2log, rank)
    requires SpreadSoFar(opt, w, phy2log, rank, cnt, e, 0)
    ensures SpreadSoFar(r, w, phy2log, rank, cnt, e, cnt[e])
    ensures Sum(r) == Sum(opt) + Times(cnt[e], Share(w[e], cnt[e]))
  {
    r := opt;
    for j := 0 to |slots|
      invariant SpreadSoFar(r, w, phy2log, rank, cnt, e, j)
      invariant Sum(r) == Sum(opt) + Times(j, Share(w[e], cnt[e]))
    {
      SpreadStep(r, w, phy2log, rank, cnt, e, j, slots[j]);
      r := r[slots[j] := r[slots[j]] + w[e] / |slots| as real];
    }
  }

  lemma AllSpread(opt: seq<real>, w: seq<real>, phy2log: seq<int>, rank: seq<int>, cnt: seq<int>, e: nat)
    requires |w| == |cnt| && IsReplicaMap(phy2log, rank, cnt) && forall i :: 0 <= i < |cnt| ==> cnt[i] >= 1
    requires e < |w| && SpreadSoFar(opt, w, phy2log, rank, cnt, e, cnt[e])
    ensures SpreadSoFar(opt, w, phy2log, rank, cnt, e + 1, 0)
  {
  }

  /** Every slot gets its replica's share and nothing of the workload is lost or added. */
  method Redistribute(w: seq<real>, numSlots: nat, rows: seq<seq<int>>,
                      ghost phy2log: seq<int>, ghost rank: seq<int>, ghost cnt: seq<int>, ghost width: nat)
    returns (opt: seq<real>)
    requires |w| == |cnt| && IsReplicaMap(phy2log, rank, cnt) && forall i :: 0 <= i < |cnt| ==> cnt[i] >= 1
    requires IsInverseMap(phy2log, rank, cnt, rows, width) && numSlots == |rank|
    ensures opt == Loads(w, phy2log, cnt)
    ensures Sum(opt) == Sum(w)
  {
    opt := seq(numSlots, _ => 0.0);
    SumConstant(opt, 0.0);
    for e := 0 to |w|
      invariant SpreadSoFar(opt, w, phy2log, rank, cnt, e, 0)
      invariant Sum(opt) == Sum(w[..e])
    {
      opt := SpreadExpert(opt, w, e, rows[e], phy2log, rank, cnt, width, rows);
      assert w[..e + 1][..e] == w[..e];
    }
    assert w[..|w|] == w;
  }

  /* ----- Load per GPU ----- */

  /** Loads of all GPUs, `perGpu` consecutive slots each. */
  function RowSums(loads: seq<real>, gpus: nat, perGpu: nat): (r: seq<real>)
    requires |loads| == gpus * perGpu
    ensures |r| == gpus
    ensures forall g :: 0 <= g < gpus ==> r[g] == RowSum(loads, gpus, perGpu, g)
  {
    seq(gpus, g requires 0 <= g < gpus => RowSum(loads, gpus, perGpu, g))
  }

  function RowSum(loads: seq<real>, gpus: nat, perGpu: nat, g: nat): (r: real)
    requires |loads| == gpus * perGpu && g < gpus
    ensures 0 <= g * perGpu <= g * perGpu + perGpu <= |loads|
    ensures r == GpuLoad(loads, g, perGpu)
  {
    RowInRange(g, gpus, perGpu);
    Sum(loads[g * perGpu..g * perGpu + perGpu])
  }

  lemma SumLast(s: seq<real>, front: seq<real>, last: real)
    requires |s| > 0 && s[..|s| - 1] == front && s[|s| - 1] == last
    ensures Sum(s) == Sum(front) + last
  {
  }

  lemma FrontRowSums(loads: seq<real>, gpus: nat, perGpu: nat, cut: nat)
    requires gpus > 0 && |loads| == gpus * perGpu && cut == (gpus - 1) * perGpu <= |loads|
    ensures RowSums(loads, gpus, perGpu)[..gpus - 1] == RowSums(loads[..cut], gpus - 1, perGpu)
  {
    forall g | 0 <= g < gpus - 1
      ensures RowSum(loads, gpus, perGpu, g) == RowSum(loads[..cut], gpus - 1, perGpu, g)
    {
      RowInRange(g, gpus - 1, perGpu);
      SliceOfSlice(loads, 0, cut, g * perGpu, perGpu);
    }
  }

  /** The GPUs together carry all of the load. */
  lemma {:induction false} RowSumsTotal(loads: seq<real>, gpus: nat, perGpu: nat)
    requires |loads| == gpus * perGpu
    ensures Sum(RowSums(loads, gpus, perGpu)) == Sum(loads)
  {
    if gpus > 0 {
      var n := gpus - 1;
      RowInRange(n, gpus, perGpu);
      var cut := n * perGpu;
      var front, back := loads[..cut], loads[cut..cut + perGpu];
      RowSumsTotal(front, n, perGpu);
      assert loads == front + back;
      SumConcat(front, back);
      FrontRowSums(loads, gpus, perGpu, cut);
      SumLast(RowSums(loads, gpus, perGpu), RowSums(front, n, perGpu), Sum(back));
    } else {
      assert RowSums(loads, gpus, perGpu) == [] && loads == [];
    }
  }

  lemma {:induction false} SumAtLeast(s: seq<real>, v: real)
    requires forall i :: 0 <= i < |s| ==> s[i] >= v
    ensures Sum(s) >= Times(|s|, v)
  {
    if s != [] { SumAtLeast(s[..|s| - 1], v); }
  }

  lemma {:induction false} SumAtMost(s: seq<real>, v: real)
    requires forall i :: 0 <= i < |s| ==> s[i] <= v
    ensures Sum(s) <= Times(|s|, v)
  {
    if s != [] { SumAtMost(s[..|s| - 1], v); }
  }

  method MaxOf(s: seq<real>) returns (m: real)
    requires |s| > 0
    ensures m in s && forall i :: 0 <= i < |s| ==> s[i] <= m
  {
    m := s[0];
    for i := 1 to |s|
      invariant m in s && forall j :: 0 <= j < i ==> s[j] <= m
    {
      if s[i] > m { m := s[i]; }
    }
  }

  lemma ScaleStrict(a: real, b: real, k: real)
    requires a < b && k > 0.0
    ensures a * k < b * k
  {
  }

  lemma ShareBound(total: real, n: nat, v: real)
    requires n >= 1
    ensures total <= Times(n, v) ==> Share(total, n) <= v
    ensures total >= Times(n, v) ==> Share(total, n) >= v
  {
    TimesIsProduct(n, v);
    var k, mean := n as real, Share(total, n);
    assert mean * k == total;
    if mean > v {
      ScaleStrict(v, mean, k);
    } else if mean < v {
      ScaleStrict(mean, v, k);
    }
  }

  /** GPUs are numbered node by node, so a node's own balance is a statement about global GPU numbers. */
  lemma GpuOfNode(loads: seq<real>, nodes: nat, gpusPerNode: nat, perGpu: nat, nd: nat, a: nat)
    requires |loads| == nodes * (gpusPerNode * perGpu) && nd < nodes && a < gpusPerNode
    ensures 0 <= nd * gpusPerNode + a < nodes * gpusPerNode
    ensures |loads| == nodes * gpusPerNode * perGpu
    ensures 0 <= a * perGpu <= a * perGpu + perGpu <= gpusPerNode * perGpu
    ensures RowSum(loads, nodes * gpusPerNode, perGpu, nd * gpusPerNode + a)
         == GpuLoad(Piece(loads, nodes, gpusPerNode * perGpu, nd), a, perGpu)
  {
    CellInRange(nd, a, nodes, gpusPerNode);
    NestedCell(nodes, 0, 0, gpusPerNode, perGpu);
    NestedCell(nd, a, 0, gpusPerNode, perGpu);
    RowInRange(a, gpusPerNode, perGpu);
    RowInRange(nd, nodes, gpusPerNode * perGpu);
    SliceOfSlice(loads, nd * (gpusPerNode * perGpu), gpusPerNode * perGpu, a * perGpu, perGpu);
  }

  lemma SliceOfSlice(s: seq<real>, from: nat, len: nat, off: nat, n: nat)
    requires from + len <= |s| && off + n <= len
    ensures s[from..from + len][off..off + n] == s[from + off..from + off + n]
  {
    var a, b := s[from..from + len][off..off + n], s[from + off..from + off + n];
    assert |a| == |b|;
    assert forall i :: 0 <= i < n ==> a[i] == b[i];
  }

  /** Two GPUs of one node differ in load by at most the node's heaviest minus its lightest replica. */
  lemma NodeGpusClose(loads: seq<real>, nodes: nat, gpusPerNode: nat, perGpu: nat,
                      nd: nat, a: nat, c: nat, lo: real, hi: real)
    requires |loads| == nodes * (gpusPerNode * perGpu) && NodesBalanced(loads, nodes, gpusPerNode, perGpu)
    requires nd < nodes && a < gpusPerNode && c < gpusPerNode
    requires lo <= hi && Bounds(Piece(loads, nodes, gpusPerNode * perGpu, nd), lo, hi)
    ensures |loads| == nodes * gpusPerNode * perGpu
    ensures 0 <= nd * gpusPerNode + a < nodes * gpusPerNode && 0 <= nd * gpusPerNode + c < nodes * gpusPerNode
    ensures RowSum(loads, nodes * gpusPerNode, perGpu, nd * gpusPerNode + a)
          - RowSum(loads, nodes * gpusPerNode, perGpu, nd * gpusPerNode + c) <= hi - lo
  {
    GpuOfNode(loads, nodes, gpusPerNode, perGpu, nd, a);
    GpuOfNode(loads, nodes, gpusPerNode, perGpu, nd, c);
    var own := Piece(loads, nodes, gpusPerNode * perGpu, nd);
    assert own == loads[nd * (gpusPerNode * perGpu)..nd * (gpusPerNode * perGpu) + gpusPerNode * perGpu];
    assert GpusBalanced(own, gpusPerNode, perGpu);
  }

  /** What is reported for one layer. */
  datatype LayerReport = LayerReport(experts: seq<seq<int>>, originalMax: real, balancedMax: real, average: real)

  /** Experts of every GPU: its own stretch of the slot map. */
  method LocalExperts(phy2log: seq<int>, gpus: nat, perGpu: nat) returns (r: seq<seq<int>>)
    requires |phy2log| == gpus * perGpu
    ensures r == Pieces(phy2log, gpus, perGpu)
  {
    r := [];
    for g := 0 to gpus
      invariant |r| == g && forall i :: 0 <= i < g ==> r[i] == Piece(phy2log, gpus, perGpu, i)
    {
      RowInRange(g, gpus, perGpu);
      r := r + [phy2log[g * perGpu..(g + 1) * perGpu]];
    }
  }

  /** The report of a layer is about the load that rebalancing leaves on every GPU. */
  ghost predicate ReportHolds(r: LayerReport, w: seq<real>, loads: seq<real>, phy2log: seq<int>, gpus: nat, perGpu: nat)
    requires gpus > 0 && |phy2log| == |loads| == gpus * perGpu
  {
    && r.experts == Pieces(phy2log, gpus, perGpu)
    && Sum(loads) == Sum(w)
    && r.average == Share(Sum(w), gpus)
    && IsHeaviest(w, gpus, |w| / gpus, r.originalMax)
    && IsHeaviest(loads, gpus, perGpu, r.balancedMax)
  }

  /** `m` is the load of some GPU, no GPU has more, and it is no less than the mean. */
  ghost predicate IsHeaviest(loads: seq<real>, gpus: nat, perGpu: int, m: real)
    requires gpus > 0
  {
    && perGpu >= 0 && |loads| == gpus * perGpu && m in RowSums(loads, gpus, perGpu)
    && (forall g :: 0 <= g < gpus ==> RowSums(loads, gpus, perGpu)[g] <= m)
    && Share(Sum(loads), gpus) <= m
  }

  /* ----- How far the heaviest GPU can be from the mean ----- */

  /** A GPU's load exceeds its node's mean by at most the node's replica spread. */
  lemma GpuNearMean(own: seq<real>, gpus: nat, perGpu: nat, a: nat, lo: real, hi: real)
    requires |own| == gpus * perGpu && a < gpus && GpusBalanced(own, gpus, perGpu)
    requires lo <= hi && Bounds(own, lo, hi)
    ensures RowSum(own, gpus, perGpu, a) <= Share(Sum(own), gpus) + (hi - lo)
  {
    var sums, least := RowSums(own, gpus, perGpu), RowSum(own, gpus, perGpu, a) - (hi - lo);
    forall i | 0 <= i < gpus ensures sums[i] >= least {
      RowInRange(i, gpus, perGpu);
    }
    RowSumsTotal(own, gpus, perGpu);
    SumAtLeast(sums, least);
    ShareBound(Sum(own), gpus, least);
  }

  /** Loads of any two nodes differ by at most `delta`. */
  ghost predicate NodesDiffer(loads: seq<real>, nodes: nat, slots: nat, delta: real)
    requires |loads| == nodes * slots
  {
    forall a, c :: 0 <= a < nodes && 0 <= c < nodes ==>
      NodeTotal(loads, nodes, slots, a) - NodeTotal(loads, nodes, slots, c) <= delta
  }

  lemma NodeNearMean(loads: seq<real>, nodes: nat, slots: nat, nd: nat, delta: real)
    requires |loads| == nodes * slots && nd < nodes && NodesDiffer(loads, nodes, slots, delta)
    ensures NodeTotal(loads, nodes, slots, nd) <= Share(Sum(loads), nodes) + delta
  {
    var sums, least := RowSums(loads, nodes, slots), NodeTotal(loads, nodes, slots, nd) - delta;
    forall i | 0 <= i < nodes ensures sums[i] >= least {
      assert sums[i] == NodeTotal(loads, nodes, slots, i);
    }
    RowSumsTotal(loads, nodes, slots);
    SumAtLeast(sums, least);
    ShareBound(Sum(loads), nodes, least);
  }

  lemma ShareMonotone(x: real, y: real, g: nat)
    requires x <= y && g >= 1
    ensures Share(x, g) <= Share(y, g)
  {
    var k := g as real;
    assert Share(x, g) * k == x && Share(y, g) * k == y;
    if Share(x, g) > Share(y, g) { ScaleStrict(Share(y, g), Share(x, g), k); }
  }

  lemma SharesNest(total: real, delta: real, n: nat, g: nat)
    requires n >= 1 && g >= 1 && n * g >= 1
    ensures Share(Share(total, n) + delta, g) == Share(total, n * g) + Share(delta, g)
  {
    var x, y := n as real, g as real;
    assert (n * g) as real == x * y;
    assert total / x / y == total / (x * y);
  }

  /** The heaviest GPU of all is within the mean plus an even part of the node difference plus the replica spread. */
  lemma HeaviestNearMean(loads: seq<real>, nodes: nat, gpusPerNode: nat, perGpu: nat, g: nat,
                         delta: real, lo: real, hi: real)
    requires gpusPerNode > 0 && |loads| == nodes * (gpusPerNode * perGpu) == nodes * gpusPerNode * perGpu
    requires NodesBalanced(loads, nodes, gpusPerNode, perGpu) && NodesDiffer(loads, nodes, gpusPerNode * perGpu, delta)
    requires lo <= hi && Bounds(loads, lo, hi) && g < nodes * gpusPerNode
    ensures RowSum(loads, nodes * gpusPerNode, perGpu, g)
         <= Share(Sum(loads), nodes * gpusPerNode) + Share(delta, gpusPerNode) + (hi - lo)
  {
    var slots, nd, a := gpusPerNode * perGpu, g / gpusPerNode, g % gpusPerNode;
    DivInRange(g, nodes, gpusPerNode);
    DivModFacts(g, gpusPerNode);
    GpuOfNode(loads, nodes, gpusPerNode, perGpu, nd, a);
    OwnBalanced(loads, nodes, gpusPerNode, perGpu, nd);
    var own := Piece(loads, nodes, slots, nd);
    GpuNearMean(own, gpusPerNode, perGpu, a, lo, hi);
    NodeNearMean(loads, nodes, slots, nd, delta);
    ShareMonotone(NodeTotal(loads, nodes, slots, nd), Share(Sum(loads), nodes) + delta, gpusPerNode);
    SharesNest(Sum(loads), delta, nodes, gpusPerNode);
  }

  lemma OwnBalanced(loads: seq<real>, nodes: nat, gpusPerNode: nat, perGpu: nat, nd: nat)
    requires |loads| == nodes * (gpusPerNode * perGpu) && NodesBalanced(loads, nodes, gpusPerNode, perGpu) && nd < nodes
    ensures GpusBalanced(Piece(loads, nodes, gpusPerNode * perGpu, nd), gpusPerNode, perGpu)
  {
    var slots := gpusPerNode * perGpu;
    assert Piece(loads, nodes, slots, nd) == loads[nd * slots..nd * slots + slots];
  }

  /** Heaviest GPU of a layout, together with the fact that it is no lighter than the mean. */
  method HeaviestGpu(loads: seq<real>, gpus: nat, perGpu: nat) returns (m: real)
    requires gpus > 0 && |loads| == gpus * perGpu
    ensures IsHeaviest(loads, gpus, perGpu, m)
  {
    var sums := RowSums(loads, gpus, perGpu);
    m := MaxOf(sums);
    RowSumsTotal(loads, gpus, perGpu);
    SumAtMost(sums, m);
    ShareBound(Sum(sums), gpus, m);
  }

  method Report(w: seq<real>, opt: seq<real>, gpus: nat, perGpu: nat, phy2log: seq<int>) returns (r: LayerReport)
    requires gpus > 0 && |w| % gpus == 0 && |phy2log| == |opt| == gpus * perGpu
    requires Sum(opt) == Sum(w)
    ensures ReportHolds(r, w, opt, phy2log, gpus, perGpu)
  {
    var experts := LocalExperts(phy2log, gpus, perGpu);
    DivModFacts(|w|, gpus);
    var originalMax := HeaviestGpu(w, gpus, |w| / gpus);
    var balancedMax := HeaviestGpu(opt, gpus, perGpu);
    r := LayerReport(experts, originalMax, balancedMax, Sum(w) / gpus as real);
  }

  /** What reporting a layer rests on. */
  ghost predicate ReadyToReport(w: seq<real>, d: Dims, phy2log: seq<int>, rank: seq<int>, cnt: seq<int>,
                                rows: seq<seq<int>>, width: nat, gpus: nat) {
    && gpus > 0 && |w| % gpus == 0 && |w| == |cnt| && |phy2log| == gpus * d.perGpu
    && IsReplicaMap(phy2log, rank, cnt) && (forall e :: 0 <= e < |cnt| ==> cnt[e] >= 1)
    && IsInverseMap(phy2log, rank, cnt, rows, width)
  }

  lemma LayerMapIsReady(w: seq<real>, d: Dims, phy2log: seq<int>, rank: seq<int>, cnt: seq<int>,
                        rows: seq<seq<int>>, width: nat, gpus: nat)
    requires gpus > 0 && |w| % gpus == 0 && d.nodes * d.gpusPerNode == gpus
    requires IsLayerMap(w, d, phy2log, rank, cnt, rows, width)
    ensures ReadyToReport(w, d, phy2log, rank, cnt, rows, width, gpus)
  {
    NestedCell(d.nodes, 0, 0, d.gpusPerNode, d.perGpu);
  }

  /** Everything promised for a layer: the placement, what the report says of it, and how far the reported maximum
      can be from the mean. */
  ghost predicate LayerDeployed(r: LayerReport, w: seq<real>, phy2log: seq<int>, cnt: seq<int>, groups: nat, size: nat,
                                nodes: nat, gpusPerNode: nat, perGpu: nat, gpus: nat) {
    && (exists rank :: IsReplicaMap(phy2log, rank, cnt))
    && PlacedOn(w, phy2log, cnt, groups, size, nodes, gpusPerNode, perGpu)
    && Reported(r, w, phy2log, cnt, gpus, perGpu)
    && MaximumNearMean(r, w, Loads(w, phy2log, cnt), groups, size, gpusPerNode)
  }

  /** With groups between `least` and `most` and replicas between `lo` and `hi`. */
  ghost predicate MaximumNearMean(r: LayerReport, w: seq<real>, loads: seq<real>, groups: nat, size: nat, gpusPerNode: nat) {
    && gpusPerNode > 0 && |w| == groups * size
    && forall least, most, lo, hi :: least <= most && Bounds(GroupTokens(w, groups, size), least, most)
                                     && lo <= hi && Bounds(loads, lo, hi) ==>
         r.balancedMax <= r.average + Share(most - least, gpusPerNode) + (hi - lo)
  }

  ghost predicate Reported(r: LayerReport, w: seq<real>, phy2log: seq<int>, cnt: seq<int>, gpus: nat, perGpu: nat) {
    && gpus > 0 && |w| == |cnt| && (forall e :: 0 <= e < |cnt| ==> cnt[e] >= 1)
    && (forall p :: 0 <= p < |phy2log| ==> 0 <= phy2log[p] < |w|)
    && |phy2log| == gpus * perGpu
    && ReportHolds(r, w, Loads(w, phy2log, cnt), phy2log, gpus, perGpu)
  }

  /** A layer deployed as asked, in the caller's numbers. */
  ghost predicate DeployedAsAsked(r: LayerReport, w: seq<real>, phy2log: seq<int>, cnt: seq<int>, experts: nat,
                                  numReplicas: nat, numGroups: nat, numNodes: nat, numGpus: nat)
    requires numNodes > 0 && numGpus > 0 && (numGroups % numNodes == 0 ==> numGroups > 0)
  {
    if numGroups % numNodes == 0 then
      LayerDeployed(r, w, phy2log, cnt, numGroups, Quotient(experts, numGroups), numNodes,
                    Quotient(numGpus, numNodes), Quotient(numReplicas, numGpus), numGpus)
    else
      LayerDeployed(r, w, phy2log, cnt, 1, experts, 1, numGpus, Quotient(numReplicas, numGpus), numGpus)
  }

  method DeployLayer(w: seq<real>, gpus: nat, d: Dims, phy2log: seq<int>, rows: seq<seq<int>>,
                     ghost rank: seq<int>, ghost cnt: seq<int>, ghost width: nat)
    returns (r: LayerReport)
    requires ReadyToReport(w, d, phy2log, rank, cnt, rows, width, gpus)
    ensures Reported(r, w, phy2log, cnt, gpus, d.perGpu)
  {
    var opt := Redistribute(w, gpus * d.perGpu, rows, phy2log, rank, cnt, width);
    r := Report(w, opt, gpus, d.perGpu, phy2log);
  }

  method DeployLayers(workload: seq<seq<real>>, gpus: nat, d: Dims, phy2log: seq<seq<int>>, log2phy: seq<seq<seq<int>>>,
                      ghost rank: seq<seq<int>>, ghost cnt: seq<seq<int>>, ghost width: nat)
    returns (reports: seq<LayerReport>)
    requires |workload| == |phy2log| == |log2phy| == |rank| == |cnt|
    requires forall l :: 0 <= l < |workload| ==>
               ReadyToReport(workload[l], d, phy2log[l], rank[l], cnt[l], log2phy[l], width, gpus)
    ensures |reports| == |workload|
    ensures forall l :: 0 <= l < |workload| ==> Reported(reports[l], workload[l], phy2log[l], cnt[l], gpus, d.perGpu)
  {
    reports := [];
    for l := 0 to |workload|
      invariant |reports| == l
      invariant forall i :: 0 <= i < l ==> Reported(reports[i], workload[i], phy2log[i], cnt[i], gpus, d.perGpu)
    {
      var r := DeployLayer(workload[l], gpus, d, phy2log[l], log2phy[l], rank[l], cnt[l], width);
      reports := reports + [r];
    }
  }

  method DeepseekDeploy(workload: seq<seq<real>>, redundant: nat, numGroups: nat, numNodes: nat, numGpus: nat, original: nat)
    returns (reports: seq<LayerReport>, phy2log: seq<seq<int>>, cnt: seq<seq<int>>)
    requires ValidRequest(original, original + redundant, numGroups, numNodes, numGpus)
    requires IsWorkload(workload, original) && original % numGpus == 0
    ensures |reports| == |phy2log| == |cnt| == |workload|
    ensures forall l :: 0 <= l < |workload| ==>
              DeployedAsAsked(reports[l], workload[l], phy2log[l], cnt[l],
                              original, original + redundant, numGroups, numNodes, numGpus)
  {
    var d := ChooseDims(original, original + redundant, numGroups, numNodes, numGpus);
    DimsFit(original, original + redundant, numGroups, numNodes, numGpus);
    var log2phy, width; ghost var rank;
    phy2log, log2phy, cnt, width, rank :=
      RebalanceExperts(workload, original, original + redundant, numGroups, numNodes, numGpus);
    forall l | 0 <= l < |workload|
      ensures ReadyToReport(workload[l], d, phy2log[l], rank[l], cnt[l], log2phy[l], width, numGpus)
    {
      LayerMapIsReady(workload[l], d, phy2log[l], rank[l], cnt[l], log2phy[l], width, numGpus);
    }
    reports := DeployLayers(workload, numGpus, d, phy2log, log2phy, rank, cnt, width);
    forall l | 0 <= l < |workload|
      ensures DeployedAsAsked(reports[l], workload[l], phy2log[l], cnt[l],
                              original, original + redundant, numGroups, numNodes, numGpus)
    {
      MapAndReport(reports[l], workload[l], d, phy2log[l], rank[l], cnt[l], log2phy[l], width, numGpus);
      DivModFacts(numGroups, numNodes);
      assert numNodes * (numGroups / numNodes) == numGroups / numNodes * numNodes;
    }
  }

  lemma MapAndReport(r: LayerReport, w: seq<real>, d: Dims, phy2log: seq<int>, rank: seq<int>, cnt: seq<int>,
                     rows: seq<seq<int>>, width: nat, gpus: nat)
    requires IsLayerMap(w, d, phy2log, rank, cnt, rows, width)
    requires d.nodes * d.gpusPerNode == gpus
    requires Reported(r, w, phy2log, cnt, gpus, d.perGpu)
    ensures LayerDeployed(r, w, phy2log, cnt, d.nodes * d.groupsPerNode, d.groupSize, d.nodes, d.gpusPerNode, d.perGpu, gpus)
  {
    NearMean(r, w, d, Loads(w, phy2log, cnt));
  }

  lemma NearMean(r: LayerReport, w: seq<real>, d: Dims, loads: seq<real>)
    requires d.nodes * d.gpusPerNode > 0 && d.gpusPerNode > 0
    requires |loads| == d.nodes * d.gpusPerNode * d.perGpu == d.nodes * (d.gpusPerNode * d.perGpu)
    requires r.balancedMax in RowSums(loads, d.nodes * d.gpusPerNode, d.perGpu)
    requires r.average == Share(Sum(loads), d.nodes * d.gpusPerNode)
    requires NodesBalanced(loads, d.nodes, d.gpusPerNode, d.perGpu)
    requires NodesWithinSpread(w, loads, d.nodes * d.groupsPerNode, d.groupSize, d.nodes, d.gpusPerNode * d.perGpu)
    ensures MaximumNearMean(r, w, loads, d.nodes * d.groupsPerNode, d.groupSize, d.gpusPerNode)
  {
    var groups := d.nodes * d.groupsPerNode;
    forall least, most, lo, hi | least <= most && Bounds(GroupTokens(w, groups, d.groupSize), least, most)
                                 && lo <= hi && Bounds(loads, lo, hi)
      ensures r.balancedMax <= r.average + Share(most - least, d.gpusPerNode) + (hi - lo)
    {
      SpreadIsDifference(w, loads, groups, d.groupSize, d.nodes, d.gpusPerNode * d.perGpu, least, most);
      MaximumBound(r.balancedMax, loads, d, most - least, lo, hi);
    }
  }

  lemma SpreadIsDifference(w: seq<real>, loads: seq<real>, groups: nat, size: nat, nodes: nat, slots: nat, least: real, most: real)
    requires NodesWithinSpread(w, loads, groups, size, nodes, slots)
    requires least <= most && Bounds(GroupTokens(w, groups, size), least, most)
    ensures NodesDiffer(loads, nodes, slots, most - least)
  {
  }

  lemma MaximumBound(m: real, loads: seq<real>, d: Dims, delta: real, lo: real, hi: real)
    requires d.nodes * d.gpusPerNode > 0 && d.gpusPerNode > 0
    requires |loads| == d.nodes * d.gpusPerNode * d.perGpu == d.nodes * (d.gpusPerNode * d.perGpu)
    requires m in RowSums(loads, d.nodes * d.gpusPerNode, d.perGpu)
    requires NodesBalanced(loads, d.nodes, d.gpusPerNode, d.perGpu)
    requires NodesDiffer(loads, d.nodes, d.gpusPerNode * d.perGpu, delta)
    requires lo <= hi && Bounds(loads, lo, hi)
    ensures m <= Share(Sum(loads), d.nodes * d.gpusPerNode) + Share(delta, d.gpusPerNode) + (hi - lo)
  {
    var g :| 0 <= g < d.nodes * d.gpusPerNode && RowSums(loads, d.nodes * d.gpusPerNode, d.perGpu)[g] == m;
    HeaviestNearMean(loads, d.nodes, d.gpusPerNode, d.perGpu, g, delta, lo, hi);
  }
}
