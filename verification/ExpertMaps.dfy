/** The entry point `rebalance_experts`: placement of every layer and the logical-to-physical map. */
module ExpertMaps {
  import opened Common
  import opened Indexing
  import opened Packing
  import opened Replication
  import opened Rebalance

  /** `rows[e][r]` is the slot of replica `r` of expert `e`; past the last replica it is -1. */
  ghost predicate IsInverseMap(phy2log: seq<int>, rank: seq<int>, cnt: seq<int>, rows: seq<seq<int>>, width: nat) {
    && |phy2log| == |rank| && |rows| == |cnt|
    && (forall e :: 0 <= e < |rows| ==> |rows[e]| == width >= cnt[e])
    && (forall e, r :: 0 <= e < |rows| && 0 <= r < width ==> (rows[e][r] == -1 <==> r >= cnt[e]))
    && (forall e, r :: 0 <= e < |rows| && 0 <= r < width && rows[e][r] != -1 ==>
          0 <= rows[e][r] < |rank| && phy2log[rows[e][r]] == e && rank[rows[e][r]] == r)
    && (forall p :: 0 <= p < |rank| ==>
          0 <= phy2log[p] < |rows| && 0 <= rank[p] < width && rows[phy2log[p]][rank[p]] == p)
  }

  /** The flat view after scattering the first `n` slots. */
  ghost predicate Scattered(phy2log: seq<int>, rank: seq<int>, flat: seq<int>, width: nat, n: nat) {
    && |phy2log| == |rank| && n <= |rank|
    && (forall p :: 0 <= p < n ==>
          0 <= phy2log[p] * width + rank[p] < |flat| && flat[phy2log[p] * width + rank[p]] == p)
    && (forall i :: 0 <= i < |flat| && flat[i] != -1 ==>
          0 <= flat[i] < n && i == phy2log[flat[i]] * width + rank[flat[i]])
  }

  method ScatterSlots(phy2log: seq<int>, rank: seq<int>, cnt: seq<int>, width: nat) returns (flat: seq<int>)
    requires IsReplicaMap(phy2log, rank, cnt)
    requires forall e :: 0 <= e < |cnt| ==> cnt[e] <= width
    ensures |flat| == |cnt| * width
    ensures Scattered(phy2log, rank, flat, width, |rank|)
  {
    flat := seq(|cnt| * width, _ => -1);
    for p := 0 to |phy2log|
      invariant |flat| == |cnt| * width
      invariant Scattered(phy2log, rank, flat, width, p)
    {
      var i := phy2log[p] * width + rank[p];
      CellInRange(phy2log[p], rank[p], |cnt|, width);
      forall q | 0 <= q < p ensures phy2log[q] * width + rank[q] != i {
        CellUnique(phy2log[q], rank[q], phy2log[p], rank[p], width);
      }
      flat := flat[i := p];
    }
  }

  /** Cutting the scattered view into rows gives the inverse map. */
  lemma ScatteredRows(phy2log: seq<int>, rank: seq<int>, cnt: seq<int>, width: nat, flat: seq<int>)
    requires IsReplicaMap(phy2log, rank, cnt)
    requires forall e :: 0 <= e < |cnt| ==> cnt[e] <= width
    requires |flat| == |cnt| * width && Scattered(phy2log, rank, flat, width, |rank|)
    ensures IsInverseMap(phy2log, rank, cnt, Pieces(flat, |cnt|, width), width)
  {
    var rows := Pieces(flat, |cnt|, width);
    forall e, r | 0 <= e < |cnt| && 0 <= r < width
      ensures rows[e][r] == -1 <==> r >= cnt[e]
      ensures rows[e][r] != -1 ==> 0 <= rows[e][r] < |rank| && phy2log[rows[e][r]] == e && rank[rows[e][r]] == r
    {
      ScatteredCell(phy2log, rank, cnt, width, flat, e, r);
    }
    forall p | 0 <= p < |rank| ensures rows[phy2log[p]][rank[p]] == p {
      RowInRange(phy2log[p], |cnt|, width);
      assert flat[phy2log[p] * width + rank[p]] == p;
    }
  }

  /** One cell of the scattered view: the slot of that replica, or -1 when there is none. */
  lemma ScatteredCell(phy2log: seq<int>, rank: seq<int>, cnt: seq<int>, width: nat, flat: seq<int>, e: nat, r: nat)
    requires IsReplicaMap(phy2log, rank, cnt)
    requires forall e :: 0 <= e < |cnt| ==> cnt[e] <= width
    requires |flat| == |cnt| * width && Scattered(phy2log, rank, flat, width, |rank|) && e < |cnt| && r < width
    ensures var p := Piece(flat, |cnt|, width, e)[r];
            && (p == -1 <==> r >= cnt[e])
            && (p != -1 ==> 0 <= p < |rank| && phy2log[p] == e && rank[p] == r)
  {
    CellInRange(e, r, |cnt|, width);
    var p := flat[e * width + r];
    assert Piece(flat, |cnt|, width, e)[r] == p;
    if r < cnt[e] {
      assert HasReplica(phy2log, rank, e, r);
      var q :| 0 <= q < |rank| && phy2log[q] == e && rank[q] == r;
      assert flat[phy2log[q] * width + rank[q]] == q;
    } else if p != -1 {
      CellUnique(phy2log[p], rank[p], e, r, width);
    }
  }

  method InvertLayer(phy2log: seq<int>, rank: seq<int>, cnt: seq<int>, width: nat) returns (rows: seq<seq<int>>)
    requires IsReplicaMap(phy2log, rank, cnt)
    requires forall e :: 0 <= e < |cnt| ==> cnt[e] <= width
    ensures IsInverseMap(phy2log, rank, cnt, rows, width)
  {
    var flat := ScatterSlots(phy2log, rank, cnt, width);
    rows := Pieces(flat, |cnt|, width);
    ScatteredRows(phy2log, rank, cnt, width, flat);
  }

  predicate ValidRequest(experts: nat, numReplicas: nat, numGroups: nat, numNodes: nat, numGpus: nat) {
    && numNodes > 0 && numGpus > 0
    && 0 < experts <= numReplicas && numReplicas % numGpus == 0
    && (numGroups % numNodes == 0 ==> numGroups > 0 && experts % numGroups == 0 && numGpus % numNodes == 0)
  }

  /** How the request splits up; a group count the nodes do not divide selects the one-node policy. */
  function ChooseDims(experts: nat, numReplicas: nat, numGroups: nat, numNodes: nat, numGpus: nat): Dims
    requires ValidRequest(experts, numReplicas, numGroups, numNodes, numGpus)
  {
    if numGroups % numNodes == 0 then
      Dims(numNodes, numGroups / numNodes, experts / numGroups, numGpus / numNodes, numReplicas / numGpus)
    else
      Dims(1, 1, experts, numGpus, numReplicas / numGpus)
  }

  ghost predicate Fits(d: Dims, experts: nat, numReplicas: nat, numGpus: nat) {
    && experts == d.nodes * d.groupsPerNode * d.groupSize
    && numReplicas == d.nodes * (d.gpusPerNode * d.perGpu)
    && d.nodes * d.gpusPerNode == numGpus
    && d.nodes > 0 && d.gpusPerNode > 0 && d.groupSize > 0
    && 0 < d.groupsPerNode * d.groupSize <= d.gpusPerNode * d.perGpu
  }

  lemma FitsFromProducts(d: Dims, experts: nat, numReplicas: nat, numGpus: nat)
    requires d.nodes > 0 && numGpus > 0 && 0 < experts <= numReplicas
    requires experts == d.nodes * d.groupsPerNode * d.groupSize
    requires numReplicas == numGpus * d.perGpu && numGpus == d.nodes * d.gpusPerNode
    ensures Fits(d, experts, numReplicas, numGpus)
  {
    var a, b := d.groupsPerNode * d.groupSize, d.gpusPerNode * d.perGpu;
    NestedCell(d.nodes, 0, 0, d.gpusPerNode, d.perGpu);
    NestedCell(d.nodes, 0, 0, d.groupsPerNode, d.groupSize);
    assert experts == d.nodes * a && numReplicas == d.nodes * b;
    MulCancel(d.nodes, a, b);
  }

  lemma DimsFit(experts: nat, numReplicas: nat, numGroups: nat, numNodes: nat, numGpus: nat)
    requires ValidRequest(experts, numReplicas, numGroups, numNodes, numGpus)
    ensures Fits(ChooseDims(experts, numReplicas, numGroups, numNodes, numGpus), experts, numReplicas, numGpus)
  {
    DivModFacts(numReplicas, numGpus);
    if numGroups % numNodes == 0 {
      DivModFacts(numGroups, numNodes);
      DivModFacts(experts, numGroups);
      DivModFacts(numGpus, numNodes);
    }
    var d := ChooseDims(experts, numReplicas, numGroups, numNodes, numGpus);
    FitsFromProducts(d, experts, numReplicas, numGpus);
  }

  /* ----- All layers ----- */

  /** The weights of all layers, one entry per logical expert. */
  ghost predicate IsWorkload(weight: seq<seq<real>>, experts: nat) {
    |weight| > 0 && forall l :: 0 <= l < |weight| ==> |weight[l]| == experts && NonNegative(weight[l])
  }

  /** Maps of one layer: placed as promised and inverse to each other. */
  ghost predicate IsLayerMap(w: seq<real>, d: Dims, phy2log: seq<int>, rank: seq<int>, cnt: seq<int>,
                             rows: seq<seq<int>>, width: nat) {
    && IsLayerPlacement(w, phy2log, rank, cnt, d)
    && IsInverseMap(phy2log, rank, cnt, rows, width)
  }

  /** Placed as asked, in the caller's numbers: whole groups on the given nodes if the nodes divide the groups, otherwise
      all experts as one group on one node of all GPUs. */
  ghost predicate PlacedAsAsked(w: seq<real>, phy2log: seq<int>, cnt: seq<int>, experts: nat, numReplicas: nat,
                                numGroups: nat, numNodes: nat, numGpus: nat)
    requires numNodes > 0 && numGpus > 0 && (numGroups % numNodes == 0 ==> numGroups > 0)
  {
    if numGroups % numNodes == 0 then
      PlacedOn(w, phy2log, cnt, numGroups, Quotient(experts, numGroups), numNodes,
               Quotient(numGpus, numNodes), Quotient(numReplicas, numGpus))
    else
      PlacedOn(w, phy2log, cnt, 1, experts, 1, numGpus, Quotient(numReplicas, numGpus))
  }

  lemma DimsAreAsked(w: seq<real>, phy2log: seq<int>, rank: seq<int>, cnt: seq<int>, experts: nat, numReplicas: nat,
                     numGroups: nat, numNodes: nat, numGpus: nat)
    requires ValidRequest(experts, numReplicas, numGroups, numNodes, numGpus)
    requires IsLayerPlacement(w, phy2log, rank, cnt, ChooseDims(experts, numReplicas, numGroups, numNodes, numGpus))
    ensures PlacedAsAsked(w, phy2log, cnt, experts, numReplicas, numGroups, numNodes, numGpus)
  {
    DivModFacts(numGroups, numNodes);
    assert numNodes * (numGroups / numNodes) == numGroups / numNodes * numNodes;
  }

  method MaxCount(cnts: seq<seq<int>>) returns (m: int)
    requires |cnts| > 0 && forall l :: 0 <= l < |cnts| ==> |cnts[l]| > 0
    ensures forall l, e :: 0 <= l < |cnts| && 0 <= e < |cnts[l]| ==> cnts[l][e] <= m
    ensures exists l :: 0 <= l < |cnts| && m in cnts[l]
  {
    m := cnts[0][0];
    for l := 0 to |cnts|
      invariant forall i, e :: 0 <= i < l && 0 <= e < |cnts[i]| ==> cnts[i][e] <= m
      invariant exists i :: 0 <= i < |cnts| && m in cnts[i]
    {
      for e := 0 to |cnts[l]|
        invariant forall i, f :: 0 <= i < l && 0 <= f < |cnts[i]| ==> cnts[i][f] <= m
        invariant forall f :: 0 <= f < e ==> cnts[l][f] <= m
        invariant exists i :: 0 <= i < |cnts| && m in cnts[i]
      {
        if cnts[l][e] > m {
          m := cnts[l][e];
          assert m in cnts[l];
        }
      }
    }
  }

  method RebalanceExperts(weight: seq<seq<real>>, experts: nat, numReplicas: nat, numGroups: nat, numNodes: nat, numGpus: nat)
    returns (phy2log: seq<seq<int>>, log2phy: seq<seq<seq<int>>>, cnt: seq<seq<int>>, width: nat,
             ghost rank: seq<seq<int>>)
    requires ValidRequest(experts, numReplicas, numGroups, numNodes, numGpus)
    requires IsWorkload(weight, experts)
    ensures |phy2log| == |log2phy| == |cnt| == |rank| == |weight|
    ensures forall l :: 0 <= l < |weight| ==>
              IsLayerMap(weight[l], ChooseDims(experts, numReplicas, numGroups, numNodes, numGpus),
                         phy2log[l], rank[l], cnt[l], log2phy[l], width)
    ensures forall l :: 0 <= l < |weight| ==>
              && PlacedAsAsked(weight[l], phy2log[l], cnt[l], experts, numReplicas, numGroups, numNodes, numGpus)
              && IsInverseMap(phy2log[l], rank[l], cnt[l], log2phy[l], width)
    ensures exists l :: 0 <= l < |cnt| && width in cnt[l]
  {
    var d := ChooseDims(experts, numReplicas, numGroups, numNodes, numGpus);
    DimsFit(experts, numReplicas, numGroups, numNodes, numGpus);
    var phyrank;
    phy2log, phyrank, cnt := PlaceLayers(weight, experts, numReplicas, numGpus, d);
    var m := MaxCount(cnt);
    width, rank := m, phyrank;
    log2phy := InvertLayers(phy2log, phyrank, cnt, width);
    forall l | 0 <= l < |weight|
      ensures PlacedAsAsked(weight[l], phy2log[l], cnt[l], experts, numReplicas, numGroups, numNodes, numGpus)
    {
      DimsAreAsked(weight[l], phy2log[l], rank[l], cnt[l], experts, numReplicas, numGroups, numNodes, numGpus);
    }
  }

  method PlaceLayers(weight: seq<seq<real>>, experts: nat, numReplicas: nat, numGpus: nat, d: Dims)
    returns (phy2log: seq<seq<int>>, rank: seq<seq<int>>, cnt: seq<seq<int>>)
    requires IsWorkload(weight, experts) && Fits(d, experts, numReplicas, numGpus)
    ensures |phy2log| == |rank| == |cnt| == |weight|
    ensures forall l :: 0 <= l < |weight| ==>
              IsLayerPlacement(weight[l], phy2log[l], rank[l], cnt[l], d)
  {
    phy2log, rank, cnt := [], [], [];
    for l := 0 to |weight|
      invariant |phy2log| == |rank| == |cnt| == l
      invariant forall i :: 0 <= i < l ==>
                  IsLayerPlacement(weight[i], phy2log[i], rank[i], cnt[i], d)
    {
      var p, r, c := RebalanceLayer(weight[l], d);
      phy2log, rank, cnt := phy2log + [p], rank + [r], cnt + [c];
    }
  }

  method InvertLayers(phy2log: seq<seq<int>>, rank: seq<seq<int>>, cnt: seq<seq<int>>, width: nat)
    returns (log2phy: seq<seq<seq<int>>>)
    requires |phy2log| == |rank| == |cnt|
    requires forall l :: 0 <= l < |cnt| ==> IsReplicaMap(phy2log[l], rank[l], cnt[l])
    requires forall l, e :: 0 <= l < |cnt| && 0 <= e < |cnt[l]| ==> cnt[l][e] <= width
    ensures |log2phy| == |cnt|
    ensures forall l :: 0 <= l < |cnt| ==> IsInverseMap(phy2log[l], rank[l], cnt[l], log2phy[l], width)
  {
    log2phy := [];
    for l := 0 to |cnt|
      invariant |log2phy| == l
      invariant forall i :: 0 <= i < l ==> IsInverseMap(phy2log[i], rank[i], cnt[i], log2phy[i], width)
    {
      var rows := InvertLayer(phy2log[l], rank[l], cnt[l], width);
      log2phy := log2phy + [rows];
    }
  }
}
