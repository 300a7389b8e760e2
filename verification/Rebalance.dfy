/** The three-stage placement (`rebalance_experts_hierarchical`) and its inverse map (`rebalance_experts`). */
module Rebalance {
  import opened Indexing
  import opened Sums
  import opened Packing
  import opened BestPacking
  import opened Replication

  /* ----- Stage 1: groups to nodes ----- */

  /** Moves whole blocks of `size` indices: block g goes to block `slots[g]`. */
  function BlockMove(slots: seq<int>, size: nat): (r: seq<int>)
    requires size > 0
    ensures |r| == |slots| * size
    ensures forall e :: 0 <= e < |r| ==> 0 <= e / size < |slots| && r[e] == slots[e / size] * size + e % size
  {
    assert forall e {:trigger e / size} :: 0 <= e < |slots| * size ==> 0 <= e / size < |slots| by {
      forall e | 0 <= e < |slots| * size ensures 0 <= e / size < |slots| { DivInRange(e, |slots|, size); }
    }
    seq(|slots| * size, e requires 0 <= e < |slots| * size => slots[e / size] * size + e % size)
  }

  lemma BlockMovePermutes(slots: seq<int>, size: nat)
    requires size > 0 && IsPermutation(slots, |slots|)
    ensures IsPermutation(BlockMove(slots, size), |slots| * size)
  {
    var r := BlockMove(slots, size);
    forall e | 0 <= e < |r| ensures 0 <= r[e] < |slots| * size {
      CellInRange(slots[e / size], e % size, |slots|, size);
    }
    forall e, f | 0 <= e < f < |r| ensures r[e] != r[f] {
      CellUnique(slots[e / size], e % size, slots[f / size], f % size, size);
      DivModFacts(e, size);
      DivModFacts(f, size);
    }
  }

  /** An expert's node is the pack its group went to. */
  lemma NodeOfExpert(packIndex: seq<int>, rank: seq<int>, nodes: nat, perNode: nat, size: nat, e: nat)
    requires IsPlacement(packIndex, rank, nodes, perNode) && size > 0
    requires e < nodes * perNode * size
    ensures 0 <= e / size < |rank| && perNode * size > 0
    ensures |rank| * size == nodes * perNode * size
    ensures BlockMove(Slots(packIndex, rank, perNode), size)[e] / (perNode * size) == packIndex[e / size]
  {
    DivInRange(e, nodes * perNode, size);
    var g := e / size;
    var slots := Slots(packIndex, rank, perNode);
    var local := rank[g] * size + e % size;
    CellInRange(rank[g], e % size, perNode, size);
    NestedCell(packIndex[g], rank[g], e % size, perNode, size);
    CellDivMod(packIndex[g], local, perNode * size);
  }

  /* ----- Stages 2 and 3: one node ----- */

  /** Replica load of every slot. */
  function Loads(w: seq<real>, phy2log: seq<int>, cnt: seq<int>): (r: seq<real>)
    requires |w| == |cnt| && forall e :: 0 <= e < |cnt| ==> cnt[e] >= 1
    requires forall p :: 0 <= p < |phy2log| ==> 0 <= phy2log[p] < |w|
    ensures |r| == |phy2log|
    ensures forall p :: 0 <= p < |r| ==> r[p] == Share(w[phy2log[p]], cnt[phy2log[p]])
  {
    seq(|phy2log|, p requires 0 <= p < |phy2log| => Share(w[phy2log[p]], cnt[phy2log[p]]))
  }

  ghost function GpuLoad(loads: seq<real>, gpu: nat, perGpu: nat): real
    requires 0 <= gpu * perGpu <= gpu * perGpu + perGpu <= |loads|
  {
    Sum(loads[gpu * perGpu..gpu * perGpu + perGpu])
  }

  /** What one node ends up with: expert, replica rank per slot, and replica counts. */
  datatype NodePlan = NodePlan(slots: seq<int>, rank: seq<int>, cnt: seq<int>)

  ghost predicate IsNodePlan(w: seq<real>, plan: NodePlan, numSlots: nat) {
    && |w| > 0 && |plan.slots| == numSlots
    && IsReplicaMap(plan.slots, plan.rank, plan.cnt)
    && IsReplicaCount(plan.cnt, |w|, numSlots)
    && IsOptimalCount(w, plan.cnt, numSlots)
  }

  /** Loads of any two of the node's GPUs differ by at most its heaviest replica minus its lightest. */
  ghost predicate GpusBalanced(loads: seq<real>, gpus: nat, perGpu: nat)
    requires |loads| == gpus * perGpu
  {
    forall lo, hi, a, c :: lo <= hi && Bounds(loads, lo, hi) && 0 <= a < gpus && 0 <= c < gpus ==>
      0 <= a * perGpu <= a * perGpu + perGpu <= |loads| &&
      0 <= c * perGpu <= c * perGpu + perGpu <= |loads| &&
      GpuLoad(loads, a, perGpu) - GpuLoad(loads, c, perGpu) <= hi - lo
  }

  /** Renumbering slots keeps the correspondence with replicas. */
  lemma ReplicaMapGather(slots: seq<int>, rank: seq<int>, cnt: seq<int>, perm: seq<int>)
    requires IsReplicaMap(slots, rank, cnt) && IsPermutation(perm, |slots|)
    ensures IsReplicaMap(Gather(slots, perm), Gather(rank, perm), cnt)
  {
    var f, g := Gather(slots, perm), Gather(rank, perm);
    forall p, q | 0 <= p < q < |g| && f[p] == f[q] ensures g[p] != g[q] {
      assert perm[p] != perm[q];
      if perm[p] < perm[q] {} else {}
    }
    forall e, r | 0 <= e < |cnt| && 0 <= r < cnt[e] ensures HasReplica(f, g, e, r) {
      assert HasReplica(slots, rank, e, r);
      var p :| 0 <= p < |rank| && slots[p] == e && rank[p] == r;
      var q := PermutationCovers(perm, |slots|, p);
      assert f[q] == e && g[q] == r;
    }
  }

  /** Moving packed items to their slots turns pack totals into GPU loads. */
  lemma PacksBecomeGpus(loads: seq<real>, packIndex: seq<int>, rank: seq<int>, gpus: nat, perGpu: nat, inv: seq<int>)
    requires IsPlacement(packIndex, rank, gpus, perGpu) && |loads| == |rank|
    requires IsSlotTable(inv, packIndex, rank, perGpu)
    requires WithinSpread(loads, packIndex, gpus)
    ensures GpusBalanced(Gather(loads, inv), gpus, perGpu)
  {
    var moved := Gather(loads, inv);
    forall a | 0 <= a < gpus
      ensures 0 <= a * perGpu <= a * perGpu + perGpu <= |moved|
      ensures GpuLoad(moved, a, perGpu) == TagTotal(loads, packIndex, a)
    {
      PackRow(packIndex, rank, gpus, perGpu, inv, a);
      RowTotal(loads, packIndex, inv, a, a * perGpu, a * perGpu + perGpu);
    }
    forall lo, hi | lo <= hi && Bounds(moved, lo, hi) ensures Bounds(loads, lo, hi) {
      forall i | 0 <= i < |loads| ensures lo <= loads[i] <= hi {
        var j := PermutationCovers(inv, |loads|, i);
        assert moved[j] == loads[i];
      }
    }
  }

  method PlanNode(w: seq<real>, gpus: nat, perGpu: nat) returns (plan: NodePlan)
    requires NonNegative(w) && gpus > 0 && 0 < |w| <= gpus * perGpu
    ensures IsNodePlan(w, plan, gpus * perGpu)
    ensures GpusBalanced(Loads(w, plan.slots, plan.cnt), gpus, perGpu)
  {
    var phy2mlog, phyrank, cnt := ReplicateExperts(w, gpus * perGpu);
    var tokensPerPhy := Loads(w, phy2mlog, cnt);
    MulDivides(gpus, perGpu);
    var packIndex, rank := BalancedPacking(tokensPerPhy, gpus);
    PlacementFillsSlots(packIndex, rank, gpus, perGpu);
    var pphy2phy := Inverse(Slots(packIndex, rank, perGpu));
    plan := NodePlan(Gather(phy2mlog, pphy2phy), Gather(phyrank, pphy2phy), cnt);
    ReplicaMapGather(phy2mlog, phyrank, cnt, pphy2phy);
    PacksBecomeGpus(tokensPerPhy, packIndex, rank, gpus, perGpu, pphy2phy);
    assert Loads(w, plan.slots, cnt) == Gather(tokensPerPhy, pphy2phy);
  }

  /* ----- Putting the nodes together ----- */

  /** Every node plans `experts` of the renumbered experts on `slots` slots. */
  ghost predicate ArePlans(plans: seq<NodePlan>, experts: nat, slots: nat) {
    && experts > 0 && slots > 0
    && forall nd :: 0 <= nd < |plans| ==>
         && |plans[nd].slots| == slots && |plans[nd].cnt| == experts
         && IsReplicaMap(plans[nd].slots, plans[nd].rank, plans[nd].cnt)
         && forall e :: 0 <= e < experts ==> plans[nd].cnt[e] >= 1
  }

  /** The two renumberings of logical experts undo each other. */
  ghost predicate AreInverse(f: seq<int>, g: seq<int>) {
    && |f| == |g|
    && (forall i :: 0 <= i < |f| ==> 0 <= f[i] < |g| && g[f[i]] == i)
    && (forall j :: 0 <= j < |g| ==> 0 <= g[j] < |f| && f[g[j]] == j)
  }

  /** Renumbered expert held by slot `p`. */
  function Renumbered(plans: seq<NodePlan>, experts: nat, slots: nat, p: nat): (x: int)
    requires ArePlans(plans, experts, slots) && p < |plans| * slots
    ensures 0 <= p / slots < |plans|
    ensures 0 <= x < |plans| * experts
    ensures x / experts == p / slots && x % experts == plans[p / slots].slots[p % slots]
  {
    DivInRange(p, |plans|, slots);
    var nd := p / slots;
    var y := plans[nd].slots[p % slots];
    CellInRange(nd, y, |plans|, experts);
    CellDivMod(nd, y, experts);
    nd * experts + y
  }

  function Phy2Log(plans: seq<NodePlan>, mlog2log: seq<int>, experts: nat, slots: nat): (r: seq<int>)
    requires ArePlans(plans, experts, slots) && |mlog2log| == |plans| * experts
    ensures |r| == |plans| * slots
    ensures forall p :: 0 <= p < |r| ==> r[p] == mlog2log[Renumbered(plans, experts, slots, p)]
  {
    seq(|plans| * slots, p requires 0 <= p < |plans| * slots => mlog2log[Renumbered(plans, experts, slots, p)])
  }

  function RankAt(plans: seq<NodePlan>, experts: nat, slots: nat, p: nat): (r: int)
    requires ArePlans(plans, experts, slots) && p < |plans| * slots
    ensures 0 <= p / slots < |plans| && r == plans[p / slots].rank[p % slots]
  {
    DivInRange(p, |plans|, slots);
    plans[p / slots].rank[p % slots]
  }

  function PhyRank(plans: seq<NodePlan>, experts: nat, slots: nat): (r: seq<int>)
    requires ArePlans(plans, experts, slots)
    ensures |r| == |plans| * slots
    ensures forall p :: 0 <= p < |r| ==> r[p] == RankAt(plans, experts, slots, p)
  {
    seq(|plans| * slots, p requires 0 <= p < |plans| * slots => RankAt(plans, experts, slots, p))
  }

  function CountAt(plans: seq<NodePlan>, experts: nat, slots: nat, x: int): (c: int)
    requires ArePlans(plans, experts, slots) && 0 <= x < |plans| * experts
    ensures 0 <= x / experts < |plans| && c == plans[x / experts].cnt[x % experts] && c >= 1
  {
    DivInRange(x, |plans|, experts);
    plans[x / experts].cnt[x % experts]
  }

  function LogCnt(plans: seq<NodePlan>, log2mlog: seq<int>, experts: nat, slots: nat): (r: seq<int>)
    requires ArePlans(plans, experts, slots)
    requires forall e :: 0 <= e < |log2mlog| ==> 0 <= log2mlog[e] < |plans| * experts
    ensures |r| == |log2mlog|
    ensures forall e :: 0 <= e < |r| ==> r[e] == CountAt(plans, experts, slots, log2mlog[e])
  {
    seq(|log2mlog|, e requires 0 <= e < |log2mlog| => CountAt(plans, experts, slots, log2mlog[e]))
  }

  /** The slot at which a node's plan puts replica `r` of one of its experts. */
  lemma AssembledReplica(plans: seq<NodePlan>, experts: nat, slots: nat, x: int, r: int) returns (p: nat)
    requires ArePlans(plans, experts, slots) && 0 <= x < |plans| * experts
    requires 0 <= r < CountAt(plans, experts, slots, x)
    ensures p < |plans| * slots && Renumbered(plans, experts, slots, p) == x
    ensures PhyRank(plans, experts, slots)[p] == r
  {
    DivInRange(x, |plans|, experts);
    var nd, y := x / experts, x % experts;
    assert HasReplica(plans[nd].slots, plans[nd].rank, y, r);
    var j :| 0 <= j < slots && plans[nd].slots[j] == y && plans[nd].rank[j] == r;
    p := nd * slots + j;
    CellInRange(nd, j, |plans|, slots);
    CellDivMod(nd, j, slots);
    DivModFacts(x, experts);
  }

  lemma AssembledDistinct(plans: seq<NodePlan>, experts: nat, slots: nat, p: nat, q: nat)
    requires ArePlans(plans, experts, slots) && p < q < |plans| * slots
    requires Renumbered(plans, experts, slots, p) == Renumbered(plans, experts, slots, q)
    ensures PhyRank(plans, experts, slots)[p] != PhyRank(plans, experts, slots)[q]
  {
    var nd := p / slots;
    assert nd == q / slots;
    DivModFacts(p, slots);
    DivModFacts(q, slots);
    assert IsReplicaMap(plans[nd].slots, plans[nd].rank, plans[nd].cnt);
  }

  /** The assembled maps are again a one-to-one correspondence between slots and replicas. */
  lemma AssembledReplicaMap(plans: seq<NodePlan>, log2mlog: seq<int>, mlog2log: seq<int>, experts: nat, slots: nat)
    requires ArePlans(plans, experts, slots)
    requires |mlog2log| == |plans| * experts && AreInverse(log2mlog, mlog2log)
    ensures IsReplicaMap(Phy2Log(plans, mlog2log, experts, slots), PhyRank(plans, experts, slots),
                         LogCnt(plans, log2mlog, experts, slots))
  {
    var f, g := Phy2Log(plans, mlog2log, experts, slots), PhyRank(plans, experts, slots);
    var c := LogCnt(plans, log2mlog, experts, slots);
    forall p | 0 <= p < |g| ensures 0 <= f[p] < |c| && 0 <= g[p] < c[f[p]] {
      var x := Renumbered(plans, experts, slots, p);
      assert log2mlog[mlog2log[x]] == x;
      assert IsReplicaMap(plans[p / slots].slots, plans[p / slots].rank, plans[p / slots].cnt);
    }
    forall p, q | 0 <= p < q < |g| && f[p] == f[q] ensures g[p] != g[q] {
      assert log2mlog[f[p]] == Renumbered(plans, experts, slots, p);
      assert log2mlog[f[q]] == Renumbered(plans, experts, slots, q);
      AssembledDistinct(plans, experts, slots, p, q);
    }
    forall e, r | 0 <= e < |c| && 0 <= r < c[e] ensures HasReplica(f, g, e, r) {
      var p := AssembledReplica(plans, experts, slots, log2mlog[e], r);
      assert f[p] == mlog2log[log2mlog[e]] == e && g[p] == r;
    }
  }

  /** The weights of a node's experts, in the node's own numbering. */
  function NodeWeights(w: seq<real>, mlog2log: seq<int>, experts: nat, nd: nat): (r: seq<real>)
    requires |w| == |mlog2log| && forall x :: 0 <= x < |w| ==> 0 <= mlog2log[x] < |w|
    requires 0 <= nd * experts <= nd * experts + experts <= |w|
    ensures |r| == experts
    ensures forall y :: 0 <= y < experts ==> r[y] == w[mlog2log[nd * experts + y]]
  {
    Gather(w, mlog2log)[nd * experts..nd * experts + experts]
  }

  /** Expert and replica count behind slot `j` of node `nd`. */
  lemma AssembledSlot(plans: seq<NodePlan>, log2mlog: seq<int>, mlog2log: seq<int>,
                      experts: nat, slots: nat, nd: nat, j: nat)
    requires ArePlans(plans, experts, slots) && nd < |plans| && j < slots
    requires |mlog2log| == |plans| * experts && AreInverse(log2mlog, mlog2log)
    ensures 0 <= nd * slots + j < |plans| * slots
    ensures var p, y := nd * slots + j, plans[nd].slots[j];
            && 0 <= nd * experts + y < |mlog2log|
            && Phy2Log(plans, mlog2log, experts, slots)[p] == mlog2log[nd * experts + y]
            && LogCnt(plans, log2mlog, experts, slots)[mlog2log[nd * experts + y]] == plans[nd].cnt[y]
  {
    CellInRange(nd, j, |plans|, slots);
    CellDivMod(nd, j, slots);
    var p, y := nd * slots + j, plans[nd].slots[j];
    CellInRange(nd, y, |plans|, experts);
    CellDivMod(nd, y, experts);
    var x := Renumbered(plans, experts, slots, p);
    DivModFacts(x, experts);
    assert log2mlog[mlog2log[x]] == x;
  }

  /** Node `nd` plans its own experts well and balances its GPUs. */
  ghost predicate PlanFits(w: seq<real>, mlog2log: seq<int>, experts: nat, gpus: nat, perGpu: nat, nd: nat, plan: NodePlan)
    requires |w| == |mlog2log| && forall x :: 0 <= x < |w| ==> 0 <= mlog2log[x] < |w|
  {
    && 0 <= nd * experts <= nd * experts + experts <= |w|
    && IsNodePlan(NodeWeights(w, mlog2log, experts, nd), plan, gpus * perGpu)
    && GpusBalanced(Loads(NodeWeights(w, mlog2log, experts, nd), plan.slots, plan.cnt), gpus, perGpu)
  }

  /** A node's stretch of the assembled loads is what its own plan says. */
  lemma AssembledLoads(w: seq<real>, plans: seq<NodePlan>, log2mlog: seq<int>, mlog2log: seq<int>,
                       experts: nat, slots: nat, nd: nat, own: seq<real>, lo: nat)
    requires ArePlans(plans, experts, slots) && nd < |plans|
    requires |w| == |mlog2log| == |plans| * experts && AreInverse(log2mlog, mlog2log)
    requires 0 <= nd * experts <= nd * experts + experts <= |w|
    requires own == Loads(NodeWeights(w, mlog2log, experts, nd), plans[nd].slots, plans[nd].cnt)
    requires lo == nd * slots && lo + slots <= |plans| * slots
    ensures AssembledLoad(w, plans, log2mlog, mlog2log, experts, slots)[lo..lo + slots] == own
  {
    forall j | 0 <= j < slots
      ensures AssembledLoad(w, plans, log2mlog, mlog2log, experts, slots)[lo + j] == own[j]
    {
      AssembledSlot(plans, log2mlog, mlog2log, experts, slots, nd, j);
    }
    SliceIs(AssembledLoad(w, plans, log2mlog, mlog2log, experts, slots), own, lo);
  }

  lemma SliceIs(all: seq<real>, own: seq<real>, lo: nat)
    requires lo + |own| <= |all| && forall j :: 0 <= j < |own| ==> all[lo + j] == own[j]
    ensures all[lo..lo + |own|] == own
  {
  }

  /** Replica load of every slot of the assembled placement. */
  ghost function AssembledLoad(w: seq<real>, plans: seq<NodePlan>, log2mlog: seq<int>, mlog2log: seq<int>,
                               experts: nat, slots: nat): (r: seq<real>)
    requires ArePlans(plans, experts, slots)
    requires |w| == |mlog2log| == |plans| * experts && AreInverse(log2mlog, mlog2log)
    ensures |r| == |plans| * slots
  {
    Loads(w, Phy2Log(plans, mlog2log, experts, slots), LogCnt(plans, log2mlog, experts, slots))
  }

  /* ----- Load per expert and per node ----- */

  /** The slots of an expert, by replica rank. */
  ghost function ReplicasOf(phy2log: seq<int>, rank: seq<int>, cnt: seq<int>, e: nat): (items: seq<int>)
    requires IsReplicaMap(phy2log, rank, cnt) && e < |cnt| && cnt[e] >= 1
    ensures |items| == cnt[e]
    ensures forall r :: 0 <= r < |items| ==>
              0 <= items[r] < |rank| && phy2log[items[r]] == e && rank[items[r]] == r
  {
    seq(cnt[e], r requires 0 <= r < cnt[e] => ReplicaSlot(phy2log, rank, cnt, e, r))
  }

  ghost function ReplicaSlot(phy2log: seq<int>, rank: seq<int>, cnt: seq<int>, e: nat, r: nat): (p: int)
    requires IsReplicaMap(phy2log, rank, cnt) && e < |cnt| && r < cnt[e]
    ensures 0 <= p < |rank| && phy2log[p] == e && rank[p] == r
  {
    assert HasReplica(phy2log, rank, e, r);
    var p :| 0 <= p < |rank| && phy2log[p] == e && rank[p] == r;
    p
  }

  /** The replicas of an expert together carry its whole load. */
  lemma ReplicasCarryExpert(w: seq<real>, phy2log: seq<int>, rank: seq<int>, cnt: seq<int>, e: nat)
    requires |w| == |cnt| && IsReplicaMap(phy2log, rank, cnt) && forall i :: 0 <= i < |cnt| ==> cnt[i] >= 1
    requires e < |w|
    ensures TagTotal(Loads(w, phy2log, cnt), phy2log, e) == w[e]
  {
    var loads, items := Loads(w, phy2log, cnt), ReplicasOf(phy2log, rank, cnt, e);
    forall p | 0 <= p < |rank| && phy2log[p] == e ensures p in items {
      var q := items[rank[p]];
      if p < q {} else if q < p {} else {}
    }
    TagTotalByListing(loads, phy2log, e, items);
    SumConstant(Gather(loads, items), Share(w[e], cnt[e]));
  }

  /** Splitting experts into replicas neither adds nor loses load. */
  lemma LoadsConserve(w: seq<real>, phy2log: seq<int>, rank: seq<int>, cnt: seq<int>)
    requires |w| == |cnt| && IsReplicaMap(phy2log, rank, cnt) && forall i :: 0 <= i < |cnt| ==> cnt[i] >= 1
    ensures Sum(Loads(w, phy2log, cnt)) == Sum(w)
  {
    var loads := Loads(w, phy2log, cnt);
    forall e | 0 <= e < |w| ensures TagTotal(loads, phy2log, e) == w[e] {
      ReplicasCarryExpert(w, phy2log, rank, cnt, e);
    }
    SumFromTotals(loads, phy2log, w);
  }

  /** The pack, and so the node, of every expert. */
  ghost function ExpertTags(packIndex: seq<int>, size: nat): (r: seq<int>)
    requires size > 0
    ensures |r| == |packIndex| * size
    ensures forall e :: 0 <= e < |r| ==> 0 <= e / size < |packIndex| && r[e] == packIndex[e / size]
  {
    assert forall e {:trigger e / size} :: 0 <= e < |packIndex| * size ==> 0 <= e / size < |packIndex| by {
      forall e | 0 <= e < |packIndex| * size ensures 0 <= e / size < |packIndex| { DivInRange(e, |packIndex|, size); }
    }
    seq(|packIndex| * size, e requires 0 <= e < |packIndex| * size => packIndex[e / size])
  }

  lemma ExpertTagsLast(packIndex: seq<int>, size: nat, cut: nat)
    requires size > 0 && |packIndex| > 0 && cut == (|packIndex| - 1) * size
    ensures ExpertTags(packIndex, size)
         == ExpertTags(packIndex[..|packIndex| - 1], size) + seq(size, _ => packIndex[|packIndex| - 1])
  {
    var n := |packIndex| - 1;
    assert (n + 1) * size == cut + size;
    var r, front := ExpertTags(packIndex, size), ExpertTags(packIndex[..n], size);
    forall e | cut <= e < cut + size ensures r[e] == packIndex[n] {
      CellDivMod(n, e - cut, size);
    }
  }

  /** Packing groups by their tokens is packing experts by theirs. */
  lemma {:induction false} GroupTotals(w: seq<real>, packIndex: seq<int>, size: nat, p: int)
    requires size > 0 && |w| == |packIndex| * size
    ensures TagTotal(w, ExpertTags(packIndex, size), p) == TagTotal(GroupTokens(w, |packIndex|, size), packIndex, p)
    decreases |packIndex|
  {
    var groups := |packIndex|;
    if groups > 0 {
      var n := groups - 1;
      RowInRange(n, groups, size);
      var cut := n * size;
      GroupTotals(w[..cut], packIndex[..n], size, p);
      GroupTokensFront(w, groups, size, cut);
      TagTotalLast(GroupTokens(w, groups, size), packIndex, p);
      ExpertTagsLast(packIndex, size, cut);
      BlockTotal(w[..cut], w[cut..cut + size], ExpertTags(packIndex[..n], size), seq(size, _ => packIndex[n]),
                 packIndex[n], p);
      assert w == w[..cut] + w[cut..cut + size];
    } else {
      TagTotalZero(w, ExpertTags(packIndex, size), p);
      TagTotalZero(GroupTokens(w, |packIndex|, size), packIndex, p);
    }
  }

  lemma GroupTokensFront(w: seq<real>, groups: nat, size: nat, cut: nat)
    requires groups > 0 && |w| == groups * size && cut == (groups - 1) * size <= |w|
    ensures GroupTokens(w, groups, size)[..groups - 1] == GroupTokens(w[..cut], groups - 1, size)
    ensures cut + size == |w| && GroupTokens(w, groups, size)[groups - 1] == Sum(w[cut..cut + size])
  {
    RowInRange(groups - 1, groups, size);
    forall g | 0 <= g < groups - 1
      ensures GroupTokens(w, groups, size)[g] == GroupTokens(w[..cut], groups - 1, size)[g]
    {
      RowInRange(g, groups - 1, size);
      assert w[..cut][g * size..g * size + size] == w[g * size..g * size + size];
    }
  }

  /** A block of items with one common tag. */
  lemma BlockTotal(front: seq<real>, back: seq<real>, tags: seq<int>, more: seq<int>, last: int, p: int)
    requires |front| == |tags| && |back| == |more| && forall i :: 0 <= i < |more| ==> more[i] == last
    ensures TagTotal(front + back, tags + more, p) == TagTotal(front, tags, p) + if last == p then Sum(back) else 0.0
  {
    var a, b := Tagged(front, tags, p), Tagged(back, more, p);
    TaggedConcat(front, back, tags, more, p);
    SumConcat(a, b);
    if last == p {
      assert b == back;
    } else {
      SumConstant(b, 0.0);
    }
  }

  lemma TaggedConcat(front: seq<real>, back: seq<real>, tags: seq<int>, more: seq<int>, p: int)
    requires |front| == |tags| && |back| == |more|
    ensures Tagged(front + back, tags + more, p) == Tagged(front, tags, p) + Tagged(back, more, p)
  {
  }

  /** The experts of node `nd`, in the node's own numbering. */
  ghost function Members(mlog2log: seq<int>, experts: nat, nd: nat): (r: seq<int>)
    requires 0 <= nd * experts <= nd * experts + experts <= |mlog2log|
    ensures |r| == experts && forall y :: 0 <= y < experts ==> r[y] == mlog2log[nd * experts + y]
  {
    mlog2log[nd * experts..nd * experts + experts]
  }

  /** A node's experts are those whose group was packed there. */
  lemma MembersArePack(packIndex: seq<int>, rank: seq<int>, log2mlog: seq<int>, mlog2log: seq<int>,
                       nodes: nat, perNode: nat, size: nat, nd: nat)
    requires size > 0 && IsPlacement(packIndex, rank, nodes, perNode) && nd < nodes
    requires log2mlog == BlockMove(Slots(packIndex, rank, perNode), size)
    requires |mlog2log| == nodes * (perNode * size) == |packIndex| * size && AreInverse(log2mlog, mlog2log)
    requires 0 <= nd * (perNode * size) <= nd * (perNode * size) + perNode * size <= |mlog2log|
    ensures forall y :: 0 <= y < perNode * size ==>
              ExpertTags(packIndex, size)[Members(mlog2log, perNode * size, nd)[y]] == nd
    ensures forall e :: 0 <= e < |mlog2log| && ExpertTags(packIndex, size)[e] == nd ==>
              e in Members(mlog2log, perNode * size, nd)
  {
    var experts := perNode * size;
    var members, tags := Members(mlog2log, experts, nd), ExpertTags(packIndex, size);
    forall e | 0 <= e < |mlog2log| ensures experts > 0 && log2mlog[e] / experts == tags[e] {
      NestedCell(nodes, 0, 0, perNode, size);
      NodeOfExpert(packIndex, rank, nodes, perNode, size, e);
    }
    forall y | 0 <= y < experts ensures tags[members[y]] == nd {
      assert log2mlog[members[y]] == nd * experts + y;
      CellDivMod(nd, y, experts);
    }
    forall e | 0 <= e < |mlog2log| && tags[e] == nd ensures e in members {
      var x := log2mlog[e];
      DivModFacts(x, experts);
      assert x == nd * experts + x % experts;
      assert members[x % experts] == mlog2log[x] == e;
    }
  }

  /** A node's experts weigh what the pack of their groups weighs. */
  lemma NodeWeightsArePack(w: seq<real>, packIndex: seq<int>, rank: seq<int>, log2mlog: seq<int>, mlog2log: seq<int>,
                           nodes: nat, perNode: nat, size: nat, nd: nat)
    requires size > 0 && IsPlacement(packIndex, rank, nodes, perNode) && nd < nodes
    requires log2mlog == BlockMove(Slots(packIndex, rank, perNode), size)
    requires |w| == |mlog2log| == nodes * (perNode * size) == |packIndex| * size && AreInverse(log2mlog, mlog2log)
    requires 0 <= nd * (perNode * size) <= nd * (perNode * size) + perNode * size <= |mlog2log|
    ensures Sum(NodeWeights(w, mlog2log, perNode * size, nd)) == TagTotal(GroupTokens(w, |packIndex|, size), packIndex, nd)
  {
    var members := Members(mlog2log, perNode * size, nd);
    MembersArePack(packIndex, rank, log2mlog, mlog2log, nodes, perNode, size, nd);
    MembersDistinct(log2mlog, mlog2log, perNode * size, nd);
    TagTotalByListing(w, ExpertTags(packIndex, size), nd, members);
    GroupTotals(w, packIndex, size, nd);
    assert NodeWeights(w, mlog2log, perNode * size, nd) == Gather(w, members);
  }

  lemma MembersDistinct(log2mlog: seq<int>, mlog2log: seq<int>, experts: nat, nd: nat)
    requires AreInverse(log2mlog, mlog2log)
    requires 0 <= nd * experts <= nd * experts + experts <= |mlog2log|
    ensures forall x, y :: 0 <= x < y < experts ==> Members(mlog2log, experts, nd)[x] != Members(mlog2log, experts, nd)[y]
  {
    var members := Members(mlog2log, experts, nd);
    forall x, y | 0 <= x < y < experts ensures members[x] != members[y] {
      assert log2mlog[members[x]] == nd * experts + x && log2mlog[members[y]] == nd * experts + y;
    }
  }

  /** Load of node `nd`. */
  ghost function NodeTotal(loads: seq<real>, nodes: nat, slots: nat, nd: nat): (r: real)
    requires |loads| == nodes * slots && nd < nodes
    ensures 0 <= nd * slots <= nd * slots + slots <= |loads|
  {
    RowInRange(nd, nodes, slots);
    Sum(loads[nd * slots..nd * slots + slots])
  }

  /** Loads of any two nodes differ by at most the heaviest group minus the lightest. */
  ghost predicate NodesWithinSpread(w: seq<real>, loads: seq<real>, groups: nat, size: nat, nodes: nat, slots: nat) {
    && |w| == groups * size && |loads| == nodes * slots
    && forall lo, hi, a, c ::
         lo <= hi && Bounds(GroupTokens(w, groups, size), lo, hi) && 0 <= a < nodes && 0 <= c < nodes ==>
         NodeTotal(loads, nodes, slots, a) - NodeTotal(loads, nodes, slots, c) <= hi - lo
  }

  lemma NodeTotalIs(loads: seq<real>, nodes: nat, slots: nat, nd: nat, part: seq<real>)
    requires |loads| == nodes * slots && nd < nodes && 0 <= nd * slots <= nd * slots + slots <= |loads|
    requires loads[nd * slots..nd * slots + slots] == part
    ensures NodeTotal(loads, nodes, slots, nd) == Sum(part)
  {
  }

  /** A node carries the load of its experts. */
  lemma AssembledNodeTotal(w: seq<real>, plans: seq<NodePlan>, log2mlog: seq<int>, mlog2log: seq<int>,
                           experts: nat, slots: nat, nd: nat)
    requires ArePlans(plans, experts, slots) && nd < |plans|
    requires |w| == |mlog2log| == |plans| * experts && AreInverse(log2mlog, mlog2log)
    requires 0 <= nd * experts <= nd * experts + experts <= |w|
    ensures NodeTotal(AssembledLoad(w, plans, log2mlog, mlog2log, experts, slots), |plans|, slots, nd)
         == Sum(NodeWeights(w, mlog2log, experts, nd))
  {
    RowInRange(nd, |plans|, slots);
    var plan, own := plans[nd], NodeWeights(w, mlog2log, experts, nd);
    var part := Loads(own, plan.slots, plan.cnt);
    AssembledLoads(w, plans, log2mlog, mlog2log, experts, slots, nd, part, nd * slots);
    NodeTotalIs(AssembledLoad(w, plans, log2mlog, mlog2log, experts, slots), |plans|, slots, nd, part);
    LoadsConserve(own, plan.slots, plan.rank, plan.cnt);
  }

  /** Packing groups onto nodes balances the nodes. */
  lemma AssembledSpread(w: seq<real>, plans: seq<NodePlan>, packIndex: seq<int>, rank: seq<int>, log2mlog: seq<int>,
                        mlog2log: seq<int>, perNode: nat, size: nat, slots: nat)
    requires size > 0 && IsPlacement(packIndex, rank, |plans|, perNode)
    requires ArePlans(plans, perNode * size, slots)
    requires log2mlog == BlockMove(Slots(packIndex, rank, perNode), size)
    requires |w| == |mlog2log| == |plans| * (perNode * size) == |packIndex| * size && AreInverse(log2mlog, mlog2log)
    requires WithinSpread(GroupTokens(w, |packIndex|, size), packIndex, |plans|)
    ensures NodesWithinSpread(w, AssembledLoad(w, plans, log2mlog, mlog2log, perNode * size, slots),
                              |packIndex|, size, |plans|, slots)
  {
    var all := AssembledLoad(w, plans, log2mlog, mlog2log, perNode * size, slots);
    forall nd | 0 <= nd < |plans|
      ensures NodeTotal(all, |plans|, slots, nd) == TagTotal(GroupTokens(w, |packIndex|, size), packIndex, nd)
    {
      RowInRange(nd, |plans|, perNode * size);
      AssembledNodeTotal(w, plans, log2mlog, mlog2log, perNode * size, slots, nd);
      NodeWeightsArePack(w, packIndex, rank, log2mlog, mlog2log, |plans|, perNode, size, nd);
    }
  }

  /** Node `nd` holds a replica of expert `e`. */
  ghost predicate OnNode(phy2log: seq<int>, slots: nat, nd: nat, e: int)
    requires slots > 0
  {
    exists p :: 0 <= p < |phy2log| && p / slots == nd && phy2log[p] == e
  }

  /** `members` are the experts of node `nd`, and no other way of sharing out the node's slots among them has a
      lighter heaviest replica. */
  ghost predicate RosterOptimal(w: seq<real>, phy2log: seq<int>, cnt: seq<int>, slots: nat, nd: nat, members: seq<int>)
    requires |w| == |cnt| && slots > 0
  {
    && |members| > 0 && (forall y :: 0 <= y < |members| ==> 0 <= members[y] < |w|)
    && (forall x, y :: 0 <= x < y < |members| ==> members[x] != members[y])
    && (forall e :: e in members <==> OnNode(phy2log, slots, nd, e))
    && IsReplicaCount(Gather(cnt, members), |members|, slots)
    && IsOptimalCount(Gather(w, members), Gather(cnt, members), slots)
  }

  ghost predicate NodeWellReplicated(w: seq<real>, phy2log: seq<int>, cnt: seq<int>, slots: nat, nd: nat)
    requires |w| == |cnt| && slots > 0
  {
    exists members :: RosterOptimal(w, phy2log, cnt, slots, nd, members)
  }

  lemma MemberHasSlot(plans: seq<NodePlan>, mlog2log: seq<int>, experts: nat, slots: nat, nd: nat, y: nat)
    requires ArePlans(plans, experts, slots) && nd < |plans| && |mlog2log| == |plans| * experts && y < experts
    requires 0 <= nd * experts <= nd * experts + experts <= |mlog2log|
    ensures OnNode(Phy2Log(plans, mlog2log, experts, slots), slots, nd, mlog2log[nd * experts + y])
  {
    CellInRange(nd, y, |plans|, experts);
    CellDivMod(nd, y, experts);
    var p := AssembledReplica(plans, experts, slots, nd * experts + y, 0);
    assert Phy2Log(plans, mlog2log, experts, slots)[p] == mlog2log[nd * experts + y];
  }

  lemma SlotHoldsMember(plans: seq<NodePlan>, mlog2log: seq<int>, experts: nat, slots: nat, nd: nat, p: nat)
    requires ArePlans(plans, experts, slots) && nd < |plans| && |mlog2log| == |plans| * experts
    requires 0 <= nd * experts <= nd * experts + experts <= |mlog2log|
    requires p < |plans| * slots && p / slots == nd
    ensures Phy2Log(plans, mlog2log, experts, slots)[p] in Members(mlog2log, experts, nd)
  {
    var x := Renumbered(plans, experts, slots, p);
    DivModFacts(x, experts);
    assert Members(mlog2log, experts, nd)[x % experts] == mlog2log[x];
  }

  lemma MembersOnNode(plans: seq<NodePlan>, mlog2log: seq<int>, experts: nat, slots: nat, nd: nat, e: int)
    requires ArePlans(plans, experts, slots) && nd < |plans| && |mlog2log| == |plans| * experts
    requires 0 <= nd * experts <= nd * experts + experts <= |mlog2log|
    ensures e in Members(mlog2log, experts, nd) <==> OnNode(Phy2Log(plans, mlog2log, experts, slots), slots, nd, e)
  {
    var members, f := Members(mlog2log, experts, nd), Phy2Log(plans, mlog2log, experts, slots);
    if e in members {
      var y :| 0 <= y < experts && members[y] == e;
      MemberHasSlot(plans, mlog2log, experts, slots, nd, y);
    }
    if OnNode(f, slots, nd, e) {
      var p :| 0 <= p < |f| && p / slots == nd && f[p] == e;
      SlotHoldsMember(plans, mlog2log, experts, slots, nd, p);
    }
  }

  lemma MemberCounts(plans: seq<NodePlan>, log2mlog: seq<int>, mlog2log: seq<int>, experts: nat, slots: nat, nd: nat)
    requires ArePlans(plans, experts, slots) && nd < |plans| && |mlog2log| == |plans| * experts
    requires AreInverse(log2mlog, mlog2log)
    requires 0 <= nd * experts <= nd * experts + experts <= |mlog2log|
    ensures Gather(LogCnt(plans, log2mlog, experts, slots), Members(mlog2log, experts, nd)) == plans[nd].cnt
  {
    var members, c := Members(mlog2log, experts, nd), LogCnt(plans, log2mlog, experts, slots);
    forall y | 0 <= y < experts ensures c[members[y]] == plans[nd].cnt[y] {
      CellDivMod(nd, y, experts);
      assert log2mlog[members[y]] == nd * experts + y;
    }
  }

  /** Every node's replica counts are optimal for the experts it was given. */
  lemma AssembledCounts(w: seq<real>, plans: seq<NodePlan>, log2mlog: seq<int>, mlog2log: seq<int>,
                        experts: nat, gpus: nat, perGpu: nat, nd: nat)
    requires ArePlans(plans, experts, gpus * perGpu) && nd < |plans|
    requires |w| == |mlog2log| == |plans| * experts && AreInverse(log2mlog, mlog2log)
    requires PlanFits(w, mlog2log, experts, gpus, perGpu, nd, plans[nd])
    ensures NodeWellReplicated(w, Phy2Log(plans, mlog2log, experts, gpus * perGpu),
                               LogCnt(plans, log2mlog, experts, gpus * perGpu), gpus * perGpu, nd)
  {
    var slots := gpus * perGpu;
    var members := Members(mlog2log, experts, nd);
    MemberCounts(plans, log2mlog, mlog2log, experts, slots, nd);
    MembersDistinct(log2mlog, mlog2log, experts, nd);
    assert NodeWeights(w, mlog2log, experts, nd) == Gather(w, members);
    forall e ensures e in members <==> OnNode(Phy2Log(plans, mlog2log, experts, slots), slots, nd, e) {
      MembersOnNode(plans, mlog2log, experts, slots, nd, e);
    }
    assert RosterOptimal(w, Phy2Log(plans, mlog2log, experts, slots), LogCnt(plans, log2mlog, experts, slots),
                         slots, nd, members);
  }

  /* ----- One layer ----- */

  /** All slots of all experts of a group lie on one node. */
  ghost predicate GroupsStayTogether(phy2log: seq<int>, groupSize: nat, slotsPerNode: nat) {
    groupSize > 0 && slotsPerNode > 0 &&
    forall p, q :: 0 <= p < |phy2log| && 0 <= q < |phy2log| && phy2log[p] / groupSize == phy2log[q] / groupSize ==>
      p / slotsPerNode == q / slotsPerNode
  }

  /** On every node, GPU loads are within the node's replica spread of each other. */
  ghost predicate NodesBalanced(loads: seq<real>, nodes: nat, gpusPerNode: nat, perGpu: nat) {
    forall nd {:trigger nd * (gpusPerNode * perGpu)} :: 0 <= nd < nodes ==>
      var lo := nd * (gpusPerNode * perGpu);
      0 <= lo <= lo + gpusPerNode * perGpu <= |loads| &&
      GpusBalanced(loads[lo..lo + gpusPerNode * perGpu], gpusPerNode, perGpu)
  }

  /** Nodes, groups per node, experts per group, GPUs per node and slots per GPU. */
  datatype Dims = Dims(nodes: nat, groupsPerNode: nat, groupSize: nat, gpusPerNode: nat, perGpu: nat)

  /** Groups stay together, node loads are within the group spread, GPU loads within the replica spread of their node,
      and every node replicates its experts optimally. */
  ghost predicate PlacedOn(w: seq<real>, phy2log: seq<int>, cnt: seq<int>, groups: nat, size: nat,
                           nodes: nat, gpusPerNode: nat, perGpu: nat) {
    var slots := gpusPerNode * perGpu;
    && |w| == |cnt| && |phy2log| == nodes * slots && slots > 0
    && (forall p :: 0 <= p < |phy2log| ==> 0 <= phy2log[p] < |w|)
    && (forall e :: 0 <= e < |cnt| ==> cnt[e] >= 1)
    && GroupsStayTogether(phy2log, size, slots)
    && NodesBalanced(Loads(w, phy2log, cnt), nodes, gpusPerNode, perGpu)
    && NodesWithinSpread(w, Loads(w, phy2log, cnt), groups, size, nodes, slots)
    && NodesReplicateWell(w, phy2log, cnt, slots, nodes)
  }

  /** Everything the placement of one layer promises; besides, slots and replicas correspond one to one. */
  ghost predicate IsLayerPlacement(w: seq<real>, phy2log: seq<int>, rank: seq<int>, cnt: seq<int>, d: Dims) {
    && IsReplicaMap(phy2log, rank, cnt)
    && PlacedOn(w, phy2log, cnt, d.nodes * d.groupsPerNode, d.groupSize, d.nodes, d.gpusPerNode, d.perGpu)
  }

  ghost predicate NodesReplicateWell(w: seq<real>, phy2log: seq<int>, cnt: seq<int>, slots: nat, nodes: nat)
    requires |w| == |cnt| && slots > 0
  {
    forall nd :: 0 <= nd < nodes ==> NodeWellReplicated(w, phy2log, cnt, slots, nd)
  }

  function GroupTokens(w: seq<real>, groups: nat, size: nat): (r: seq<real>)
    requires |w| == groups * size
    ensures |r| == groups
  {
    assert forall g {:trigger g * size} :: 0 <= g < groups ==> 0 <= g * size <= g * size + size <= |w| by {
      forall g | 0 <= g < groups ensures 0 <= g * size <= g * size + size <= |w| { RowInRange(g, groups, size); }
    }
    seq(groups, g requires 0 <= g < groups => Sum(w[g * size..g * size + size]))
  }

  lemma GroupTokensNonNegative(w: seq<real>, groups: nat, size: nat)
    requires |w| == groups * size && NonNegative(w)
    ensures NonNegative(GroupTokens(w, groups, size))
  {
    forall g | 0 <= g < groups ensures GroupTokens(w, groups, size)[g] >= 0.0 {
      RowInRange(g, groups, size);
      SumNonNegative(w[g * size..g * size + size]);
    }
  }

  lemma AssembledGroups(plans: seq<NodePlan>, packIndex: seq<int>, rank: seq<int>, log2mlog: seq<int>,
                        mlog2log: seq<int>, perNode: nat, size: nat, slots: nat)
    requires size > 0 && IsPlacement(packIndex, rank, |plans|, perNode)
    requires ArePlans(plans, perNode * size, slots)
    requires log2mlog == BlockMove(Slots(packIndex, rank, perNode), size)
    requires |mlog2log| == |plans| * (perNode * size) && AreInverse(log2mlog, mlog2log)
    ensures GroupsStayTogether(Phy2Log(plans, mlog2log, perNode * size, slots), size, slots)
  {
    var f := Phy2Log(plans, mlog2log, perNode * size, slots);
    forall p | 0 <= p < |f| ensures 0 <= f[p] / size < |rank| && p / slots == packIndex[f[p] / size] {
      var x := Renumbered(plans, perNode * size, slots, p);
      assert log2mlog[f[p]] == x;
      NestedCell(|plans|, 0, 0, perNode, size);
      NodeOfExpert(packIndex, rank, |plans|, perNode, size, f[p]);
    }
  }

  lemma AssembledBalance(w: seq<real>, plans: seq<NodePlan>, log2mlog: seq<int>, mlog2log: seq<int>,
                         experts: nat, gpus: nat, perGpu: nat)
    requires ArePlans(plans, experts, gpus * perGpu)
    requires |w| == |mlog2log| == |plans| * experts && AreInverse(log2mlog, mlog2log)
    requires forall nd :: 0 <= nd < |plans| ==> PlanFits(w, mlog2log, experts, gpus, perGpu, nd, plans[nd])
    ensures NodesBalanced(AssembledLoad(w, plans, log2mlog, mlog2log, experts, gpus * perGpu), |plans|, gpus, perGpu)
  {
    var slots := gpus * perGpu;
    var all := AssembledLoad(w, plans, log2mlog, mlog2log, experts, slots);
    forall nd {:trigger nd * slots} | 0 <= nd < |plans|
      ensures 0 <= nd * slots <= nd * slots + slots <= |all|
      ensures GpusBalanced(all[nd * slots..nd * slots + slots], gpus, perGpu)
    {
      RowInRange(nd, |plans|, slots);
      var own := Loads(NodeWeights(w, mlog2log, experts, nd), plans[nd].slots, plans[nd].cnt);
      AssembledLoads(w, plans, log2mlog, mlog2log, experts, slots, nd, own, nd * slots);
    }
  }

  /** All promises about a layer, from what its stages deliver. */
  lemma AssembledPlacement(w: seq<real>, plans: seq<NodePlan>, packIndex: seq<int>, rank: seq<int>, log2mlog: seq<int>,
                           mlog2log: seq<int>, d: Dims, experts: nat, slots: nat)
    requires d.groupSize > 0 && experts == d.groupsPerNode * d.groupSize && slots == d.gpusPerNode * d.perGpu
    requires |plans| == d.nodes && IsPlacement(packIndex, rank, d.nodes, d.groupsPerNode) && ArePlans(plans, experts, slots)
    requires log2mlog == BlockMove(Slots(packIndex, rank, d.groupsPerNode), d.groupSize)
    requires |w| == |mlog2log| == d.nodes * experts == |packIndex| * d.groupSize && AreInverse(log2mlog, mlog2log)
    requires WithinSpread(GroupTokens(w, |packIndex|, d.groupSize), packIndex, d.nodes)
    requires forall nd :: 0 <= nd < |plans| ==> PlanFits(w, mlog2log, experts, d.gpusPerNode, d.perGpu, nd, plans[nd])
    ensures IsLayerPlacement(w, Phy2Log(plans, mlog2log, experts, slots), PhyRank(plans, experts, slots),
                             LogCnt(plans, log2mlog, experts, slots), d)
  {
    AssembledReplicaMap(plans, log2mlog, mlog2log, experts, slots);
    AssembledGroups(plans, packIndex, rank, log2mlog, mlog2log, d.groupsPerNode, d.groupSize, slots);
    AssembledBalance(w, plans, log2mlog, mlog2log, experts, d.gpusPerNode, d.perGpu);
    AssembledSpread(w, plans, packIndex, rank, log2mlog, mlog2log, d.groupsPerNode, d.groupSize, slots);
    AllCounts(w, plans, log2mlog, mlog2log, experts, d.gpusPerNode, d.perGpu);
  }

  lemma AllCounts(w: seq<real>, plans: seq<NodePlan>, log2mlog: seq<int>, mlog2log: seq<int>,
                  experts: nat, gpus: nat, perGpu: nat)
    requires ArePlans(plans, experts, gpus * perGpu)
    requires |w| == |mlog2log| == |plans| * experts && AreInverse(log2mlog, mlog2log)
    requires forall nd :: 0 <= nd < |plans| ==> PlanFits(w, mlog2log, experts, gpus, perGpu, nd, plans[nd])
    ensures NodesReplicateWell(w, Phy2Log(plans, mlog2log, experts, gpus * perGpu),
                               LogCnt(plans, log2mlog, experts, gpus * perGpu), gpus * perGpu, |plans|)
  {
    var f, c := Phy2Log(plans, mlog2log, experts, gpus * perGpu), LogCnt(plans, log2mlog, experts, gpus * perGpu);
    forall nd | 0 <= nd < |plans| ensures NodeWellReplicated(w, f, c, gpus * perGpu, nd) {
      AssembledCounts(w, plans, log2mlog, mlog2log, experts, gpus, perGpu, nd);
    }
  }

  method RebalanceLayer(w: seq<real>, d: Dims) returns (phy2log: seq<int>, rank: seq<int>, cnt: seq<int>)
    requires NonNegative(w) && |w| == d.nodes * d.groupsPerNode * d.groupSize
    requires d.nodes > 0 && d.gpusPerNode > 0 && 0 < d.groupsPerNode * d.groupSize <= d.gpusPerNode * d.perGpu
    requires d.groupSize > 0
    ensures IsLayerPlacement(w, phy2log, rank, cnt, d)
  {
    var experts, slots := d.groupsPerNode * d.groupSize, d.gpusPerNode * d.perGpu;
    NestedCell(d.nodes, 0, 0, d.groupsPerNode, d.groupSize);
    var tokensPerGroup := GroupTokens(w, d.nodes * d.groupsPerNode, d.groupSize);
    GroupTokensNonNegative(w, d.nodes * d.groupsPerNode, d.groupSize);
    MulDivides(d.nodes, d.groupsPerNode);
    var packIndex, rankInPack := BalancedPacking(tokensPerGroup, d.nodes);
    PlacementFillsSlots(packIndex, rankInPack, d.nodes, d.groupsPerNode);
    var log2mlog := BlockMove(Slots(packIndex, rankInPack, d.groupsPerNode), d.groupSize);
    BlockMovePermutes(Slots(packIndex, rankInPack, d.groupsPerNode), d.groupSize);
    var mlog2log := Inverse(log2mlog);
    var plans := PlanNodes(w, mlog2log, d.nodes, experts, d.gpusPerNode, d.perGpu);
    phy2log := Phy2Log(plans, mlog2log, experts, slots);
    rank := PhyRank(plans, experts, slots);
    cnt := LogCnt(plans, log2mlog, experts, slots);
    AssembledPlacement(w, plans, packIndex, rankInPack, log2mlog, mlog2log, d, experts, slots);
  }

  method PlanNodes(w: seq<real>, mlog2log: seq<int>, nodes: nat, experts: nat, gpus: nat, perGpu: nat)
    returns (plans: seq<NodePlan>)
    requires NonNegative(w) && |w| == |mlog2log| == nodes * experts
    requires forall x :: 0 <= x < |w| ==> 0 <= mlog2log[x] < |w|
    requires gpus > 0 && 0 < experts <= gpus * perGpu
    ensures |plans| == nodes && ArePlans(plans, experts, gpus * perGpu)
    ensures forall nd :: 0 <= nd < nodes ==> PlanFits(w, mlog2log, experts, gpus, perGpu, nd, plans[nd])
  {
    plans := [];
    for nd := 0 to nodes
      invariant |plans| == nd && ArePlans(plans, experts, gpus * perGpu)
      invariant forall i :: 0 <= i < nd ==> PlanFits(w, mlog2log, experts, gpus, perGpu, i, plans[i])
    {
      RowInRange(nd, nodes, experts);
      var plan := PlanNode(NodeWeights(w, mlog2log, experts, nd), gpus, perGpu);
      plans := plans + [plan];
    }
  }
}
