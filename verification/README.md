# Verified models of vllm-ascend's scheduling, placement and data-movement logic

vllm-ascend is the Ascend NPU plugin of vLLM. Most of it wraps tensor libraries; this project models the parts that
carry integer, sequence and state logic, and proves what they are for:

* **Expert-parallel load balancer** (`Packing`, `UnluckyPacking`, `BestPacking`, `Replication`, `Rebalance`, `ExpertMaps`,
  `Deploy`): greedy packing, greedy replication, and the three-stage placement of expert replicas on nodes and GPUs.
  Main results: the packing bound, the exact shapes for which greedy packing is best, optimality of replication, exact
  inverse maps, and, end to end, a bound on how far the heaviest GPU is from the mean.
* **Prefill-first scheduler** (`SchedulerState`, `Scheduler`, `SchedulerRun`): the two-pass `schedule` step on mutable
  queues, and an invariant over every interleaving of scheduling, model outputs, arrivals and aborts.
* **KV transfer** (`TaskTracker`, `TransferProtocol`, `TransferOnce`, `ConnectorScheduler`, `BlockGroups`, `BlockCopy`):
  completion counting as a message protocol, one transfer per request, and grouped copies that equal block-by-block copies.
* **MLA attention batches** (`BatchReorder`, `BatchSplit`, `ContextChunks`): reordering with the fewest swaps, the
  border between decodes and prefills, chunking under a workspace bound.
* **Data permutations** (`ExpertSort`, `MoeDispatch`, `WindowGrid`, `WindowIndex`, `TensorLayout`): MoE
  dispatch/combine, vision windows, tensor-parallel layout exchanges.
* **Attention masks** (`AttentionMask`): the cached fast path against the row-by-row construction.

`Common`, `Sums` and `Indexing` hold shared types and facts about sequences, sums, permutations and row-major index
arithmetic. Objects the source mutates are classes or arrays here; each method is tied to a function or relation on the
abstract state, and the theorems are about that. `dafny verify dfyconfig.toml` checks everything.

Conventions: token loads, weights and activations are exact reals; tensors are sequences (one layer, one row, or one
hidden component at a time where the source broadcasts); answers of components outside the model (cache manager,
connector, model step) are arbitrary values within a stated contract.

Where the code and its documentation differ, the model follows the code:

* `balanced_packing` promises packs "as balanced as possible". The greedy method keeps that promise, for the heaviest
  pack, exactly when packs hold at most two items or there is a single pack: `BestPacking.GreedyBestIff`.
* The mask cache is keyed by length only. A call with another dtype than the cached one is served the cached mask;
  `AttentionMask.ServedAfterCalls` says exactly when the mask served is the one asked for.
* A request id is popped from the completion counts when complete, so duplicate signals that arrive later start a new
  count. `TransferOnce.OnceIffSomeRankIsNotRepeated` says exactly which repetitions the tracker tolerates.

## Model

| member | source | states |
|---|---|---|
| `BestPacking.BalancedPacking` | examples/eplb/eplb_deepseek.py:26-56 | Every pack gets exactly n/m items on distinct ranks 0..n/m-1, and any two pack totals differ by at most the largest weight minus the smallest. With one pack or at most two items per pack no placement has a lighter heaviest pack; for every larger shape there are weights for which one has. |
| `Packing.GreedyPacking` | examples/eplb/eplb_deepseek.py:37-56 | The same for the greedy loop, whose result is the run that takes the items in descending order, each to the first of the lightest packs with room. |
| `BestPacking.GreedyBestIff` | examples/eplb/eplb_deepseek.py:15-56 | For m packs of k items, greedy has the lightest possible heaviest pack for all non-negative weights, all ways of sorting ties and all runs, if and only if k <= 2 or m <= 1. |
| `BestPacking.GreedyIsBest` | examples/eplb/eplb_deepseek.py:37-56 | The if direction, run by run. |
| `BestPacking.PairReached` | examples/eplb/eplb_deepseek.py:46-55 | Putting a second item onto the lightest open pack makes it no heavier than some pack of any other placement (a pigeonhole over all items placed so far). |
| `BestPacking.GreedyNotOptimal` | examples/eplb/eplb_deepseek.py:15-56 | The only-if direction: for m >= 2 and k >= 3, sixes, two threes, three twos and zeros are packed with a pack of at least seven in every descending order and every greedy run, although all packs could weigh six. |
| `UnluckyPacking.SortedValues` | examples/eplb/eplb_deepseek.py:37 | However ties are sorted, the t-th item of a descending order weighs as much as the t-th heaviest item. |
| `Packing.SortDescending` | examples/eplb/eplb_deepseek.py:37 | The placement order is a permutation by non-increasing weight. |
| `Packing.LightestOpenPack` | examples/eplb/eplb_deepseek.py:47-51 | The chosen pack has room and is the first of the lightest among those with room. |
| `Packing.PackedStep` | examples/eplb/eplb_deepseek.py:46-55 | One placement keeps the whole loop invariant: ranks, tallies, and the pairwise balance with respect to the next weight. |
| `Packing.BalancedStep` | examples/eplb/eplb_deepseek.py:46-55 | Placing on the lightest open pack keeps W_A - W_C + (n_C - n_A) w <= w_max - w for every pair of packs and every lighter next weight. |
| `Packing.PlacementFillsSlots` | examples/eplb/eplb_deepseek.py:139-140 | Laying packs out one after the other turns (pack, rank) into a permutation of all slots. |
| `Replication.ReplicateExperts` | examples/eplb/eplb_deepseek.py:74-88 | Slots correspond one to one to pairs (expert, rank below its count), counts are at least one and add up to `num_phy`, and no other such counts have a lighter heaviest replica. |
| `Replication.GreedyIsOptimal` | examples/eplb/eplb_deepseek.py:83-87 | Counts reached greedily have the smallest possible maximum weight per replica among all assignments of as many replicas. |
| `Replication.GreedyCountStep` | examples/eplb/eplb_deepseek.py:84-87 | Giving a replica to the heaviest expert keeps: an expert with c >= 2 replicas would, with one fewer, be at least as loaded per replica as every expert is now. |
| `Replication.HeaviestExpert` | examples/eplb/eplb_deepseek.py:84 | The expert picked has the largest load per replica. |
| `Replication.ReplicaMapStep` | examples/eplb/eplb_deepseek.py:85-87 | Appending a replica at the old count keeps the slot/replica correspondence. |
| `Sums.Inverse` | examples/eplb/eplb_deepseek.py:116-122 | The scatter yields the two-sided inverse of a permutation. |
| `Rebalance.BlockMovePermutes` | examples/eplb/eplb_deepseek.py:128-132 | Renumbering experts by moving whole groups is a permutation. |
| `Rebalance.NodeOfExpert` | examples/eplb/eplb_deepseek.py:126-133 | After renumbering, an expert's node is the pack its group was put into. |
| `Rebalance.PlanNode` | examples/eplb/eplb_deepseek.py:135-146 | One node: optimal replica counts, a one-to-one slot map, and GPU loads within the spread of the node's replica loads. |
| `Rebalance.PacksBecomeGpus` | examples/eplb/eplb_deepseek.py:142-148 | Moving replicas to their slots turns pack totals into GPU loads, so the packing bound becomes a bound on GPU loads. |
| `Rebalance.AssembledReplicaMap` | examples/eplb/eplb_deepseek.py:150-160 | The maps put together from all nodes are again a one-to-one correspondence of slots and replicas. |
| `Rebalance.AssembledGroups` | examples/eplb/eplb_deepseek.py:124-158 | All replicas of all experts of a group lie on one node. |
| `Rebalance.AssembledBalance` | examples/eplb/eplb_deepseek.py:142-160 | In global slot numbers, GPU loads inside a node differ by at most the node's heaviest minus lightest replica. |
| `Rebalance.AssembledSpread` | examples/eplb/eplb_deepseek.py:124-160 | Total loads of any two nodes differ by at most the heaviest minus the lightest expert group. |
| `Rebalance.AssembledCounts` | examples/eplb/eplb_deepseek.py:135-160 | On every node the replica counts of exactly its experts are optimal for the node's slots. |
| `Rebalance.LoadsConserve` | examples/eplb/eplb_deepseek.py:144 | Spreading experts over their replicas neither adds nor loses load. |
| `Rebalance.RebalanceLayer` | examples/eplb/eplb_deepseek.py:107-160 | One layer through all three stages: slot/replica correspondence, groups on one node, node totals within the group spread, GPU loads within the node's replica spread, optimal counts per node. |
| `ExpertMaps.ScatterSlots` | examples/eplb/eplb_deepseek.py:192-201 | The flat table holds slot p at row `phy2log[p]`, column `rank[p]`, and -1 everywhere else. |
| `ExpertMaps.InvertLayer` | examples/eplb/eplb_deepseek.py:192-201 | `log2phy[e][r]` is p exactly when slot p holds expert e with rank r; entries from the count on are -1; every slot appears. |
| `ExpertMaps.DimsFit` | examples/eplb/eplb_deepseek.py:182-190 | Both policies, hierarchical and the one-node fallback, give dimensions that multiply out to the experts, replicas and GPUs asked for. |
| `ExpertMaps.DimsAreAsked` | examples/eplb/eplb_deepseek.py:182-190 | The dimensions chosen are the caller's: whole groups of `experts / num_groups` on `num_nodes` nodes if the nodes divide the groups, otherwise one group on one node. |
| `ExpertMaps.RebalanceExperts` | examples/eplb/eplb_deepseek.py:180-202 | For every layer, in the caller's numbers: every group on one of `num_nodes` nodes (or everything on one node when the nodes do not divide the groups), node, GPU and replica bounds as above, and maps that are exact inverses of each other; the table is as wide as the largest count. |
| `Deploy.LocalExperts` | examples/eplb/eplb_strategy.py:108-117 | Every GPU gets its own stretch of `num_physical / num_gpus` slots of the slot map. |
| `Deploy.Redistribute` | examples/eplb/eplb_strategy.py:130-139 | The accumulated slot loads are each replica's even share, and their total is the layer's workload. |
| `Deploy.RowSumsTotal` | examples/eplb/eplb_strategy.py:140-141 | GPU loads together make up the whole load. |
| `Deploy.NodeGpusClose` | examples/eplb/eplb_strategy.py:130-142 | Two GPUs of one node, by global number, differ in load by at most the node's replica spread. |
| `Deploy.HeaviestNearMean` | examples/eplb/eplb_strategy.py:128-142 | No GPU exceeds the mean by more than (node difference)/(GPUs per node) plus the replica spread. |
| `Deploy.HeaviestGpu` | examples/eplb/eplb_strategy.py:125-142 | The reported maximum is attained, bounds all GPUs and is no less than the mean. |
| `Deploy.DeepseekDeploy` | examples/eplb/eplb_strategy.py:94-145 | For every layer, in the caller's numbers: the placement of `RebalanceExperts`, GPU slices, conserved load, the heaviest GPU before and after and the mean as reported, and balanced maximum <= mean + group spread / GPUs per node + replica spread. |
| `SchedulerState.ExtendLeft` | vllm_ascend/core/scheduler.py:244-246 | Putting a deque back with `extendleft` reverses it in front of the queue. |
| `SchedulerState.PickPartition` | vllm_ascend/core/scheduler.py:88-246 | Skipped, ignored and admitted requests together are exactly the processed part of the queue. |
| `Scheduler.PutBack` | vllm_ascend/core/scheduler.py:95-97 | The two reversals cancel: the waiting queue ends as the skipped requests in their old order followed by the untouched rest. |
| `Scheduler.AscendScheduler.Decide` | vllm_ascend/core/scheduler.py:99-198 | Which branch is taken for the head of the queue, as an exact function of remote state, adapter limit, prompt limit, budget, watermark and slots; an admitted request gets a positive number of tokens within the budget. |
| `Scheduler.AscendScheduler.PrefillPass` | vllm_ascend/core/scheduler.py:88-246 | The pass is exactly its iterations, each a function of the state, the budget and the answers it got; it ends only with the queue, the budget, a full running list or refused slots. Every request looked at ends up as decided and no other is touched; what is dropped exceeds a limit and what is admitted exceeds none; the queue keeps its order; tokens plus remaining budget equal the initial budget, adapters and running list stay within limits. |
| `Scheduler.AscendScheduler.MakeRoom` | vllm_ascend/core/scheduler.py:284-312 | Terminates, keeps the decode invariant under any number of preemptions, and fails exactly when the request itself was preempted. |
| `Scheduler.AscendScheduler.TokensFor` | vllm_ascend/core/scheduler.py:259-276 | Tokens of a running request: the least of its need, the budget and the model length, zero exactly when nothing is needed or its adapter does not fit. |
| `Scheduler.AscendScheduler.DecodePass` | vllm_ascend/core/scheduler.py:250-345 | Terminates at the end of the list or of the budget and never preempts a request it has scheduled. A preempted request goes back to the queue as preempted with nothing computed. Every running request gets the least of its need, the room to the model length and the budget, none only for lack of one of these or of an adapter. |
| `Scheduler.NotYetScheduled` | vllm_ascend/core/scheduler.py:254-257 | The already-scheduled test of the decode loop never succeeds. |
| `SchedulerState.PreemptQueues` | vllm_ascend/core/scheduler.py:290-307 | Preempting leaves the sequence running ++ waiting as it was. |
| `SchedulerRun.PreemptionKeepsOrder` | vllm_ascend/core/scheduler.py:250-312 | So does a whole decode pass. |
| `Scheduler.AscendScheduler.AdvanceComputed` | vllm_ascend/core/scheduler.py:449-450 | Every scheduled request has its tokens added to the computed ones, no other request changes. |
| `Scheduler.AscendScheduler.Schedule` | vllm_ascend/core/scheduler.py:61-453 | One step is a prefill pass, followed by a decode pass only if nothing is in flight; all four closing assertions hold. Admitted requests end up computed to their last token, decoded ones advanced by their tokens with unscheduled speculation trimmed, preempted ones with nothing computed. |
| `Scheduler.PrefillCloses` | vllm_ascend/core/scheduler.py:347-353 | The closing assertions after a prefill pass. |
| `Scheduler.DecodeCloses` | vllm_ascend/core/scheduler.py:347-353 | The closing assertions after a decode pass. |
| `Scheduler.AscendScheduler.UpdateFromOutput` | vllm_ascend/core/scheduler.py:520-535 | Exactly the running requests with scheduled tokens in the output leave the in-flight set. |
| `Scheduler.AscendScheduler.FinishRequests` | vllm_ascend/core/scheduler.py:506-513 | Exactly the aborted requests that are running leave the in-flight set; queues lose exactly the aborted ids and keep their order. |
| `SchedulerRun.StepKeeps` | vllm_ascend/core/scheduler.py:61-453 | A scheduling step keeps the system invariant. |
| `SchedulerRun.TakeInKeeps` | vllm_ascend/core/scheduler.py:515-535 | Taking in any outstanding output, in any order, keeps it. |
| `SchedulerRun.AbortKeeps` | vllm_ascend/core/scheduler.py:496-513 | Aborting any collection of ids keeps it. |
| `SchedulerRun.StepOutputOk` | vllm_ascend/core/scheduler.py:215-257 | No output mixes prefill and decode requests, and its token map covers exactly its requests. |
| `SchedulerRun.RunSafe` | vllm_ascend/core/scheduler.py:215-257 | In every reachable state the in-flight set is the ids of outstanding outputs that are still running, no request is in two outstanding outputs, and queues hold distinct ids within the limits. |
| `SchedulerRun.DecodeAssertionHolds` | vllm_ascend/core/scheduler.py:261 | In every run, each request the decode pass looks at has exactly one token not computed yet, also after preemption and re-admission. |
| `SchedulerRun.ResumedFromCache` | vllm_ascend/core/scheduler.py:119-138 | In every run a resumed request had nothing computed and is scheduled for all its tokens beyond the prefix that the cache answered. |
| `SchedulerState.SkippedKeepOrder` | vllm_ascend/core/scheduler.py:95-97 | Skipped requests and the unprocessed rest keep the order of the old queue. |
| `Scheduler.DecisionWithinLimits` | vllm_ascend/core/scheduler.py:150-170 | A dropped request exceeds the cache, the adapter's limit, or without one the model length or a batch; a taken one is within all of them. |
| `TaskTracker.KVCacheTaskTracker.IncrementTaskCount` | vllm_ascend/distributed/mooncake_connector.py:113-127 | The new counts and finished set as a function of the old ones: duplicates ignored, the last missing rank completes. |
| `TaskTracker.KVCacheTaskTracker.UpdateDoneTaskCount` | vllm_ascend/distributed/mooncake_connector.py:106-111 | Rank 0 counts, every other rank relays. |
| `TaskTracker.KVCacheTaskTracker.GetAndClearFinishedRequests` | vllm_ascend/distributed/mooncake_connector.py:129-138 | Hands out all finished requests once and keeps the counts. |
| `TaskTracker.IncrementFacts` | vllm_ascend/distributed/mooncake_connector.py:113-127 | A signal completes its request exactly when all other ranks had signalled; other requests are untouched. |
| `TransferProtocol.NextSafe` | vllm_ascend/distributed/mooncake_connector.py:310-331 | Every protocol step, duplicates included, keeps: what is counted was signalled, what was signalled has ended. |
| `TransferProtocol.ReportedOnlyAfterAllRanks` | vllm_ascend/distributed/mooncake_connector.py:310-331 | In every run a request is reported, on either side, only after every rank has ended its transfer. |
| `TransferOnce.NextAccounted` | vllm_ascend/distributed/mooncake_connector.py:106-138 | Every step that does not repeat rank k's signal about r keeps that signal in exactly one place (under way, counted, or in the only completion), whatever else is repeated. |
| `TransferOnce.NextLanded` | vllm_ascend/distributed/mooncake_connector.py:106-138 | Every step, repetitions included, keeps: a signal sent is under way, counted, or its request has been completed. |
| `TransferOnce.ReportedExactlyOnce` | vllm_ascend/distributed/mooncake_connector.py:106-138 | In every run: once all ranks have signalled and the channel is empty the request has been reported at least once; and at most once if some rank's signal about it was not repeated. |
| `TransferOnce.RepeatedSignalsReportTwice` | vllm_ascend/distributed/mooncake_connector.py:115-124 | For every number of ranks and on either side there is a run, with real transfers, in which every rank's signal is repeated and the request is completed twice. |
| `TransferOnce.OnceIffSomeRankIsNotRepeated` | vllm_ascend/distributed/mooncake_connector.py:106-138 | If repetitions of r's signals come only from a given set of ranks, r is never completed twice, in any run, if and only if some rank is not in that set. |
| `ConnectorScheduler.NewMatchedTokens` | vllm_ascend/distributed/mooncake_connector.py:626-636 | All prompt tokens but one are loaded asynchronously for remote prefills of more than one token, none otherwise. |
| `ConnectorScheduler.RequestFinished` | vllm_ascend/distributed/mooncake_connector.py:703-720 | Blocks are kept back exactly for length-capped requests with remote decode and blocks, and the parameters handed over name these blocks and lead to a fetch exactly then. |
| `ConnectorScheduler.MooncakeConnectorScheduler.UpdateStateAfterAlloc` | vllm_ascend/distributed/mooncake_connector.py:648-664 | Queues the unhashed blocks (none without external tokens) if remote blocks and address are known, changes no other entry, and switches remote prefill off in any case. |
| `ConnectorScheduler.MooncakeConnectorScheduler.BuildConnectorMeta` | vllm_ascend/distributed/mooncake_connector.py:670-687 | Hands out every queued request with its local blocks and the remote blocks its parameters name, and empties the queue. |
| `ConnectorScheduler.AtMostOneTransfer` | vllm_ascend/distributed/mooncake_connector.py:648-687 | In every run each request starts at most one transfer, however often slots are allocated for it. |
| `ConnectorScheduler.KeptExactlyForTransfer` | vllm_ascend/distributed/mooncake_connector.py:648-720 | In every run in which requests with remote blocks take over from the prefill side, blocks are kept back there exactly for the requests of which one transfer is started, queued or still to come, and there is never a second. |
| `ConnectorScheduler.TransferFillsItsBlocks` | vllm_ascend/distributed/mooncake_connector.py:648-687 | In every run a started transfer fills exactly the blocks of the one allocation that queued it. |
| `ConnectorScheduler.TransferReadsKeptBlocks` | vllm_ascend/distributed/mooncake_connector.py:648-720 | In every such run a started transfer reads exactly the blocks with which the request ended on the prefill side, and these are kept there. |
| `BlockGroups.GroupingCorrect` | vllm_ascend/distributed/mooncake_connector.py:974-992 | Groups concatenate back to both lists, are non-empty, equally long and contiguous on both sides, and no two neighbours could be merged. |
| `BlockCopy.RunAsOne` | vllm_ascend/distributed/mooncake_connector.py:371-374 | One copy of a contiguous run moves the same bytes as its blocks one by one. |
| `BlockCopy.GroupsAsBlocks` | vllm_ascend/distributed/mooncake_connector.py:370-377 | All groups of a layer have the effect of the per-block copies, at every address. |
| `BlockCopy.TransferLists` | vllm_ascend/distributed/mooncake_connector.py:333-380 | The three lists built for all layers have, at every local address, the effect of copying block by block. If the local blocks are distinct and the layers' caches do not overlap, every byte of every block comes from the same byte of the remote block, with the layer's own block length (two in turns with MLA), nothing else is touched, and the order of the copies does not matter. |
| `BlockCopy.CoverOnce` | vllm_ascend/distributed/mooncake_connector.py:370-380 | With distinct blocks and separate layers, every local address is written at most once. |
| `BlockCopy.Reordered` | vllm_ascend/distributed/mooncake_connector.py:378-380 | Copies of which at most one writes an address leave the same byte there in any order. |
| `BatchReorder.ReorderBatch` | vllm_ascend/attention/mla_v1.py:222-261 | The batch is permuted by swaps, requests with one token come first, and no sequence of swaps that achieves this is shorter; the result tells whether anything moved. |
| `BatchReorder.SwapsNeeded` | vllm_ascend/attention/mla_v1.py:215-217 | Any swaps that bring decodes to the front are at least as many as the decodes that sit behind. |
| `BatchReorder.PrefillInFront` | vllm_ascend/attention/mla_v1.py:248-254 | While a decode sits behind the border, the next prefill from the front sits before it. |
| `BatchReorder.NoneLeft` | vllm_ascend/attention/mla_v1.py:248-256 | When the loop ends, by its range or by `break`, no decode is left behind the border. |
| `BatchSplit.SplitFindsBorder` | vllm_ascend/attention/utils.py:75-95 | On a reordered batch the split returns the number of decodes, as many decode tokens, the rest as prefills, and its assertions hold. |
| `BatchSplit.SplitMeaning` | vllm_ascend/attention/utils.py:75-95 | For any threshold the split fails exactly when a query below it follows one above it; otherwise the border is the first query above it, with the tokens before and after. |
| `BatchSplit.OffsetsAgree` | vllm_ascend/attention/mla_v1.py:313-316 | Token offsets may be used as request offsets exactly when no query is empty. |
| `BatchSplit.ReorderAndSplit` | vllm_ascend/attention/mla_v1.py:273-277 | Reordering, laying out and splitting any batch of non-empty queries meets both assertions of `build`, decodes first. |
| `ContextChunks.ChunkSizeOk` | vllm_ascend/attention/mla_v1.py:324-329 | Then the chunk size is the largest number of whole blocks for which all prefills' chunks fit the workspace, and at least one block. |
| `ContextChunks.WorkspaceMeaning` | vllm_ascend/attention/mla_v1.py:188-201 | The workspace holds eight full-length requests and four pages per sequence, exactly one of these, or is the cap when either exceeds it. |
| `ContextChunks.ChunksPartition` | vllm_ascend/attention/mla_v1.py:330-335 | Every position of a context is in exactly one chunk, and chunks hold nothing else. |
| `ContextChunks.StartsAligned` | vllm_ascend/attention/mla_v1.py:331-332 | Chunk starts are multiples of the block size. |
| `ContextChunks.ChunkFitsWorkspace` | vllm_ascend/attention/mla_v1.py:324-349 | Each chunk's tokens, summed over all prefills, fit the workspace. |
| `ContextChunks.BatchIsChunked` | vllm_ascend/attention/mla_v1.py:187-352 | The constructor's assertion holds exactly when `max_num_seqs * block_size` is at most 128 * 1024; and then, for every batch with context, the chunk size is the largest possible, no chunk is one too many, each context is cut into disjoint consecutive chunks with block-aligned starts, and every chunk's total fits the constructor's workspace. |
| `ExpertSort.CountExperts` | vllm_ascend/distributed/moe_comm_method.py:153-161 | The scatter-add counts every local expert's pairs and leaves out the masked ones. |
| `ExpertSort.SegmentsAreExperts` | vllm_ascend/distributed/moe_comm_method.py:148-161 | After any sort, expert e's pairs occupy exactly the stretch that the counts give it. |
| `ExpertSort.SortedThroughFloats` | vllm_ascend/distributed/moe_comm_method.py:149 | An order sorts the bit patterns read as 32-bit floats exactly when it sorts the ids. |
| `MoeDispatch.PreProcess` | vllm_ascend/distributed/moe_comm_method.py:119-168 | Rows, weights, token numbers and counts are those of the routing in sorted order, masked pairs with weight zero. |
| `MoeDispatch.PostProcess` | vllm_ascend/distributed/moe_comm_method.py:170-178 | Each token gets the weighted sum of its own rows. |
| `MoeDispatch.RankResult` | vllm_ascend/distributed/moe_comm_method.py:119-178 | For any sort order and any values in rows past the valid ones, a rank's result is each token's weighted sum over its locally mapped experts. |
| `MoeDispatch.RanksSumToDense` | vllm_ascend/distributed/moe_comm_method.py:119-178 | The terms of all ranks whose maps partition the experts add up to the dense terms. |
| `MoeDispatch.RankForward` | vllm_ascend/distributed/moe_comm_method.py:119-178 | With the order that sorts the ids read as floats, dispatch, expert computation over an arbitrary buffer, and combine, run one after the other on one rank, leave each token its weighted sum over the rank's experts. |
| `MoeDispatch.CombinedIsDense` | vllm_ascend/distributed/moe_comm_method.py:119-178 | What the ranks' combine steps write, summed over ranks whose maps partition the experts, is the dense MoE result, for any sort orders and any values past the valid rows. |
| `MoeDispatch.AllRanksForward` | vllm_ascend/distributed/moe_comm_method.py:119-178 | The same for the executed composition of all ranks. |
| `WindowGrid.EntryOfToken` | vllm_ascend/models/qwen2_5_vl.py:363-379 | Pad, reshape and permute put every token at its place of its window. |
| `WindowGrid.TokenOfEntry` | vllm_ascend/models/qwen2_5_vl.py:363-379 | Every entry that is not padding is such a token, and only one. |
| `WindowIndex.GridIndexPermutes` | vllm_ascend/models/qwen2_5_vl.py:363-382 | Dropping the padding leaves a permutation of one grid's tokens. |
| `WindowIndex.WindowTokens` | vllm_ascend/models/qwen2_5_vl.py:374-382 | A window holds exactly the tokens of its frame, row band and column band. |
| `WindowIndex.GetWindowIndex` | vllm_ascend/models/qwen2_5_vl.py:355-388 | For any list of grids the index is a permutation of all merged tokens, the concatenation of the windows, with offsets at the window ends. |
| `WindowIndex.SegmentIsWindow` | vllm_ascend/models/qwen2_5_vl.py:355-388 | Each cut segment is one window of one frame of one grid, shifted by the tokens before it. |
| `WindowIndex.SegmentIsSquare` | vllm_ascend/models/qwen2_5_vl.py:363-385 | A segment holds exactly the tokens of one `ws` by `ws` square of one frame: row and column divided by the window size decide. |
| `WindowIndex.OffsetsCut` | vllm_ascend/models/qwen2_5_vl.py:383-385 | Consecutive offsets cut exactly one segment out of the index. |
| `WindowIndex.KernelLengths` | vllm_ascend/models/qwen2_5_vl.py:407-413 | The lengths left are those of the non-empty windows, positive, and add up to the sequence length. |
| `WindowIndex.ArgsortUndoes` | vllm_ascend/models/qwen2_5_vl.py:414-439 | Indexing by the argsort of a permutation undoes indexing by it. |
| `WindowIndex.Forward` | vllm_ascend/models/qwen2_5_vl.py:401-439 | For any length-preserving work applied to each stretch of the kernel's lengths, and any row-wise merger, the row that comes out for a token is what the work on the token's own window left at the token's place; lengths are positive and add up to all patches. |
| `WindowIndex.WorkBySegments` | vllm_ascend/models/qwen2_5_vl.py:407-413 | Cutting the permuted rows at the kernel's lengths, which skip empty windows, hands each window, whole and alone, to the work. |
| `WindowIndex.OwnWindow` | vllm_ascend/models/qwen2_5_vl.py:355-388 | Every token belongs to a window. |
| `WindowIndex.RowwiseResult` | vllm_ascend/models/qwen2_5_vl.py:414-439 | For row-wise work the result is the same work on the rows in their original order. |
| `TensorLayout.Hp2SpUndoesSp2Hp` | vllm_ascend/distributed/tensor_parallel.py:195-248 | On all ranks jointly, going to columns and back gives every rank its rows. |
| `TensorLayout.Sp2HpUndoesHp2Sp` | vllm_ascend/distributed/tensor_parallel.py:195-248 | The other way round it gives every rank its columns. |
| `TensorLayout.Sp2HpEntry` | vllm_ascend/distributed/tensor_parallel.py:195-220 | Entry by entry: after going to columns, rank j holds everyone's rows in its own columns. |
| `TensorLayout.Hp2SpEntry` | vllm_ascend/distributed/tensor_parallel.py:223-248 | Entry by entry: after going to rows, rank i holds its own rows in everyone's columns. |
| `TensorLayout.ReduceScatterEntry` | vllm_ascend/distributed/tensor_parallel.py:126-139 | Entry by entry: rank j keeps the sums over all ranks of its own columns. |
| `TensorLayout.GatherOfReduceScatter` | vllm_ascend/distributed/tensor_parallel.py:61-139 | Reduce-scatter and gather along the last dimension give the entry-wise sum over ranks. |
| `AttentionMask.CornerIsGenerated` | vllm_ascend/attention/attention_mask.py:18-33 | The corner of a larger mask is the mask generated for the smaller size. |
| `AttentionMask.ServedIsFresh` | vllm_ascend/attention/attention_mask.py:49-52 | A mask from the cache is the freshly generated tensor, cells and type, exactly when the cache had to grow or is of the requested type. |
| `AttentionMask.ServedAfterCalls` | vllm_ascend/attention/attention_mask.py:49-104 | After any history of calls, a request gets the tensor it asks for exactly when it is longer than everything before it, or asks for the type of the first call that reached the cache's length (the constructor's type if none went beyond it). |
| `AttentionMask.OneKindStaysFresh` | vllm_ascend/attention/attention_mask.py:49-104 | After any calls of one type the cache serves fresh masks of that type. |
| `AttentionMask.OtherKindIsStale` | vllm_ascend/attention/attention_mask.py:98-101 | While no call goes beyond the constructor's length, every request of another type is served a stale mask. |
| `AttentionMask.AttentionMaskBuilder.UpdateAttnCache` | vllm_ascend/attention/attention_mask.py:98-104 | The cache grows, and takes over the requested type, only when it is too small. |
| `AttentionMask.AttentionMaskBuilder.GetAttnMask` | vllm_ascend/attention/attention_mask.py:49-52 | The mask served, and exactly when it is the one asked for. |
| `AttentionMask.BuildRows` | vllm_ascend/attention/attention_mask.py:75-96 | The in-place row-by-row construction is the causal mask of the queries' positions. |
| `AttentionMask.FillRequest` | vllm_ascend/attention/attention_mask.py:81-94 | One request's rows: everything after the query's own position is masked, other rows are untouched. |
| `AttentionMask.AttentionMaskBuilder.GetSplitfuseAttnMask` | vllm_ascend/attention/attention_mask.py:54-96 | Both paths give the causal mask of the positions, with the same masked cells. The cached path gives the very tensor of the row-by-row path exactly when the cache has the requested type and, for half precision, nothing is masked. |

## Left out

- Floating point: loads, weights and activations are exact reals, so rounding, infinities times zero and NaN are not captured; `masked_fill` values are symbols.
- BestPacking.BalancedPacking: ties among equal weights are sorted arbitrarily, and balance beyond the spread bound is measured by the heaviest pack only.
- Scheduler: requests are records in a map by id, so aliasing between queue entries and the request table is not captured; unscheduled speculative tokens are dropped at the end of the step instead of inside the decode loop.
- Scheduler: cache manager, connector, watermark and the superclass's `update_from_output` and `finish_requests` answer arbitrarily within contracts (a cached prefix leaves something to compute; a surviving request is one token ahead after a model step); no watermark is claimed after an allocation.
- Scheduler: the chunked-prefill path, event recording, cascade-attention prefix counts and assembly of output records; requests waiting for a grammar; the assertion on the long-context adapter limit; `finish_requests` with a bare string or a one-shot iterator.
- Scheduler.AscendScheduler.PrefillPass: watermark and slot allocation are answers from outside, so what the pass does is stated as a function of the answers.
- KV transfer: sockets, message encoding, threads, retries and the transfer engine are steps of a protocol; rank sampling is replaced by distinct ranks 0..target-1; a failed transfer ends like a successful one.
- BlockCopy.TransferLists: is for block lists of equal length; the byte-by-byte statement is for distinct blocks and separate layers.
- MoeDispatch: one hidden component at a time, an absent expert map is the identity map; `ExpertSort.SortedThroughFloats` is for 32-bit ids below the float infinities, on a device that does not flush denormal floats to zero.
- WindowIndex.Forward: the work on a window stands for all windowed blocks; full-attention blocks, which see whole images, and the rotary embeddings permuted alongside are not modelled.
- TensorLayout: tensors of more than two dimensions are flattened to matrices; dimensions are multiples of the group size.
- AttentionMask: devices and the transfer of the cache between them; `Other` stands for the floating types besides half precision, the ones the model runners use, and not for integer types, in which -10000 wraps; rounding of -10000 to the tensor's type; positions are those of the last `query_len` tokens of each request.
- Not modelled: `llmdatadist_c_mgr_connector.py`, the load-balancing proxy, the sleep-mode allocator, AscendC kernels, other model classes, platform and configuration files, plotting and JSON output, multistream code.
