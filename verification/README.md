# verl: weight transfer, checkpoint re-layout and batch algebra

A Dafny model of the parts of verl that move bytes and rows around, with proofs of what they
promise. `dafny verify dfyconfig.toml` checks all of it.

**Weight transfer** (`verl/checkpoint_engine`). A trainer streams named tensors to rollout ranks in
buckets. `Buckets` and `Packing` are the bucket format and the filling loop. `NixlChain` is the relay in
which every rank offers one buffer to the next rank while it reads the next bucket and yields views;
`NixlAgent` and `NixlTopology` are its message queues and its set-up. `MooncakeChain` is the relay that is
acknowledged by four magic bytes; `MooncakeTrust`, `MooncakeReturn` and `MooncakeViews` say exactly when that
is not enough. The runs that go wrong are built by `MooncakeDrive`, which lets ranks work one after the other,
and `MooncakeLag`, in which every acknowledgement is taken for that of a later bucket. `BroadcastRounds` is
the NCCL engine and, with synchronous operations, the HCCL engine. Each is a state machine over any number of ranks and buckets in which bytes arrive
singly and in any order, beside the ranks' own steps; a `...Safety` module holds the inductive invariant and
a `...Results` module what follows for every run. `KimiPartition`, `KimiSchedule`, `KimiReceive` and
`KimiResults` follow the Kimi engine from the trainers' shares to what every rank yields.

**Checkpoint re-layout.** `PipelineShards` is the search for a pipeline sharding, `LayerNumbering` and
`SaveIndex` the global layer numbers and files, `QkvLayout` the fused query-key-value tensor,
`ExpertRanges` and `MoeExperts` the experts. `Splits` states how torch and numpy cut rows.

**Batches** (`verl/protocol.py`). `DataProto` models the two stores; every operation is proved to be one
row map of both, and `DataProtoConcat` says when joined batches keep their rows together.
`DataProtoDispatch` shows that a padded dispatch equals a local map.

**Tools and evaluation.** `BoundingBox` is the crop box of the zoom-in tool, over exact reals;
`BoxRounding` says which boxes rounding rejects; `LatexRepair` is the `\frac` repair and the box extraction.

Where the code and its own description differ, the model follows the code, and the difference is a result:

- one rollout worker: the NIXL topology is rejected (`NixlTopology.AcceptedIffChain`);
- `get_notification` may answer for another agent than the one asked for (`NixlAgents.RightSource`);
- a Mooncake bucket that begins like the magic counts as acknowledged: buffers are refilled early
  (`MooncakeTrust.EarlyRefillIff`), the sender returns early (`MooncakeReturn.EarlyReturnIff`), bytes of a
  later bucket are yielded (`MooncakeLag.WrongBytes`); and intermediate ranks may yield the magic
  (`MooncakeViews.ViewsIff`);
- the sharding search can fail although a sharding exists (`PipelineShards.SearchClosedForm`);
- a model chunk without layers shifts the numbers behind it (`LayerNumbering.NumberingIff`);
- a merge across tensor-parallel ranks whose number does not divide the key-value heads is wrong or
  fails (`QkvRoundTrip.MergeIffDivides`);
- `moe_split.py` reads only `num_experts`, `moe_merge.py` also `n_routed_experts` (`MoeRoundTrip.MergeThenSplit`);
- `concat` without tensors can drop rows of an array that a later batch lacks
  (`DataProtoConcat.ConcatAlignedIff`);
- `reorder` needs a tensor batch (`DataProtoObjects.DataProto.Reorder`);
- `fold_batch_dim` changes the arrays of its argument (`DataProtoObjects.FoldLeavesArgumentAligned`);
- `unfold_column_chunks` raises without `split_keys` as soon as there are arrays
  (`DataProtoColumns.UnfoldKeepsRows`);
- rounding can reject a box that could have been enlarged (`BoxRounding.RejectedIff`).

## Model

| member | source | states |
|---|---|---|
| `Buckets.UnpackIffDistinct` | verl/checkpoint_engine/nccl_checkpoint_engine.py:335-339 | Slicing a bucket by its `bucket_meta` gives the placed weights back, in order, if and only if no two of them share a name; otherwise fewer come back |
| `Buckets.PutExact` | verl/checkpoint_engine/nccl_checkpoint_engine.py:271-276 | Assigning to `bucket_meta` replaces the entry of a name where it stands, or adds the name at the end |
| `Packing.Sender.constructor` | verl/checkpoint_engine/nccl_checkpoint_engine.py:128-139 | Two separate buffers of the bucket size |
| `Packing.Sender.SendWeights` | verl/checkpoint_engine/nccl_checkpoint_engine.py:238-293 | The filling loop over two alternating buffers succeeds iff every weight fits a bucket, and then offers exactly the greedy groups, each with its metadata, its bytes from offset 0, and the last flag on the last one only; if it stops, it has offered the packing of the weights before the one that does not fit; other trainer ranks send nothing |
| `Packing.PackExact` | verl/checkpoint_engine/nccl_checkpoint_engine.py:247-270 | The groups cut the stream without loss, overlap or overflow, and none could have taken the first weight of the next |
| `Packing.PackOptimal` | verl/checkpoint_engine/nccl_checkpoint_engine.py:247-270 | No order-preserving packing of a nonempty stream uses fewer buckets than the greedy one |
| `Packing.EncodeDecode` | verl/checkpoint_engine/nixl_checkpoint_engine.py:388-432 | Every bucket is valid; unpacking the buckets in order gives the stream back iff no bucket repeats a name, hence for distinct names always |
| `Packing.OffersRestoreStream` | verl/checkpoint_engine/hccl_checkpoint_engine.py:244-299 | Each offered snapshot unpacks to its bucket, so the offers restore the stream |
| `NixlAgents.NixlAgent.ReadMessage` | verl/checkpoint_engine/nixl_checkpoint_engine.py:122-126 | Returns the oldest unread message of the named agent; the pending messages of every other agent stay as they are, wherever they are queued |
| `NixlAgents.NixlAgent.Absorb` | verl/checkpoint_engine/nixl_checkpoint_engine.py:130-132 | Merging a batch appends every list to its agent's queue and leaves the loop variable, which is the method's own parameter, at the last agent listed |
| `NixlAgents.NixlAgent.Poll` | verl/checkpoint_engine/nixl_checkpoint_engine.py:128-133 | The polling loop ends for the agent that `NotificationSource` names and loses no notification |
| `NixlAgents.NixlAgent.GetNotification` | verl/checkpoint_engine/nixl_checkpoint_engine.py:128-134 | Pops the oldest notification of that agent; nobody else's is lost |
| `NixlAgents.RightSource` | verl/checkpoint_engine/nixl_checkpoint_engine.py:128-134 | `get_notification` answers for the requested agent iff its queue is already filled or the first batch that reports anything lists it last |
| `NixlAgents.ReportedSource` | verl/checkpoint_engine/nixl_checkpoint_engine.py:128-134 | When its queue is empty, the answer is for the last agent listed in the first batch that reports anything |
| `NixlAgents.WrongSource` | verl/checkpoint_engine/nixl_checkpoint_engine.py:131 | A batch of two agents for which the answer comes from the other one |
| `NixlAgents.ChainSource` | verl/checkpoint_engine/nixl_checkpoint_engine.py:128-134 | If only the requested agent notifies, as in a chain, the answer is always its own |
| `NixlTopology.AcceptedIffChain` | verl/checkpoint_engine/nixl_checkpoint_engine.py:282-336 | The list lengths checked by the manager and the role assertions of every worker hold iff there is a trainer and there are at least two rollout workers |
| `NixlTopology.RoleExact` | verl/checkpoint_engine/nixl_checkpoint_engine.py:311-325 | A worker outside the chain has to have no neighbour; in a chain of at least two, all but the first a previous agent and all but the last a next one |
| `NixlTopology.ChainLinks` | verl/checkpoint_engine/nixl_checkpoint_engine.py:282-299 | The accepted topology is a chain: neighbours name each other, only rank 0 and the last rank are open ends, the other trainers are outside, and everybody is told the same world size |
| `NixlSafety.StepKeeps` | verl/checkpoint_engine/nixl_checkpoint_engine.py:364-513 | Every program step, byte copy and completion keeps the invariant of every rank and link |
| `NixlResults.Delivery` | verl/checkpoint_engine/nixl_checkpoint_engine.py:137-231 | In every run, for any number of ranks and buckets and every interleaving: no assertion fails (each popped notification is the waiting operation's own key, since no forwarded metadata overrides it), every rollout rank has yielded a prefix of the sender's (name, bytes) sequence, and all of it when it returns |
| `NixlResults.OwnKeyIff` | verl/checkpoint_engine/nixl_checkpoint_engine.py:150-168 | A message is the operation's own fields overridden by the metadata: the rank's wait succeeds on the notification its message asks for iff the metadata holds no other notify key |
| `NixlResults.UnpoppedKeyFails` | verl/checkpoint_engine/nixl_checkpoint_engine.py:194-203 | Forwarding a received message without the two pops would send the previous rank's key, and the wait would fail |
| `NixlResults.FirstRun` | verl/checkpoint_engine/nixl_checkpoint_engine.py:364-513 | There is a run from any contents of the buffers: an initial state with them is constructed |
| `NixlResults.StreamDelivered` | verl/checkpoint_engine/nixl_checkpoint_engine.py:364-513 | From the packed stream of distinctly named weights that fit, every rank that returns has yielded exactly that stream |
| `NixlResults.Exclusivity` | verl/checkpoint_engine/nixl_checkpoint_engine.py:389-421 | In every reachable state no buffer is filled or the target of a READ while the next rank may read it or while views into it are yielded; the views see the sender's bytes; descriptors name the buffer they were swapped with |
| `NixlResults.ReturnsAfterNext` | verl/checkpoint_engine/nixl_checkpoint_engine.py:455-513 | A rank returns only after the next rank has completed the READ of its last bucket |
| `NixlResults.StepWork` | verl/checkpoint_engine/nixl_checkpoint_engine.py:364-513 | Every possible step lowers the work of one rank and changes no other |
| `NixlResults.Progress` | verl/checkpoint_engine/nixl_checkpoint_engine.py:424-513 | No reachable state with an unfinished rank is stuck, every possible step lowers a global measure, and a state in which all have returned allows none |
| `NixlResults.RunBounded` | verl/checkpoint_engine/nixl_checkpoint_engine.py:424-513 | No run is longer than the measure of its first state |
| `NixlResults.Outcome` | verl/checkpoint_engine/nixl_checkpoint_engine.py:424-513 | A run that cannot be extended has all ranks returned and all rollout ranks served in full |
| `NixlResults.Completes` | verl/checkpoint_engine/nixl_checkpoint_engine.py:364-513 | Every run can be completed: some continuation returns every rank |
| `MooncakeSafety.StepKeeps` | verl/checkpoint_engine/mooncake_checkpoint_engine.py:142-274 | Every step keeps the invariant, provided a wait that returns does so over a bucket distinguishable from the magic |
| `MooncakeResults.RelayIntegrity` | verl/checkpoint_engine/mooncake_checkpoint_engine.py:222-274 | If every bucket whose buffer is used again is distinguishable from the magic, every completed read left the sender's bytes of its bucket, in order, and a rank that returns has read all of them |
| `MooncakeResults.NoEarlyRefill` | verl/checkpoint_engine/mooncake_checkpoint_engine.py:142-212 | Under the same condition no buffer is refilled before the next rank has acknowledged the bucket in it |
| `MooncakeResults.YieldedBytes` | verl/checkpoint_engine/mooncake_checkpoint_engine.py:250-266 | The buffer a rank yields from holds the sender's bucket exactly as long as the next rank has not acknowledged it; then its first four bytes are the magic |
| `MooncakeViews.ViewsIff` | verl/checkpoint_engine/mooncake_checkpoint_engine.py:250-266 | Under that condition: in every run every rank has yielded a prefix of the sender's sequence, if and only if there is no intermediate rank or no view covers a byte among its bucket's first four that differs from the magic; otherwise a run that yields the magic is constructed |
| `MooncakeViews.MarkedView` | verl/checkpoint_engine/mooncake_checkpoint_engine.py:252-266 | From a marked buffer a view is the sender's iff it covers no byte that the magic changes |
| `MooncakeViews.HoldBack` | verl/checkpoint_engine/mooncake_checkpoint_engine.py:226-274 | While rank 1 stands in front of its first view of a bucket, the ranks behind it can read and acknowledge that bucket |
| `MooncakeResults.LastRankDelivers` | verl/checkpoint_engine/mooncake_checkpoint_engine.py:222-274 | The last rank yields exactly the sender's sequence |
| `MooncakeReturn.SenderReturnsAcked` | verl/checkpoint_engine/mooncake_checkpoint_engine.py:196-220 | If the last bucket and every earlier one in its buffer are distinguishable from the magic, the sender returns only after rank 1 has acknowledged everything, whatever the buckets of the other buffer are |
| `MooncakeReturn.PairStep` | verl/checkpoint_engine/mooncake_checkpoint_engine.py:189-209 | Every step keeps, for the buffer of the last bucket alone, that its bucket is intact until rank 1 has acknowledged it and was placed after the one before it was acknowledged |
| `MooncakeReturn.EarlyReturnIff` | verl/checkpoint_engine/mooncake_checkpoint_engine.py:199-209 | Some run returns the sender before rank 1 has acknowledged everything, if and only if the last bucket, or any earlier one that shares its buffer, begins like the magic; for every stream, with the run constructed |
| `MooncakeResults.StreamDelivered` | verl/checkpoint_engine/mooncake_checkpoint_engine.py:163-212 | From the packed stream of distinctly named weights that fit, the last rank yields exactly that stream |
| `MooncakeProgress.FirstRun` | verl/checkpoint_engine/mooncake_checkpoint_engine.py:142-274 | There is a run from any contents of the buffers: an initial state with them is constructed |
| `MooncakeProgress.Progress` | verl/checkpoint_engine/mooncake_checkpoint_engine.py:142-274 | Under the condition no reachable state is stuck and every step lowers a measure |
| `MooncakeProgress.Completes` | verl/checkpoint_engine/mooncake_checkpoint_engine.py:142-274 | Under the condition every run can be completed: some continuation returns every rank |
| `MooncakeTrust.EarlyRefillIff` | verl/checkpoint_engine/mooncake_checkpoint_engine.py:142-147 | Some run refills a buffer before its bucket is acknowledged if and only if some bucket whose buffer is used again begins like the magic; for the one direction a run is constructed |
| `MooncakeDrive.Solo` | verl/checkpoint_engine/mooncake_checkpoint_engine.py:226-274 | A rank in front of a bucket whose info is queued can, with nothing but its own steps, read it, send the info on, yield all its views and mark the rank before |
| `MooncakeDrive.Sweep` | verl/checkpoint_engine/mooncake_checkpoint_engine.py:226-274 | All receivers in turn handle a bucket: the sender's buffer of that bucket is marked, and rank 1 has yielded the views of what it read from it |
| `MooncakeLag.LagStep` | verl/checkpoint_engine/mooncake_checkpoint_engine.py:189-209 | Once bucket j is overwritten with bucket j + 2 before it is read, the acknowledgement of bucket j ends the wait for bucket j + 2, and bucket j + 4 overwrites that in turn |
| `MooncakeLag.WrongBytes` | verl/checkpoint_engine/mooncake_checkpoint_engine.py:245-266 | If bucket m begins like the magic, then for every bucket j from m on in the same buffer, and every view of j that covers a byte which bucket j + 2 replaces by a different one, some run makes rank 1 yield something else than a prefix of the sender's sequence, with any number of receivers |
| `BroadcastSafety.StepKeeps` | verl/checkpoint_engine/nccl_checkpoint_engine.py:60-93 | Every step of the ranks and their operations keeps the invariant, with asynchronous (NCCL) and synchronous (HCCL) operations |
| `BroadcastResults.Delivery` | verl/checkpoint_engine/nccl_checkpoint_engine.py:296-350 | In every run no assertion fails, each receiver has yielded a prefix of the sender's sequence, and all of it when it returns |
| `BroadcastResults.StreamDelivered` | verl/checkpoint_engine/hccl_checkpoint_engine.py:303-368 | From the packed stream of distinctly named weights that fit, every receiver that returns has yielded exactly that stream |
| `BroadcastResults.SameRounds` | verl/checkpoint_engine/nccl_checkpoint_engine.py:238-350 | Sender and receivers are never more than one round apart, round k leaves bucket k in every receiver, and all ranks take part in one round per bucket |
| `BroadcastResults.Exclusivity` | verl/checkpoint_engine/nccl_checkpoint_engine.py:238-350 | The sender never fills the buffer it broadcasts; a receiver never receives into the buffer it yields from |
| `BroadcastResults.Progress` | verl/checkpoint_engine/nccl_checkpoint_engine.py:238-350 | No reachable state with an unfinished rank is stuck and every step lowers a measure |
| `BroadcastResults.FirstRun` | verl/checkpoint_engine/nccl_checkpoint_engine.py:238-350 | There is a run from any contents of the buffers: an initial state with them is constructed |
| `BroadcastResults.Completes` | verl/checkpoint_engine/hccl_checkpoint_engine.py:230-368 | Every run can be completed: some continuation returns every rank |
| `KimiPartition.NamedTensorBuckets` | verl/checkpoint_engine/kimi_checkpoint_engine.py:37-63 | The generator fails iff the limit is not positive and otherwise emits the dicts of the groups of its rank's share; with distinct names these are, one after the other, the weights at positions rank, rank + world, rank + 2 * world, ... to the end of the stream |
| `KimiPartition.Partition` | verl/checkpoint_engine/kimi_checkpoint_engine.py:37-63 | With distinct names, what a rank emits, bucket after bucket, is exactly every world-th weight of the stream from the one at its number on; no bucket is empty, one above the limit is a single tensor, and a bucket is closed only when the next tensor would overfill it |
| `KimiPartition.ShareExact` | verl/checkpoint_engine/kimi_checkpoint_engine.py:49-50 | The share of a rank is every world-th weight of the stream, from the one at its own number to the end, in order; a number that is no rank has none |
| `KimiPartition.NothingLost` | verl/checkpoint_engine/kimi_checkpoint_engine.py:37-63 | With distinct names, what all ranks emit together is the stream as a multiset: every weight once |
| `KimiPartition.PutWeightExact` | verl/checkpoint_engine/kimi_checkpoint_engine.py:59 | Assigning a tensor replaces the value of its name where it stands, or adds the name at the end |
| `KimiSchedule.ScheduleExact` | verl/checkpoint_engine/kimi_checkpoint_engine.py:107-123 | The nested round-robin takes every bucket exactly once and keeps each receiver's buckets in list order; it depends on the list alone, so it is the same on all ranks |
| `KimiSchedule.GroupedExact` | verl/checkpoint_engine/kimi_checkpoint_engine.py:107-113 | The queue of a receiver in `buckets_by_receiver_rank` holds its entries in list order, as the receiver's own list does |
| `KimiSchedule.ReceiversInOrder` | verl/checkpoint_engine/kimi_checkpoint_engine.py:107-113 | The receivers stand in the order in which the list of buckets first names them |
| `KimiSchedule.ScheduleOrder` | verl/checkpoint_engine/kimi_checkpoint_engine.py:115-123 | The i-th buckets of all receivers come before any later ones, and in one pass the receivers come in their order |
| `KimiReceive.YieldWhileLanding` | verl/checkpoint_engine/kimi_checkpoint_engine.py:139-150 | The views yielded from one half are the bucket's, whatever lands in the other half meanwhile |
| `KimiReceive.Round` | verl/checkpoint_engine/kimi_checkpoint_engine.py:123-152 | Broadcast g fills half g mod 2 with the source's bytes; the source sends its own bucket, staged or direct; the previous bucket is yielded from the other half |
| `KimiReceive.ReceiveTensor` | verl/checkpoint_engine/kimi_checkpoint_engine.py:66-172 | A rank yields every scheduled bucket exactly once in schedule order, and broadcasts as a source exactly its own buckets, the i-th staged one being the one of its i-th turn |
| `KimiResults.EveryRankReceives` | verl/checkpoint_engine/kimi_checkpoint_engine.py:66-172 | If every broadcast delivers what its source has sent, every rank yields the same sequence, which holds every item of every bucket exactly once |
| `KimiResults.ItemsOfGroups` | verl/checkpoint_engine/kimi_checkpoint_engine.py:66-172 | Buckets built from groups of distinctly named weights yield those weights |
| `PipelineShards.GetDynamicPipelineShards` | verl/model_merger/megatron_model_merger.py:57-98 | The search returns what `Search` gives for every pair of arguments, errors included, and its final sum assertion never fails |
| `PipelineShards.SearchCases` | verl/model_merger/megatron_model_merger.py:68-98 | Which error is raised for which arguments, the layers checked first; one rank gets all layers, two get half each with the smaller half first, and from three on the middle ranks get the rounded-up average and the ends halve the rest, the smaller half first |
| `PipelineShards.SortIsStable` | verl/model_merger/megatron_model_merger.py:95-96 | The sort orders by the gap, permutes, and keeps equal keys in order |
| `PipelineShards.SearchClosedForm` | verl/model_merger/megatron_model_merger.py:82-98 | For at least three ranks and as many layers: with m the rounded-up average, the search fails iff m * (p - 2) + 2 exceeds the layers, and otherwise puts m on the middle ranks and halves the rest |
| `PipelineShards.SearchLeastGap` | verl/model_merger/megatron_model_merger.py:91-96 | The chosen sharding has a strictly smaller gap between first and middle ranks than every other candidate |
| `PipelineShards.SearchIsUniform` | verl/model_merger/megatron_model_merger.py:57-98 | Whatever is returned sums to the layers, is positive everywhere, and no other sharding of the layers has a smaller largest stage |
| `PipelineShards.FiveLayersFourRanks` | verl/model_merger/megatron_model_merger.py:82-96 | Five layers on four ranks: a sharding exists, the search finds none |
| `PipelineShards.DivisibleIsEven` | verl/model_merger/megatron_model_merger.py:82-98 | If the ranks divide the layers, every rank gets the same number |
| `Prefixes.NumberingIsBijective` | verl/model_merger/megatron_model_merger.py:361-363 | Local number plus the sum of the shards before is a bijection from (rank, local) pairs onto 0 to the total |
| `LayerNumbering.MergeChunk` | verl/model_merger/megatron_model_merger.py:367-418 | One chunk renames its layer keys by the running number and advances it by the largest local layer plus one |
| `LayerNumbering.MergeStateDicts` | verl/model_merger/megatron_model_merger.py:358-420 | The merge of a rank starts at the sum of the shards before it |
| `LayerNumbering.MergeLegacy` | scripts/legacy_model_merger.py:611-661 | The legacy merge computes the merge of the chunks in the order `Visited`, virtual stages outside and pipeline ranks inside |
| `LayerNumbering.VisitedAt` | scripts/legacy_model_merger.py:618-619 | With p pipeline ranks, chunk w * p + r of that order is the one of virtual stage w on rank r, and there is no other |
| `LayerNumbering.LegacyLayer` | scripts/legacy_model_merger.py:615-661 | Local layer l of stage v on rank r is stored, with its value, under l plus the layers of all stages before v on all ranks and of stage v on the ranks before r, a chunk without layers counting as one |
| `LayerNumbering.MergedExact` | verl/model_merger/megatron_model_merger.py:366-418 | The merged dict has exactly the renamed layer keys of all chunks, no two chunks write the same one, and each keeps its value |
| `LayerNumbering.MergedOutside` | verl/model_merger/megatron_model_merger.py:366-418 | A key outside the layers has the value of the last chunk that has it |
| `LayerNumbering.MergedSkips` | verl/model_merger/megatron_model_merger.py:370-375 | No skipped parameter is in the merged dict |
| `LayerNumbering.NumberingIff` | verl/model_merger/megatron_model_merger.py:382-418 | Every layer gets its number in the model iff no chunk without layers precedes one with layers |
| `LayerNumbering.EmptyChunkShifts` | verl/model_merger/megatron_model_merger.py:418 | An embedding-only chunk shifts the next layer from 0 to 1 |
| `LayerNumbering.AllRanksNumberAllLayers` | scripts/converter_hf_to_mcore.py:547-550 | With the shards of the search, the (rank, chunk, local layer) triples of all ranks correspond one to one to the layers of the model |
| `SaveIndex.SaveModel` | verl/model_merger/megatron_model_merger.py:422-460 | A rank writes its chunk i as file `layer_start * saves_per_layer + i` and indexes its keys accordingly |
| `SaveIndex.WriteFiles` | verl/model_merger/megatron_model_merger.py:451-460 | The loop writes consecutive files and index entries |
| `SaveIndex.GatherIndex` | verl/model_merger/megatron_model_merger.py:466-468 | The weight map is the merge of the gathered dicts in rank order |
| `SaveIndex.FilesExact` | verl/model_merger/megatron_model_merger.py:428-460 | The ranks' files together hold the ranks' keys in order |
| `SaveIndex.EveryKeyInOneFile` | verl/model_merger/megatron_model_merger.py:428-468 | Over all ranks the file numbers 0 to the announced total are each used once, and with distinct keys the weight map sends every key to the one file that holds it |
| `SaveIndex.FileNumber` | verl/model_merger/megatron_model_merger.py:454-456 | The place of a rank's i-th file among all files is its save index |
| `Splits.ArraySplitExact` | verl/model_merger/megatron_model_merger.py:443 | An array split loses nothing, and its parts differ in length by at most one, the longer ones first |
| `QkvLayout.SplitTensors` | verl/model_merger/megatron_model_merger.py:330-354 | The split of a whole tensor, with its two divisibility assertions and the failure of a chunk that the sizes do not fill |
| `QkvLayout.MergeAcrossTp` | scripts/legacy_model_merger.py:532-560 | The merge across tensor-parallel shards, with the same failures and a chunk count of zero |
| `QkvRoundTrip.PackThenSplit` | scripts/converter_hf_to_mcore.py:155-161 | Splitting the packed rows returns q, k and v for all head counts with the key-value heads dividing the heads |
| `QkvRoundTrip.PackLayout` | scripts/converter_hf_to_mcore.py:155-161 | The packed tensor holds, for each key-value head, the rows of its query heads, then of its key, then of its value |
| `QkvRoundTrip.SplitThenPack` | verl/model_merger/megatron_model_merger.py:330-354 | A fused tensor splits iff its rows divide into the key-value heads, and packing the parts gives the tensor back |
| `QkvRoundTrip.PackThenMerge` | scripts/legacy_model_merger.py:532-560 | Cut into contiguous row shards whose number divides the key-value heads, the packed tensor is merged into q, k and v |
| `QkvRoundTrip.MergeIffDivides` | scripts/legacy_model_merger.py:542-560 | The merge of equal contiguous shards gives q, k and v if and only if the number of shards divides the number of key-value heads, for any content in which the first key row is no query row |
| `QkvRoundTrip.TwoHeadsThreeShards` | scripts/legacy_model_merger.py:542-545 | Two key-value heads on three shards: the merge fails |
| `QkvRoundTrip.ThreeHeadsTwoShards` | scripts/legacy_model_merger.py:542-560 | Three key-value heads on two shards: the merge succeeds and is wrong |
| `ExpertRanges.LocalExperts` | scripts/converter_hf_to_mcore.py:179-193 | A rank copies exactly the experts of its range, to their local places |
| `ExpertRanges.OwnsExact` | scripts/converter_hf_to_mcore.py:179-193 | A rank's experts are the consecutive ones from rank * each to (rank + 1) * each - 1, at local places from 0 on |
| `ExpertRanges.ExpertsSharedOut` | scripts/converter_hf_to_mcore.py:179-193 | Every expert below `ep_size * (experts // ep_size)` is copied by exactly one rank, the others by none; so all are iff the group size divides their number |
| `MoeExperts.StackExperts` | scripts/veomni/moe_merge.py:89-93 | Popping and stacking one projection: a missing key fails exactly when an expert is absent, the stack exactly when there is none or shapes differ, and the new dict |
| `MoeExperts.MergeMain` | scripts/veomni/moe_merge.py:75-110 | The merge with its choice of the expert count and the first sparse layer |
| `MoeExperts.SplitOne` | scripts/veomni/moe_split.py:79-83 | Splitting one stack: absent key, index error, and the new dict |
| `MoeExperts.SplitMain` | scripts/veomni/moe_split.py:73-83 | The split over layers and projections |
| `MoeRoundTrip.MergeExact` | scripts/veomni/moe_merge.py:88-107 | The merge succeeds iff every sparse layer has all experts of each projection in equal shapes, and then moves exactly these under the stacked keys |
| `MoeRoundTrip.MergeMainExact` | scripts/veomni/moe_merge.py:75-107 | The same for the script: it fails without any expert count, reads `num_experts` before `n_routed_experts`, and leaves the layers before `first_k_dense_replace` alone |
| `MoeRoundTrip.SplitExact` | scripts/veomni/moe_split.py:75-83 | The split succeeds iff every stack it finds has enough slices, and then moves these under the expert keys |
| `MoeRoundTrip.MergeThenSplit` | scripts/veomni/moe_split.py:73-83 | Splitting a merged state dict restores the original if and only if the configuration has `num_experts` and the original had no stacked key in any layer |
| `DataProtos.SliceProto` | verl/protocol.py:674-718 | A Python slice takes one row range of both stores |
| `DataProtos.TakeTake` | verl/protocol.py:634-672 | Row maps of both stores compose |
| `DataProtos.CutsArePicks` | verl/protocol.py:879-895 | Cutting an array at the cumulated chunk sizes gives it the row ranges of the tensor chunks |
| `DataProtos.Chunk` | verl/protocol.py:863-902 | Every chunk is one row range of both stores, and which one: chunks that divide the rows are equal; otherwise tensors are cut into pieces of the rounded-up average and a shorter last one, and lone arrays into sizes that differ by at most one, the larger first. It fails iff the chunks do not divide the rows without padding, or the pieces of the tensors do not reach the last chunk |
| `DataProtos.Concat` | verl/protocol.py:915-960 | Concatenation, with the failures on an empty list, missing or differing tensor batches, array keys that the first batch lacks, and inconsistent lengths |
| `DataProtos.ConcatFails` | verl/protocol.py:915-960 | Concatenation fails iff the list is empty, a batch has an array that the first lacks, or, if the first has tensors, a batch has none or other ones, or an array's joined length is not the batch size |
| `DataProtos.ConcatOfTakes` | verl/protocol.py:915-960 | Concatenating selections of one batch selects the joined rows |
| `DataProtoConcat.ConcatAlignedIff` | verl/protocol.py:915-960 | For any list of batches on which concatenation succeeds, the result has the rows of all batches in both stores iff there is a tensor batch or every batch with rows has the arrays of the first |
| `DataProtoConcat.ConcatRows` | verl/protocol.py:915-960 | Then row r of batch i is row `Start(ns, i) + r` of every column of either store |
| `DataProtoConcat.ConcatLosesRows` | verl/protocol.py:931-933 | Without tensors, a second batch that lacks an array passes, and the arrays come out with different lengths |
| `DataProtoDispatch.LeastMultiple` | verl/protocol.py:83-84 | The padded length is the least multiple of the divisor that holds the rows |
| `DataProtoDispatch.Pad` | verl/protocol.py:73-98 | Padded row i is row i mod n, in both stores |
| `DataProtoDispatch.PadBy` | verl/protocol.py:85-91 | The padding loop terminates and pads by exactly the missing rows |
| `DataProtoDispatch.Unpad` | verl/protocol.py:101-105 | Unpadding drops the last rows of both stores |
| `DataProtoDispatch.ChunksIff` | verl/protocol.py:863-902 | Without padding a batch can be chunked iff the chunks divide the rows, and the ranges cover all rows in order |
| `DataProtoDispatch.PaddedChunksIff` | verl/protocol.py:863-902 | With padding enabled, chunking tensors succeeds iff there are no rows or the pieces of rounded-up size reach the last chunk |
| `DataProtoDispatch.ChunkMapConcat` | verl/protocol.py:863-960 | Chunk, map each chunk with a row-wise function, concatenate: that maps the batch |
| `DataProtoDispatch.Dispatch` | verl/protocol.py:73-105 | Pad, chunk, map on the workers, concatenate and unpad equals mapping the nonempty batch, for every row-wise function |
| `DataProtoDispatch.ColumnwiseIsRowWise` | verl/protocol.py:915-960 | A function computed column by column from single rows is row-wise |
| `DataProtoRows.Repeat` | verl/protocol.py:970-1012 | Repetition in both modes is one row map of both stores: i / times or i mod n |
| `DataProtoRows.RepeatExact` | verl/protocol.py:970-1012 | Interleaved, row i comes from row i / times, otherwise from row i mod n |
| `DataProtoRows.SampleLevelRepeat` | verl/protocol.py:1053-1099 | Repetition with a count for each row, or one count for all, is one row map of both stores; a single count for several rows fails beside tensors unless it is zero |
| `DataProtoRows.RepeatByExact` | verl/protocol.py:1053-1099 | That row map is ascending and takes row i exactly `times[i]` times |
| `DataProtoRows.SampleRowsExact` | verl/protocol.py:1053-1099 | What sample-level repetition takes in each case: row i as often as its count or the single count says, in order; without columns only the sum of the counts; and exactly when it fails |
| `DataProtoRows.Split` | verl/protocol.py:904-913 | The parts are consecutive row ranges of the given size |
| `DataProtoRows.SplitExact` | verl/protocol.py:904-913 | Part i has the rows from i * size on, size of them or up to the end, and there are just enough parts |
| `DataProtoRows.SplitConcat` | verl/protocol.py:904-960 | Concatenating the parts of a split gives the batch |
| `DataProtoObjects.SelectIdxs` | verl/protocol.py:634-672 | Integer selection with wrap-around of negative indices fails iff there is a column and an index out of range, and takes one row map of both stores |
| `DataProtoObjects.IndexRowsExact` | verl/protocol.py:634-672 | Place j of the selection is row `indices[j]`, or n plus it if it is negative; it fails iff there is a column and some index names no row |
| `DataProtoObjects.SelectMask` | verl/protocol.py:645-672 | Boolean selection fails iff there is a column and the mask has another length, and takes one row map of both stores |
| `DataProtoObjects.MaskRowsExact` | verl/protocol.py:645-672 | The selection takes exactly the marked rows, once and in order, as many as there are marks; it fails iff there is a column of another length |
| `DataProtoObjects.MaskExact` | verl/protocol.py:645-672 | That row map is ascending and takes exactly the marked rows, once |
| `DataProtoObjects.DataProto.Reorder` | verl/protocol.py:962-968 | Reordering in place succeeds iff there is a tensor batch and no column sees an index out of range, and applies one row map to both stores; a failure changes nothing, except that a tensor batch without tensors is replaced before the arrays raise |
| `DataProtoObjects.ReorderBack` | verl/protocol.py:962-968 | Reordering by an inverse restores the batch |
| `DataProtoObjects.DataProto.Padding` | verl/protocol.py:848-861 | Padding in place appends copies of the first or last row to both stores; it fails iff rows are asked for and there are columns but no row |
| `DataProtoObjects.DataProto.FoldBatchDim` | verl/protocol.py:201-218 | Folding fails iff there is no tensor batch or the groups do not divide it; it returns the folded batch and leaves the argument with folded arrays beside unfolded tensors |
| `DataProtoObjects.FoldLeavesArgumentAligned` | verl/protocol.py:212-218 | After a fold the argument's stores still agree iff it had no arrays or every group is one row |
| `DataProtoObjects.FoldGroups` | verl/protocol.py:201-218 | Group g holds the same consecutive rows of every column |
| `DataProtoObjects.FoldedAligned` | verl/protocol.py:201-218 | The folded batch has one row a group in every column of both stores, and the same columns |
| `DataProtoObjects.UnfoldBatchDim` | verl/protocol.py:221-237 | Unfolding succeeds iff all columns flatten to one common length |
| `DataProtoObjects.FoldUnfold` | verl/protocol.py:201-237 | Unfolding after folding is the identity |
| `DataProtoColumns.UnfoldColumnChunks` | verl/protocol.py:1014-1051 | Every column is either repeated or reshaped; the failures |
| `DataProtoColumns.RegroupRow` | verl/protocol.py:1026-1029 | Row i * n_split + j of a reshaped column is the j-th part of row i |
| `DataProtoColumns.UnfoldKeepsRows` | verl/protocol.py:1014-1051 | Row i of every column of either store comes from row i / n_split; the call fails iff a split key has no second dimension that n_split divides, or arrays are present and `split_keys` is None |
| `DataProtoColumns.GetFuture` | verl/protocol.py:1196-1227 | From the outputs of workers that have mapped the chunks of a batch, a future gives the mapped batch, or for the i-th of the next workers chunk i of the mapped batch, with padding on or off; without padding that fails iff the next workers do not divide the rows |
| `BoundingBox.ValidateBBox` | verl/tools/image_zoom_in_tool.py:181-203 | True iff the box is proper and its longer side is at most a hundred times the shorter |
| `BoundingBox.ClampedExact` | verl/tools/image_zoom_in_tool.py:217-222 | The clamped box is the intersection of the requested box and the image |
| `BoundingBox.MaybeResizeBBox` | verl/tools/image_zoom_in_tool.py:205-297 | The steps compute `Resized` for every box and image size |
| `BoundingBox.TargetIsScaled` | verl/tools/image_zoom_in_tool.py:242-257 | The enlarged size is the clamped size times one factor, the least of the three limits |
| `BoundingBox.FactorLargest` | verl/tools/image_zoom_in_tool.py:242-257 | That factor is the largest that brings the shorter side to at most 28 and keeps both sides within the image |
| `BoundingBox.EnlargedExact` | verl/tools/image_zoom_in_tool.py:259-279 | Before rounding, the box lies in the image around the clamped one and keeps its aspect ratio exactly |
| `BoundingBox.RoundedExact` | verl/tools/image_zoom_in_tool.py:281-282 | Rounding outwards stays in the image and adds less than two pixels to a side |
| `BoundingBox.ReturnedBox` | verl/tools/image_zoom_in_tool.py:205-297 | A returned box lies in the image, contains the whole clamped request, is at least 28 in both floored dimensions, and has an aspect ratio of at most 100 |
| `BoundingBox.LargeBoxKept` | verl/tools/image_zoom_in_tool.py:218-233 | A valid clamped box that is not small is returned as it is |
| `BoundingBox.ResizeIdempotent` | verl/tools/image_zoom_in_tool.py:205-297 | A returned box is returned unchanged when it is requested again |
| `BoundingBox.SmallBoxEnlarged` | verl/tools/image_zoom_in_tool.py:232-297 | A small box whose enlargement fits comes back if two more pixels on the long side keep the aspect ratio |
| `BoxRounding.RejectedIff` | verl/tools/image_zoom_in_tool.py:232-297 | For every valid clamped box that is small, in both orientations: nothing is returned iff, when the enlargement fits, its short side starts on a whole pixel and its long side covers more than 2800 pixels, or, when it does not fit, the image is below 28 along the long side or the short side covers fewer than 28 |
| `BoxRounding.ResizedTransposed` | verl/tools/image_zoom_in_tool.py:205-297 | The tool treats both axes alike, although it scales the width first |
| `BoundingBox.RoundingRejects` | verl/tools/image_zoom_in_tool.py:281-287 | A valid 14 by 1400 box at a half-pixel offset is rejected because of rounding |
| `BoundingBox.TinyImage` | verl/tools/image_zoom_in_tool.py:287-297 | Nothing is returned for an image smaller than 28 on a side |
| `LatexRepair.SplitJoin` | eval/utils/parser.py:15 | Splitting gives pieces free of the separator whose join is the string |
| `LatexRepair.JoinSplit` | eval/utils/parser.py:15 | Splitting a join of such pieces gives the pieces, for separators whose first character does not recur |
| `LatexRepair.FixFracs` | eval/utils/parser.py:14-43 | The loop computes `Fixed`, including the early return of the unchanged string |
| `LatexRepair.FixFracsExact` | eval/utils/parser.py:14-43 | For any pieces joined by `\frac`: if one behind it is too short, the string is unchanged; otherwise `ab..` becomes `{a}{b}..`, `a{..` becomes `{a}{..`, and `{..` is kept |
| `LatexRepair.FixFracsAddsBraces` | eval/utils/parser.py:14-43 | On every string the repair only inserts braces: deleting them gives the string back |
| `LatexRepair.FixFracsIdempotent` | eval/utils/parser.py:14-43 | Repairing twice is repairing once, on every string |
| `LatexRepair.ScanBox` | eval/utils/parser.py:418-431 | The scan returns what lies before the brace that closes the group, and everything if none does |
| `LatexRepair.FindBox` | eval/utils/parser.py:414-434 | From any `...boxed{s}...` with balanced braces in s and no later "boxed" it returns s; the other branches |
| `LatexRepair.StripExact` | eval/utils/parser.py:433 | Stripping removes spaces at both ends, all of them and nothing else |
| `LatexRepair.ExtractBoxed` | eval/utils/parser.py:507-527 | The same scan in `extract_answer`, in all its branches, and nothing without a box |

## Left out

- Transport: ZeroMQ messages and RDMA notifications are reliable FIFO queues per sender, which the barrier of the process group justifies for subscriptions; ports, addresses, memory registration and timeouts are not modelled.
- RDMA: a READ copies single bytes in any order and then completes; the write of Mooncake's four magic bytes is one step.
- Collectives: the k-th broadcast of a rank belongs to the k-th of every other, and the source's ends when all have its bytes; process groups and streams are not modelled.
- Sizes: the buckets of Mooncake's state machine have a size of at least four bytes, as a wait reads four; smaller ones would fail on the first wait.
- Weights: a tensor is its name and its bytes; dtype and shape enter only through the byte size; conversion and device placement are not modelled.
- KimiReceive.ReceiveTensor: `_gen_h2d_buckets`, `_copy_to_buffer` and `_to_named_tensor` are external, so the list of buckets and the offsets of items inside a bucket are given; a nonempty list of buckets that fit the bucket size is required, as the source asserts or presupposes.
- Mooncake's own filling loop fills greedily like the others and is not modelled again; the bucket sequence of its state machine is any valid one.
- LayerNumbering.MergeStateDicts: keys are split into layer, parameter and skipped ones by the caller; the name tables, and the renaming of experts, query-key-value and gate-up parts within a layer, are not modelled.
- LayerNumbering.MergeLegacy: each chunk is given after its merge across tensor-parallel ranks, which is `QkvLayout.MergeAcrossTp` for the fused tensors.
- SaveIndex.SaveModel: requires a shard of at least one layer, which the search guarantees; tensors, the element count and the file names' text are not modelled.
- QkvLayout.MergeAcrossTp: only the fused query-key-value branch; gate-up halves and plain concatenation would add easy members.
- ExpertRanges.LocalExperts: the copying of the two weights of an expert is one assignment; the ungrouped variant of the DeepSeek conversion is not modelled.
- MoeExperts.MergeMain: parameter names are a datatype, not text; tensors are nested sequences of slices.
- The other layers of `converter_hf_to_mcore.py` and the parameter counts are straight-line copies.
- DataProtos.Chunk: batches whose arrays differ in length, which the source checks only beside a tensor batch, are excluded; meta information, its merging and metrics are not modelled.
- DataProtoDispatch.ChunksIff: chunking a tensor batch without rows is taken to give empty chunks, as torch.chunk does; the same holds for `DataProtos.Chunk` and `DataProtoDispatch.ChunkMapConcat`.
- DataProtoObjects.DataProto.Reorder: a tensor batch without tensors is taken to accept any index, as there is nothing to look up.
- MooncakeViews.ViewsIff: for streams in which every bucket whose buffer is used again is distinguishable from the magic; for the others `MooncakeLag.WrongBytes` gives a sufficient condition for wrong bytes, not the exact one, which depends on how often rank 1 can fall behind and on bytes copied while a buffer is being refilled.
- DataProtoObjects.UnfoldBatchDim: a tensor batch without any tensor is a failure; the change of the argument's batch-size attribute is not modelled.
- DataProtoColumns.UnfoldKeepsRows: requires a nonempty batch of regular tensors, as an empty one has no rows to read the width from.
- DataProtoObjects.DataProto.FoldBatchDim: folding an empty batch is taken to succeed; a view of no elements with a dimension to infer is ambiguous and may raise.
- MoeExperts.Shape: an empty tensor has no trailing dimensions, so a stack of empty tensors that differ only in those is not told apart.
- BoundingBox.MaybeResizeBBox: floating-point rounding and values that are no numbers are not modelled; the checks for zero sides are unreachable and dropped.
- Serialisation, union, pop, rename and iterators of `DataProto`; rate limiters; the other string clean-ups of `parser.py`; model loading and saving; trainers: I/O, finite tables or easy members.
