# Verified models of the weight-transfer layer and its neighbours

A training job keeps a copy of its model on rollout workers. After each update the
new weights travel there: cut into chunks, packed into buckets, sent through
alternating buffers over a broadcast or along a chain of ranks, and put together
again. This project models that layer of `verl` (`exp3_fine_tuning/verl/verl/checkpoint_engine`)
in Dafny and proves what it promises, together with four smaller parts of the
repository: iterative null-space projection, the batch algebra of `DataProto`, and the
layout arithmetic of the checkpoint scripts.

`dafny verify dfyconfig.toml` checks everything.

| Part | Files |
|---|---|
| Chunks, merging, buckets | `WeightChunks`, `Buckets` |
| NCCL engine: two alternating buffers | `NcclEngine` |
| NIXL chain: transition system, safety, progress | `NixlChain`, `NixlSafety`, `NixlProgress` |
| Mooncake chain: the same with signal slots, over several synchronisations, and its sender | `MooncakeChain`, `MooncakeSafety`, `MooncakeProgress`, `MooncakeStale`, `MooncakeSessions`, `MooncakeSender` |
| Delta engine | `FlushBuckets`, `DeltaWire`, `GatherQueues`, `SparseGather`, `GatherFlush`, `WeightDeltas`, `DeltaBuckets`, `DeltaRounds`, `DeltaGather`, `DeltaParts`, `ShardPlacements`, `ShardExports`, `DeltaMessages`, `DeltaEngine`, `WireBytes`, `WireTables`, `DeltaSync`, `DeltaRuns` |
| Kimi engine | `KimiSender`, `KimiReceiver` |
| INLP | `LinearAlgebra`, `Projections`, `Inlp`, `InlpRunner` |
| Batches | `DataProtos`, `BatchReshapes` |
| Checkpoint layouts | `Chunking`, `PipelineShards`, `QkvLayout`, `LayerNumbering`, `RankNumbering`, `MoeLayout` |
| Shared | `Sequences`, `Arithmetic`, `OrderedDicts`, `ValueTypes`, `Wrappers` |

How things are represented:

- A tensor is the sequence of its bytes, or of its rows where only rows matter; names
  are strings. `TensorMeta.offset`, which the sender fills in later, is kept beside the
  rest as `Placed(meta, offset)`. A chunk is a slice of a buffer and keeps the byte at
  which it begins, because viewing it as another type needs that to be a multiple of the
  item size.
- Loops that write buffers work on arrays; loops that only update variables are methods
  with invariants. Each is proved equal to a function, and the promises are lemmas about
  that function.
- The chains are transition systems. Every `await` is a boundary between steps, and a
  lemma about reachable states covers every interleaving of any number of ranks. A
  transfer tears its destination while it runs, so reading too early is visible as a
  torn cell. The bytes of a broadcast in flight are taken from, and land in, its buffer
  at an arbitrary moment before the wait.
- Assertions and exceptions of the source are results (`None`, an error value or a
  faulted phase), not preconditions.
- A value of a weight is a datatype by its bits: NaNs with payloads, two zeros, and all
  other numbers. Two-byte float types are compared by bits, others as numbers. A tensor
  of values also has a type, which concatenating or stacking promotes.
- INLP is over exact reals. Each trained classifier is an arbitrary vector with an
  arbitrary accuracy.

What the proofs found:

- A tensor without bytes yields no chunk and so never arrives; the transfer is the
  identity exactly when every tensor has bytes (`RoundTripIffNoEmptyTensor`).
- The senders pack without alignment, and the receivers view a whole tensor in place.
  The tensors arrive exactly when every unsplit one lies at a multiple of its item size
  in its bucket (`WireDelivers`, `ChainDeliversIff`); three bf16 values and one float32 in
  one bucket fail (`MixedItemSizesFail`). One item size that divides the bucket size is
  enough (`OneItemSizeViewable`, `OneTypeAlignedIff`). The Kimi receiver views in place
  too (`ReceiveTensors`); the places come from another package.
- The reported wire bytes of a steady synchronisation are never more than the published
  ones, and equal exactly when no flush mixes value types of different sizes
  (`WireBytesIff`, `MixedTypesUndercount`): the values of a flush are concatenated in a
  promoted type.
- Mooncake clears a signal slot only when it waits on it, and the last signals of a
  synchronisation are never waited for. `FinishedLeaves` gives the slots that any
  finished synchronisation leaves behind; one is safe exactly when no slot with such a
  signal is waited on before its last bucket (`SafeIffHarmless`). After any history of
  safe synchronisations over the same engines this excludes almost every next one of
  three or more buckets (`MooncakeSessions.NextSyncSafeIff`).
- The Mooncake and Kimi senders describe a bucket by a dictionary from names: a name
  repeated within a bucket silently loses the earlier tensor, and nothing else is lost
  (`WireDeliversIff`, `NothingIsLostIff`).
- The byte difference ships an element that changes to NaN, be it from a number or from
  another NaN, and the masked copy drops it; the rollout gets the trainer's weights
  exactly when there is none (`SteadySyncIff`, `ChangedNaNIsDropped`).
- Outside the two-byte floats the sweep compares numbers, not bits: a NaN that never
  changed fails it although the weights agree (`UnchangedNaNFailsSweep`), and zeros of
  different signs pass it (`SignedZeroPasses`). `RunTracksTrainer` gives the exact
  condition under which no sweep of a whole run fails.
- Two deltas of one parameter that give one element different values are applied in an
  order that depends on `batch_gather` (`ConflictsDependOnBatching`); differences of two
  states of the trainer never conflict.
- INLP's accumulated projection annihilates every earlier direction exactly when each
  new direction was orthogonal to the earlier ones or had no effect
  (`KillsThroughoutIff`); `FirstDirectionReturns` is the smallest failure. The doc
  comment of `remove_direction` promises a projection along `w`; with the clamp this
  removes the component exactly when the squared norm is at least 1e-12
  (`AnnihilatedIff`).
- The search for pipeline shards promises shards for every `layer_num >= pp_size`, but
  raises IndexError for example for 5 layers on 4 stages; `CandidateExistsIff` gives the
  exact condition.
- The layer numbers of merged pipeline chunks are right exactly when no chunk with layers
  follows a chunk without (`NumberedRightIff`, and over all ranks `RanksNumberedIff`).
- Merging tensor parallel shards of a fused query/key/value tensor is right exactly when
  the number of shards divides the groups; for other numbers it can succeed with key rows
  among the queries (`PackShardMergeIff`, `ThreeGroupsOnTwoShards`).
- `unfold_column_chunks` documents that without split keys all keys are repeated; it
  raises TypeError exactly when there is a non-tensor column (`UnfoldColumnChunks`).
- `fold_batch_dim` rewrites the columns of the batch it is given, which is left with
  columns of another length than its tensors (`CallerLeftUneven`).
- With padding enabled, `chunk` still fails on a batch with tensors exactly when the
  rounded-up chunk size uses up the rows before the last chunk (`Chunking.TorchCount`).
- Merging and splitting a mixture-of-experts state dict restores it exactly when
  `num_experts` is configured (the merge also accepts `n_routed_experts`, the split does
  not), the experts can be stacked and have one type per layer and projection, and there
  was no stacked key before (`MergeThenSplit`).

## Model

Paths are relative to the repository root.

| member | source | states |
|---|---|---|
| WeightChunks.SplitWeightChunks | exp3_fine_tuning/verl/verl/checkpoint_engine/base.py:553-567 | the chunk loop with its running offset yields, tensor after tensor, consecutive slices of at most bucket_size bytes with their offsets and sizes, and nothing for a tensor without bytes |
| WeightChunks.Merger.Accept | exp3_fine_tuning/verl/verl/checkpoint_engine/base.py:583-609 | one iteration of the merge loop with its buffer, sized by the first chunk, filled in place: the new state and the tensor yielded, or exactly the assertion, view or assignment that fails, also for a chunk that begins within an item |
| WeightChunks.MergeWeightChunks | exp3_fine_tuning/verl/verl/checkpoint_engine/base.py:582-609 | the whole merge loop equals the merge function on any chunks at any places in their buffers, including where it stops with which assertion, view or assignment |
| WeightChunks.MergeAfterSplit | exp3_fine_tuning/verl/verl/checkpoint_engine/base.py:541-609 | merging after splitting gives back exactly the tensors that have bytes, bit for bit and in order, with no assertion firing |
| WeightChunks.RoundTripIffNoEmptyTensor | exp3_fine_tuning/verl/verl/checkpoint_engine/base.py:556-567 | the round trip is the identity if and only if every tensor has bytes |
| WeightChunks.MergeOkIff | exp3_fine_tuning/verl/verl/checkpoint_engine/base.py:583-609 | merging arbitrary chunks succeeds if and only if each can come where it comes: a small tensor whole, aligned and between tensors, the first chunk of a large one at offset 0, a later one under the first one's name where the one before ended, each with the bytes of its place |
| Buckets.PackFromTiles | exp3_fine_tuning/verl/verl/checkpoint_engine/nccl_checkpoint_engine.py:252-285 | the buckets hold all chunks, each once and in order |
| Buckets.PackFromGreedy | exp3_fine_tuning/verl/verl/checkpoint_engine/nccl_checkpoint_engine.py:257-278 | every bucket fits, so the overflow assertion never fires, and the first chunk of a bucket would not have fitted in the one before |
| Buckets.RepeatsNameIff | exp3_fine_tuning/verl/verl/checkpoint_engine/nccl_checkpoint_engine.py:279 | the duplicate-name assertion fires if and only if some bucket would hold two chunks of one name |
| Buckets.PackFromDistinct | exp3_fine_tuning/verl/verl/checkpoint_engine/nixl_checkpoint_engine.py:397-426 | when two chunks of one name are only ever full ones followed by a later one, no bucket holds two chunks of one name |
| Buckets.SenderNeverFails | exp3_fine_tuning/verl/verl/checkpoint_engine/nixl_checkpoint_engine.py:420-421 | with distinct weight names the senders' assertions never fire |
| Buckets.WireDelivers | exp3_fine_tuning/verl/verl/checkpoint_engine/base.py:570-609 | any wire that carries the packed buckets unpacks to the sender's chunks and merges to the trainer's non-empty tensors, if and only if every unsplit chunk's place in its bucket is a multiple of its item size; otherwise a view fails after some of them |
| Buckets.OneItemSizeViewable | exp3_fine_tuning/verl/verl/checkpoint_engine/base.py:586-592 | every place is such a multiple when all tensors have one item size that divides the bucket size, or none of which is split |
| Buckets.MixedItemSizesFail | exp3_fine_tuning/verl/verl/checkpoint_engine/base.py:590 | three bf16 values and then one float32 value in one bucket: the view of the second tensor, at byte 6, fails |
| NcclEngine.StartBroadcast | exp3_fine_tuning/verl/verl/checkpoint_engine/nccl_checkpoint_engine.py:257-276 | waiting for the previous broadcast and starting the next one appends exactly the chunks of the filled buffer to what was started |
| NcclEngine.MakeRoomFor | exp3_fine_tuning/verl/verl/checkpoint_engine/nccl_checkpoint_engine.py:257-276 | a full bucket is broadcast and the buffers swapped; afterwards the buffer being filled is never the one in flight and the chunk fits |
| NcclEngine.Fill | exp3_fine_tuning/verl/verl/checkpoint_engine/nccl_checkpoint_engine.py:278-284 | writing one chunk into the bucket keeps the chunks below it and the buffer in flight unchanged |
| NcclEngine.SendChunks | exp3_fine_tuning/verl/verl/checkpoint_engine/nccl_checkpoint_engine.py:252-299 | the send loop puts on the wire exactly the packed buckets with only the last one flagged, whenever the bytes in flight are taken before the wait, and fails if and only if a name repeats in a bucket |
| NcclEngine.SendWeights | exp3_fine_tuning/verl/verl/checkpoint_engine/nccl_checkpoint_engine.py:249-299 | the same from whole tensors |
| NcclEngine.YieldBucket | exp3_fine_tuning/verl/verl/checkpoint_engine/nccl_checkpoint_engine.py:356-372 | a bucket's chunks are yielded from their buffer unchanged although the next message arrives in the other buffer after any number of yields |
| NcclEngine.ReceiveWeightChunks | exp3_fine_tuning/verl/verl/checkpoint_engine/nccl_checkpoint_engine.py:327-380 | the receive loop ends at the flagged message having yielded every chunk of every message in order |
| NcclEngine.SynchroniseWeights | exp3_fine_tuning/verl/verl/checkpoint_engine/nccl_checkpoint_engine.py:231-380 | end to end: with distinct names and any bucket size no assertion fires on either side, and the rollout's tensors are the trainer's non-empty tensors bit for bit and in order, if and only if every unsplit one lies at a multiple of its item size in its bucket; otherwise a view fails |
| NixlSafety.StepInv | exp3_fine_tuning/verl/verl/checkpoint_engine/nixl_checkpoint_engine.py:397-526 | every step of any rank, and every completed read, keeps the invariant of the chain |
| NixlSafety.NoFault | exp3_fine_tuning/verl/verl/checkpoint_engine/nixl_checkpoint_engine.py:170-174 | over all interleavings of any number of ranks the notify-key assertion never fires and no torn buffer is yielded |
| NixlSafety.NoOverwrite | exp3_fine_tuning/verl/verl/checkpoint_engine/nixl_checkpoint_engine.py:402-418 | no step changes a buffer that the successor was told of and has not finished reading, and it holds one whole bucket |
| NixlSafety.OneOutstanding | exp3_fine_tuning/verl/verl/checkpoint_engine/nixl_checkpoint_engine.py:143-174 | a link has one announced, running or unacknowledged read exactly when its owner has an outstanding readable operation, else none |
| NixlSafety.AtMostTwoAhead | exp3_fine_tuning/verl/verl/checkpoint_engine/nixl_checkpoint_engine.py:475-507 | a rank is never more than two buckets ahead of its successor, and never behind it |
| NixlSafety.YieldsInOrder | exp3_fine_tuning/verl/verl/checkpoint_engine/nixl_checkpoint_engine.py:491-522 | at every moment a rank has yielded a prefix of rank 0's chunks, and all of them when it is done |
| NixlProgress.StuckOnlyWhenDone | exp3_fine_tuning/verl/verl/checkpoint_engine/nixl_checkpoint_engine.py:475-526 | a reachable state without an enabled step is final: every rank is done and has yielded everything |
| NixlProgress.EveryRunEnds | exp3_fine_tuning/verl/verl/checkpoint_engine/nixl_checkpoint_engine.py:397-436 | every step decreases the work left over all ranks, so no schedule is longer than the initial work |
| NixlProgress.CanFinish | exp3_fine_tuning/verl/verl/checkpoint_engine/nixl_checkpoint_engine.py:475-526 | every schedule extends to one after which all ranks are done |
| NixlProgress.ChainDelivers | exp3_fine_tuning/verl/verl/checkpoint_engine/nixl_checkpoint_engine.py:440-450 | whatever the interleaving, when nothing more can happen every rollout rank has merged exactly the trainer's non-empty tensors, if and only if every unsplit one lies at a multiple of its item size in its bucket |
| NixlProgress.NoMergeFails | exp3_fine_tuning/verl/verl/checkpoint_engine/nixl_checkpoint_engine.py:440-450 | under that condition no merge has failed on any rank at any moment of any interleaving, so no rank stops reading |
| MooncakeSafety.StepInv | exp3_fine_tuning/verl/verl/checkpoint_engine/mooncake_checkpoint_engine.py:180-315 | every step of any rank keeps the invariant: how far ranks are apart, which signals wait in which slot, which halves are whole |
| MooncakeSafety.NoFault | exp3_fine_tuning/verl/verl/checkpoint_engine/mooncake_checkpoint_engine.py:285-289 | no tensor is yielded from a torn half |
| MooncakeSafety.HarmlessNeverOverwrites | exp3_fine_tuning/verl/verl/checkpoint_engine/mooncake_checkpoint_engine.py:196-203 | from cleared slots, or slots not waited on before the last bucket, no rank reuses a half before its successor has read it, for any number of ranks and buckets |
| MooncakeStale.StaleOverwrites | exp3_fine_tuning/verl/verl/checkpoint_engine/mooncake_checkpoint_engine.py:149-155 | for any number of ranks, a signal left over in a slot that is waited on before the last bucket lets some interleaving tear a half that the successor was told of and has not read |
| MooncakeStale.SafeIffHarmless | exp3_fine_tuning/verl/verl/checkpoint_engine/mooncake_checkpoint_engine.py:149-227 | no rank reuses a half too early, over all interleavings, if and only if no stale signal lies in slot 0 with more than two buckets or in slot 1 with more than three |
| MooncakeSessions.NextSyncSafeIff | exp3_fine_tuning/verl/verl/checkpoint_engine/mooncake_checkpoint_engine.py:87-155 | after any number of finished safe synchronisations over the same engines the next one, over all interleavings of all of them, never reuses a half too early if and only if it is the first, or has at most two buckets, or the chain has one receiver, no earlier one had an even number of buckets, and it has at most three if an earlier one had three or more |
| MooncakeSafety.OwnSignalOnly | exp3_fine_tuning/verl/verl/checkpoint_engine/mooncake_checkpoint_engine.py:149-155 | a wait for a half is released only after the signal for the bucket two back, rank 0's last wait only after that for the last bucket |
| MooncakeProgress.YieldsInOrder | exp3_fine_tuning/verl/verl/checkpoint_engine/mooncake_checkpoint_engine.py:262-315 | every rank yields the sender's tensors in order, and all of them once it is done |
| MooncakeProgress.StuckOnlyWhenDone | exp3_fine_tuning/verl/verl/checkpoint_engine/mooncake_checkpoint_engine.py:201-227 | from cleared or harmless slots there is no deadlock: when nothing more can happen every rank is done and has yielded everything |
| MooncakeProgress.FinishedLeaves | exp3_fine_tuning/verl/verl/checkpoint_engine/mooncake_checkpoint_engine.py:149-227 | what a finished synchronisation leaves in the slots, for any harmless signals it found there: the exact leftovers in slots it found clear, and a stale signal unless rank 0's last wait took it |
| MooncakeSender.SendWeights | exp3_fine_tuning/verl/verl/checkpoint_engine/mooncake_checkpoint_engine.py:177-227 | packing whole tensors, in alternating halves and with a dictionary per bucket, sends the greedy buckets with only the last one flagged, or fails if and only if some tensor exceeds the bucket size, with exactly the buckets of the tensors before it sent |
| MooncakeSender.WireDeliversIff | exp3_fine_tuning/verl/verl/checkpoint_engine/mooncake_checkpoint_engine.py:209-214 | the messages hold all tensors bit for bit and in order, empty ones included, if and only if no name is repeated within a bucket, as with distinct names, and every tensor lies at a multiple of its item size in the two halves |
| MooncakeSender.ChainDeliversIff | exp3_fine_tuning/verl/verl/checkpoint_engine/mooncake_checkpoint_engine.py:158-315 | from the trainer's tensors to every receiver: whatever the interleaving, when nothing more can happen each has yielded exactly the trainer's tensors, if and only if no name is repeated within a bucket and every tensor lies at a multiple of its item size in the two halves |
| MooncakeSender.DistinctNeverRepeat | exp3_fine_tuning/verl/verl/checkpoint_engine/mooncake_checkpoint_engine.py:209-214 | with distinct weight names no bucket repeats a name |
| MooncakeSender.OneTypeAlignedIff | exp3_fine_tuning/verl/verl/checkpoint_engine/mooncake_checkpoint_engine.py:282-289 | tensors of one item size lie so if and only if they need a single bucket or the item size divides the bucket size, where the second half begins |
| MooncakeProgress.EveryRunEnds | exp3_fine_tuning/verl/verl/checkpoint_engine/mooncake_checkpoint_engine.py:262-315 | no schedule is longer than the initial work |
| FlushBuckets.FlushBucket.Add | exp3_fine_tuning/verl/verl/checkpoint_engine/delta_checkpoint_engine.py:118-122 | adding a piece keeps the class invariant: one pending flush, all earlier flushes published without the flag |
| FlushBuckets.FlushBucket.Finish | exp3_fine_tuning/verl/verl/checkpoint_engine/delta_checkpoint_engine.py:542-546 | sealing and emitting publishes exactly the flushes cut from all pieces, with the flag on the last only |
| FlushBuckets.FlushesTile | exp3_fine_tuning/verl/verl/checkpoint_engine/delta_checkpoint_engine.py:118-134 | every piece is in exactly one flush, in order |
| FlushBuckets.FlushesReachCap | exp3_fine_tuning/verl/verl/checkpoint_engine/delta_checkpoint_engine.py:121-129 | no flush is empty, and every flush but the last reaches the cap with its last piece and not before |
| DeltaWire.Int32RoundTrip | exp3_fine_tuning/verl/verl/checkpoint_engine/delta_checkpoint_engine.py:437-443 | a position survives the int32 encoding if and only if it is below 2^31; from there to 2^32 it comes out negative |
| DeltaWire.AssembleFlush | exp3_fine_tuning/verl/verl/checkpoint_engine/delta_checkpoint_engine.py:431-469 | the loop with its running offsets builds the flush function's table and buffers, with the values in their promoted type, or fails exactly when a parameter has 2^31 elements or more |
| DeltaWire.AssembledTiles | exp3_fine_tuning/verl/verl/checkpoint_engine/delta_checkpoint_engine.py:445-458 | the offset table tiles both buffers without gap or overlap |
| DeltaWire.AssembledEntry | exp3_fine_tuning/verl/verl/checkpoint_engine/delta_checkpoint_engine.py:445-456 | entry k of the table has the name, type and shape of piece k, four bytes of position for each value, and cuts out exactly its positions and values |
| WireTables.TablesDescribeParams | exp3_fine_tuning/verl/verl/checkpoint_engine/delta_checkpoint_engine.py:445-456 | end to end: every entry of every table of a steady synchronisation has the name, type and shape of one of the trainer's parameters, and four bytes of position for each value |
| DeltaWire.DecodeAssembled | exp3_fine_tuning/verl/verl/workers/rollout/sglang_rollout/delta_loader.py:177-199 | the receiver decodes every entry of the table to the NaN-masked tensor of the piece it was made from, in that piece's type and shape |
| DeltaWire.ApplyIsScatterIff | exp3_fine_tuning/verl/verl/workers/rollout/sglang_rollout/delta_loader.py:213-222 | the masked copy writes exactly the delta's values if and only if no element changes to NaN, from a number or from another NaN |
| DeltaWire.ApplySlices | exp3_fine_tuning/verl/verl/checkpoint_engine/delta_checkpoint_engine.py:137-148 | applying the slices of a delta one after the other is applying the whole delta once, for any slice size |
| GatherQueues.GatherQueue.PutEntry | exp3_fine_tuning/verl/verl/checkpoint_engine/delta_checkpoint_engine.py:175-179 | the queue dictionary and the rounds made so far are those given by the puts |
| GatherQueues.GatherQueue.FlushAll | exp3_fine_tuning/verl/verl/checkpoint_engine/delta_checkpoint_engine.py:181-190 | the final rounds are made in the order of first puts and all queues are empty afterwards |
| GatherQueues.RanksAgree | exp3_fine_tuning/verl/verl/checkpoint_engine/delta_checkpoint_engine.py:151-164 | two ranks with the same groups in the same order of puts, whatever their payloads, make the same gathers of the same sizes in the same order |
| GatherQueues.RanksRelated | exp3_fine_tuning/verl/verl/checkpoint_engine/delta_checkpoint_engine.py:175-191 | whatever relates the entries that two ranks put, entry by entry, relates the entries of their rounds, batch by batch |
| GatherQueues.FlushedOnceInOrder | exp3_fine_tuning/verl/verl/checkpoint_engine/delta_checkpoint_engine.py:175-191 | every entry is flushed exactly once, in its group's order |
| GatherQueues.RoundSizes | exp3_fine_tuning/verl/verl/checkpoint_engine/delta_checkpoint_engine.py:178-179 | a round made by a put has exactly batch_k entries and what stays queued is less |
| SparseGather.ComputeCuts | exp3_fine_tuning/verl/verl/checkpoint_engine/delta_sync/sparse_gather.py:94-101 | the cuts partition the slots into consecutive non-empty rounds, each a single slot or within the budget on every rank, and no round but the last could also take the slot after it |
| SparseGather.RoundBudgetIs | exp3_fine_tuning/verl/verl/checkpoint_engine/delta_sync/sparse_gather.py:88-93 | a rank may send n elements in a round if and only if n is at most one or their bytes are within the bound |
| ValueTypes.PromoteAllIsLeast | exp3_fine_tuning/verl/verl/checkpoint_engine/delta_checkpoint_engine.py:205 | the type of a concatenation is the least one: a type can hold all values of the given types if and only if it can hold those of the promoted one |
| ValueTypes.SizeIs | exp3_fine_tuning/verl/verl/checkpoint_engine/delta_checkpoint_engine.py:625-626 | the sizes counted are those of a sign, an exponent and a fraction |
| SparseGather.GatherRound | exp3_fine_tuning/verl/verl/checkpoint_engine/delta_sync/sparse_gather.py:119-156 | padding, gathering and slicing by the matrix of lengths gives rank 0 each slot's entries of all ranks in rank order |
| SparseGather.GatherSlots | exp3_fine_tuning/verl/verl/checkpoint_engine/delta_sync/sparse_gather.py:62-156 | split into rounds or not, the batched gather gives exactly what one gather per slot would; no padded round of several slots exceeds the budget on any rank |
| GatherFlush.EntryInBlob | exp3_fine_tuning/verl/verl/checkpoint_engine/delta_checkpoint_engine.py:203-214 | in the concatenations of a batch, slot j of entry e is where the running slot index says |
| GatherFlush.FlushGroup | exp3_fine_tuning/verl/verl/checkpoint_engine/delta_checkpoint_engine.py:185-215 | a round gives rank 0, for every slot of every entry, exactly the changes of all ranks in rank order, whatever their sizes and however the gather is split |
| GatherFlush.FlushLocal | exp3_fine_tuning/verl/verl/checkpoint_engine/delta_checkpoint_engine.py:191-201 | without a process group every slot gets its own slice of rank 0's part |
| DeltaBuckets.BucketSliced | exp3_fine_tuning/verl/verl/checkpoint_engine/delta_checkpoint_engine.py:142-148 | the loop adds exactly the slices of the delta with their wire sizes to the bucket |
| DeltaBuckets.SliceAt | exp3_fine_tuning/verl/verl/checkpoint_engine/delta_checkpoint_engine.py:142-148 | slice k of a delta has the elements from k * 67108864 on, up to 67108864 of them, and there is one if and only if there is such an element |
| DeltaBuckets.BucketRounds | exp3_fine_tuning/verl/verl/checkpoint_engine/delta_checkpoint_engine.py:193-215 | consuming all gathered slots adds their slices in order and counts their wire bytes, empty slots adding nothing |
| DeltaBuckets.SlicedBytes | exp3_fine_tuning/verl/verl/checkpoint_engine/delta_checkpoint_engine.py:137-148 | the bytes counted by the bucket for all slices are the wire bytes of the slots |
| DeltaBuckets.ApplySliced | exp3_fine_tuning/verl/verl/checkpoint_engine/delta_checkpoint_engine.py:613-627 | applying all slices is applying each slot's whole delta once |
| DeltaBuckets.SlicedWellFormed | exp3_fine_tuning/verl/verl/checkpoint_engine/delta_checkpoint_engine.py:440-442 | all slices pass the int32 assertion if and only if every slot with changed elements does |
| DeltaRounds.RoundsCarrySlots | exp3_fine_tuning/verl/verl/checkpoint_engine/delta_checkpoint_engine.py:175-215 | the gather rounds carry exactly the slots that were put |
| WeightDeltas.EffectAt | exp3_fine_tuning/verl/verl/workers/rollout/sglang_rollout/delta_loader.py:203-222 | after applying deltas that do not conflict, an element has the value that some delta gives it, or its old one; order and repetition do not matter, and a parameter may have several deltas |
| WeightDeltas.DeltaAt | exp3_fine_tuning/verl/verl/workers/rollout/sglang_rollout/delta_loader.py:203-222 | after the difference of two trainer states is applied, every element has its new value, unless that is NaN: then it keeps the old one |
| WeightDeltas.DeltaIsExactIff | exp3_fine_tuning/verl/verl/workers/rollout/sglang_rollout/delta_loader.py:203-222 | applying the difference of two trainer states gives the new state if and only if no changed element is NaN afterwards |
| DeltaRounds.BatchingIsTransparent | exp3_fine_tuning/verl/verl/checkpoint_engine/delta_checkpoint_engine.py:151-164 | applying the slots in the order of the rounds equals applying them in the backend's order, for every batch size, when no two of them give one element different values |
| DeltaRounds.ConflictsDependOnBatching | exp3_fine_tuning/verl/verl/checkpoint_engine/delta_checkpoint_engine.py:175-191 | two conflicting deltas of one parameter in different groups end up in the other order |
| DeltaGather.OwnRounds | exp3_fine_tuning/verl/verl/checkpoint_engine/delta_checkpoint_engine.py:151-191 | every rank makes the same rounds, each with its own parts of the same parameters |
| DeltaGather.BatchOfIs | exp3_fine_tuning/verl/verl/checkpoint_engine/delta_checkpoint_engine.py:169 | the batch size is the given one, but at least one |
| DeltaGather.GatherDeltas | exp3_fine_tuning/verl/verl/checkpoint_engine/delta_checkpoint_engine.py:151-215 | every rank runs its queue on its own parts and the rounds are gathered: rank 0 gets exactly the rounds it would make if the whole delta of every parameter had been put there, each with its values in the type promoted over its batch, for any groups, batch size and byte budget |
| DeltaGather.DeliveredTypes | exp3_fine_tuning/verl/verl/checkpoint_engine/delta_checkpoint_engine.py:191-215 | the values of a delivered slot have the least type that includes those of all parameters of its round, and without a group their own |
| DeltaGather.NoGroupIsRankZero | exp3_fine_tuning/verl/verl/checkpoint_engine/delta_checkpoint_engine.py:191-201 | without groups rank 0's own part is the whole delta |
| DeltaParts.PartsAreDelta | exp3_fine_tuning/verl/verl/workers/engine/utils.py:190-222 | if every rank ships what changed in its own shard, the gathered slots are the difference of the two trainer states |
| ShardPlacements.TranslateOne | exp3_fine_tuning/verl/verl/workers/engine/spec.py:167-174 | the loop over the dimensions, dividing by the block's strides and multiplying by the whole's, computes the place of the block's element in the whole |
| ShardPlacements.ContiguousEmbed | exp3_fine_tuning/verl/verl/workers/engine/spec.py:136-166 | for a block that cuts the first dimension only, that place is the position plus the flat offset, so the fast path agrees |
| ShardPlacements.Translate | exp3_fine_tuning/verl/verl/workers/engine/spec.py:151-174 | all branches, an offset, the fast path and the general one, translate every position to its place |
| ShardPlacements.EmbedIn | exp3_fine_tuning/verl/verl/workers/engine/spec.py:115-174 | the place lies inside the whole and inside the block, with the block's coordinates shifted by its offset |
| ShardPlacements.EmbedInjective | exp3_fine_tuning/verl/verl/workers/engine/spec.py:115-174 | different positions of a block have different places |
| ShardPlacements.EmbedOnto | exp3_fine_tuning/verl/verl/workers/engine/spec.py:115-174 | every place inside the block is the place of one of its positions |
| ShardExports.Exporter.Export | exp3_fine_tuning/verl/verl/workers/engine/utils.py:207-222 | the export loop yields each shard's differences with its snapshot in the coordinates of the whole and refreshes the snapshots, up to the item for which the assertion fires |
| ShardExports.ExportOkIff | exp3_fine_tuning/verl/verl/workers/engine/utils.py:207-222 | the export succeeds if and only if every shard had a snapshot of its size; it puts one entry for each item before the first that fails and keeps the names and sizes of the snapshots |
| ShardExports.Exporter.Prime | exp3_fine_tuning/verl/verl/workers/engine/utils.py:226-242 | every snapshot is reassigned to the shard's present values |
| ShardExports.PrimedHold | exp3_fine_tuning/verl/verl/workers/engine/utils.py:226-242 | primed with the seed's weights, the snapshots are the rank's shards of them |
| ShardExports.ExportYields | exp3_fine_tuning/verl/verl/workers/engine/utils.py:190-222 | with the snapshots of the old state an export of the new one never fails, yields the rank's part of the change, and leaves the snapshots of the new state |
| ShardExports.ExportsHoldChanges | exp3_fine_tuning/verl/verl/checkpoint_engine/delta_sync/sparse_gather.py:41-58 | when the contributing shards partition every parameter, the ranks together put values of the new state, every changed element, and each on one rank only |
| DeltaMessages.ReceiveWeights | exp3_fine_tuning/verl/verl/checkpoint_engine/delta_checkpoint_engine.py:365-395 | the receive loop takes exactly the messages of one synchronisation, whatever follows on the channel, and yields all but a terminal marker |
| DeltaMessages.PublishIndexed | exp3_fine_tuning/verl/verl/checkpoint_engine/delta_checkpoint_engine.py:265-292 | every flush is published as its assembled form with its flag; publishing fails exactly when a flush cannot be assembled, and the earlier ones are out |
| DeltaMessages.ApplyIndexed | exp3_fine_tuning/verl/verl/workers/rollout/sglang_rollout/delta_loader.py:86-99 | decoding the published flushes and applying them gives the weights that applying the pieces in order gives |
| DeltaMessages.AssembleValues | exp3_fine_tuning/verl/verl/checkpoint_engine/delta_checkpoint_engine.py:491-509 | the values-only loop builds the concatenated values and their offset table |
| DeltaMessages.ValuesTableEntry | exp3_fine_tuning/verl/verl/checkpoint_engine/delta_checkpoint_engine.py:492-508 | entry k of a values-only table has the name, type and shape of parameter k, no positions, and cuts out exactly its values |
| DeltaMessages.MessagesKeepShape | exp3_fine_tuning/verl/verl/workers/rollout/sglang_rollout/delta_loader.py:86-119 | whatever is received, the rollout keeps its parameters and their sizes |
| DeltaMessages.ApplyDenseSets | exp3_fine_tuning/verl/verl/workers/rollout/sglang_rollout/delta_loader.py:102-116 | a values-only flush sets each named parameter to its own values, and a sweep counts what differs, by bits for two-byte floats and as numbers otherwise |
| DeltaMessages.NothingBadIff | exp3_fine_tuning/verl/verl/workers/rollout/sglang_rollout/delta_loader.py:122-174 | a sweep counts no mismatch if and only if every exported parameter that the rollout has compares equal to its exported value |
| DeltaMessages.DifferingCounts | exp3_fine_tuning/verl/verl/workers/rollout/sglang_rollout/delta_loader.py:152-156 | the count of a parameter is the number of its elements that differ |
| DeltaEngine.Engine.VerifyDue | exp3_fine_tuning/verl/verl/checkpoint_engine/delta_checkpoint_engine.py:413-418 | steady synchronisation number n verifies if and only if verify_every is positive and n is a multiple of it |
| DeltaEngine.Engine.SendFullSeed | exp3_fine_tuning/verl/verl/checkpoint_engine/delta_checkpoint_engine.py:471-546 | the export is published as the seed messages, each with the flag given; if and only if a name repeats the assertion fires, and then every full flush but the last of the parameters before is out; only a successful seed marks the engine seeded |
| DeltaEngine.SeedKinds | exp3_fine_tuning/verl/verl/checkpoint_engine/delta_checkpoint_engine.py:511-546 | everything that a seed or sweep publishes, failed or not, is a full export with its own flag, or the marker of a seed of nothing: a seed never goes out as a sweep |
| DeltaEngine.SteadyKinds | exp3_fine_tuning/verl/verl/checkpoint_engine/delta_checkpoint_engine.py:641-650 | the indexed part publishes indexed flushes only, or the marker of a synchronisation without changes |
| DeltaEngine.SeedNotSwept | exp3_fine_tuning/verl/verl/workers/rollout/sglang_rollout/delta_loader.py:79-83 | a seed counts no mismatch, whatever the rollout holds |
| DeltaEngine.Engine.SendSteady | exp3_fine_tuning/verl/verl/checkpoint_engine/delta_checkpoint_engine.py:597-650 | from the parts of all ranks, the indexed part publishes the steady messages of the gathered slots and counts their wire bytes at the value types promoted over each gather batch; if and only if a changed parameter is too large the assertion fires, and then exactly the flushes before are out, and the synchronisation is counted only if the loop had ended |
| DeltaEngine.Engine.SendWeights | exp3_fine_tuning/verl/verl/checkpoint_engine/delta_checkpoint_engine.py:572-656 | seed, steady or steady with sweep, chosen by the engine's state, from the parts of all ranks: the messages of each, and what is out when an assertion fires |
| DeltaEngine.SeedEndsOnce | exp3_fine_tuning/verl/verl/checkpoint_engine/delta_checkpoint_engine.py:542-546 | a seed or sweep publishes exactly one end marker, as its last message |
| DeltaEngine.SyncEndsOnce | exp3_fine_tuning/verl/verl/checkpoint_engine/delta_checkpoint_engine.py:644-656 | every steady synchronisation, with or without sweep and even with nothing changed, publishes exactly one end marker, as its last message |
| DeltaEngine.EndsOnceIffOk | exp3_fine_tuning/verl/verl/checkpoint_engine/delta_checkpoint_engine.py:542-656 | a synchronisation publishes its end marker, once and as its last message, if and only if no assertion fires; a failed one publishes none |
| DeltaEngine.SyncOkIff | exp3_fine_tuning/verl/verl/checkpoint_engine/delta_checkpoint_engine.py:597-656 | a steady synchronisation succeeds if and only if no changed parameter is too large and, when it sweeps, the export repeats no name; after a failed indexed part nothing of a sweep is published |
| DeltaEngine.SteadyApplies | exp3_fine_tuning/verl/verl/checkpoint_engine/delta_checkpoint_engine.py:609-650 | the published messages have the effect of applying each slot's whole delta once, for any bucket size |
| DeltaSync.SteadySyncIff | exp3_fine_tuning/verl/verl/checkpoint_engine/delta_checkpoint_engine.py:597-650 | whatever the batching, slicing and bucketing, a steady synchronisation takes the rollout from the trainer's old to its new weights, if and only if no changed element is NaN afterwards |
| DeltaSync.PartsReachRolloutIff | exp3_fine_tuning/verl/verl/checkpoint_engine/delta_checkpoint_engine.py:609-650 | from the parts that the ranks put, through queues, gathers, slices, flushes and messages, to the rollout's weights: they become the trainer's new ones if and only if no changed element is NaN afterwards |
| DeltaSync.ShardsReachRolloutIff | exp3_fine_tuning/verl/verl/checkpoint_engine/delta_checkpoint_engine.py:597-650 | from the shards of all ranks to the rollout: if they partition every parameter, the ranks put in step, the synchronisation succeeds if and only if no changed parameter has 2^31 elements or more, and then the rollout gets the trainer's new weights if and only if no changed element is NaN afterwards |
| DeltaSync.SweepIff | exp3_fine_tuning/verl/verl/checkpoint_engine/delta_checkpoint_engine.py:639-654 | the sweep finds nothing if and only if after the indexed part every exported parameter compares equal to the export, by bits for two-byte floats and as numbers otherwise; either way the export is then loaded |
| DeltaSync.EqualPassesIff | exp3_fine_tuning/verl/verl/workers/rollout/sglang_rollout/delta_loader.py:122-174 | a rollout that holds exactly the exported weights passes the sweep if and only if no parameter outside the two-byte floats holds a NaN |
| DeltaSync.UnchangedNaNFailsSweep | exp3_fine_tuning/verl/verl/workers/rollout/sglang_rollout/delta_loader.py:152-156 | a four-byte float that is NaN and stays NaN: the weights agree bit for bit and the sweep fails |
| DeltaSync.ChangedNaNIsDropped | exp3_fine_tuning/verl/verl/workers/rollout/sglang_rollout/delta_loader.py:213-222 | a two-byte float that changes from one NaN to another: the delta ships it and the rollout keeps the old one |
| DeltaSync.SignedZeroPasses | exp3_fine_tuning/verl/verl/workers/rollout/sglang_rollout/delta_loader.py:152-156 | zeros of different signs differ in their bits and pass the sweep of a four-byte float |
| DeltaSync.SeedReaches | exp3_fine_tuning/verl/verl/checkpoint_engine/delta_checkpoint_engine.py:590-596 | after the seed the rollout holds the trainer's weights, whatever it held before |
| DeltaRuns.RunTracksTrainer | exp3_fine_tuning/verl/verl/checkpoint_engine/delta_checkpoint_engine.py:572-656 | a whole run from fresh engines, any rollout weights and the shards of all ranks: after the seed and after every one of any number of steady synchronisations, exported from the snapshots of the one before and with no element changing to NaN, the rollout holds the trainer's weights; number n sweeps if and only if it is a multiple of verify_every; a mismatch is counted, at the seed or later, if and only if there is a sweep and a parameter outside the two-byte floats holds a NaN |
| DeltaRuns.SeedFailsIff | exp3_fine_tuning/verl/verl/checkpoint_engine/delta_checkpoint_engine.py:590-596 | a seed fails if and only if the export repeats a name; the engine is then not seeded and no snapshot is taken |
| DeltaRuns.RunEngine | exp3_fine_tuning/verl/verl/checkpoint_engine/delta_checkpoint_engine.py:572-656 | the same with the engine object: a loop of its send_weights calls, one for each of the trainer's states, gives the rollout these states one after the other |
| WireBytes.WireBytesIff | exp3_fine_tuning/verl/verl/checkpoint_engine/delta_checkpoint_engine.py:445-469 | the wire bytes counted are at most the bytes of the published buffers, and equal to them if and only if in every flush all values have the size of the type that the concatenation promotes to |
| WireBytes.MixedTypesUndercount | exp3_fine_tuning/verl/verl/checkpoint_engine/delta_checkpoint_engine.py:625-626 | one bf16 and one float32 value in one flush: 14 bytes are counted and 16 published |
| KimiSender.TensorGoesTo | exp3_fine_tuning/verl/verl/checkpoint_engine/kimi_checkpoint_engine.py:49-51 | tensor i is number i / world of rank i mod world |
| KimiSender.MineAt | exp3_fine_tuning/verl/verl/checkpoint_engine/kimi_checkpoint_engine.py:49-51 | number j of a rank is tensor j * world + rank, so a rank has no other tensors and keeps their order |
| KimiSender.NamedTensorBuckets | exp3_fine_tuning/verl/verl/checkpoint_engine/kimi_checkpoint_engine.py:44-63 | the loop yields the dictionaries of the greedy buckets of the rank's tensors, for any names, or raises for a bucket size that is not positive |
| KimiSender.BucketsAre | exp3_fine_tuning/verl/verl/checkpoint_engine/kimi_checkpoint_engine.py:52-63 | every tensor is in exactly one bucket, in order; no bucket is empty, one of several tensors is within bucket_bytes, and the next bucket's first tensor would not have fitted |
| KimiSender.NothingIsLostIff | exp3_fine_tuning/verl/verl/checkpoint_engine/kimi_checkpoint_engine.py:59 | what is sent are the rank's tensors, each once and in order, if and only if no name is repeated within a bucket, as with distinct names |
| KimiReceiver.BroadcastOnceInOrder | exp3_fine_tuning/verl/verl/checkpoint_engine/kimi_checkpoint_engine.py:104-125 | every bucket of every rank is broadcast exactly once, in that rank's order |
| KimiReceiver.YieldWhileReceiving | exp3_fine_tuning/verl/verl/checkpoint_engine/kimi_checkpoint_engine.py:126-155 | a bucket's tensors are yielded unchanged from its half while the next broadcast arrives in the other half after any number of yields, up to the first whose view in the half does not begin at a multiple of its item size |
| KimiReceiver.ReceiveTensors | exp3_fine_tuning/verl/verl/checkpoint_engine/kimi_checkpoint_engine.py:98-166 | every tensor of every broadcast is yielded exactly once with its own bytes, if and only if there is a bucket and every tensor's place in its half of the buffer is a multiple of its item size; otherwise it fails after a prefix of them |
| KimiReceiver.TensorAt | exp3_fine_tuning/verl/verl/checkpoint_engine/kimi_checkpoint_engine.py:144-152 | tensor i of a bucket has its own name and, byte for byte, the bytes of its place |
| KimiReceiver.AllAlignedIff | exp3_fine_tuning/verl/verl/checkpoint_engine/kimi_checkpoint_engine.py:144-166 | when the item sizes divide the bucket size, where the second half begins, the views succeed if and only if every place in its bucket is such a multiple |
| Projections.NullspaceIsRemoval | exp1_math/inlp_runner.py:264-273 | the matrix built from the formula has, as row i, the unit vector minus its component along w |
| Projections.VecMatProjects | exp1_math/inlp_runner.py:266-273 | multiplying a vector by the matrix subtracts its component along w |
| Projections.AnnihilatedIff | exp1_math/inlp_runner.py:272-273 | the component along w is gone if and only if there was none or the squared norm is at least the clamp |
| Projections.ComponentLeft | exp1_math/inlp_runner.py:272-273 | of a component along w nothing is left when the squared norm is at least 1e-12, and the share missing to 1e-12 below that |
| Projections.HalfIsRemoved | exp1_math/inlp_runner.py:272-273 | the direction [0.5] is removed from [1.0] |
| Projections.NormDoesNotGrow | exp1_math/inlp_runner.py:266-273 | a projection never makes a row longer, clamped or not |
| Inlp.PerpActs | exp1_math/inlp_runner.py:296-297 | multiplying by the accumulated matrix is projecting along every direction in turn |
| Inlp.RowsDoNotGrow | exp1_math/inlp_runner.py:404-434 | no row grows however many directions are removed |
| Inlp.PerpEntry | exp1_math/inlp_runner.py:264-297 | with orthogonal directions P_perp is the identity minus the sum of the outer products over the squared norms |
| Inlp.PerpSymmetric | exp1_math/inlp_runner.py:264-297 | with orthogonal directions P_perp is symmetric |
| Inlp.PerpIdempotent | exp1_math/inlp_runner.py:264-297 | with orthogonal directions P_perp is idempotent |
| Inlp.PerpKills | exp1_math/inlp_runner.py:264-297 | with orthogonal directions P_perp sends every removed direction to zero |
| Inlp.KillsNextIff | exp1_math/inlp_runner.py:404-434 | removing one more direction keeps all removed directions annihilated if and only if it is orthogonal to them or has no effect |
| Inlp.KillsThroughoutIff | exp1_math/inlp_runner.py:404-434 | the same for every iteration of a whole run |
| Inlp.FirstDirectionReturns | exp1_math/inlp_runner.py:404-434 | removing (1, 0) and then (1, 1) does not annihilate (1, 0) |
| InlpRunner.Runner.RemoveDirection | exp1_math/inlp_runner.py:276-300 | the chunk loop projects the whole matrix for every chunk size, P_perp is multiplied and recorded, and without rows the concatenation fails and nothing changes |
| InlpRunner.Runner.Run | exp1_math/inlp_runner.py:391-456 | after any run H is the original H times P_perp, entry k of the history is the product of the first k projections, the loop stops at the first accuracy near chance, and the accuracies are as many as the removed directions or one more |
| InlpRunner.RowsAfter | exp1_math/inlp_runner.py:404-434 | after a run each row is the original row projected along each direction in turn and is no longer |
| InlpRunner.LastDirectionGone | exp1_math/inlp_runner.py:432-434 | the direction removed last is gone from every row when it was not clamped |
| DataProtos.PadSizeDivides | exp3_fine_tuning/verl/verl/protocol.py:85-97 | the padding is less than the divisor, makes the size divisible, and is none for an empty batch |
| DataProtos.PadToDivisor | exp3_fine_tuning/verl/verl/protocol.py:74-99 | the padding loop ends and row i of the padded batch is row i mod n in every part |
| DataProtos.Unpad | exp3_fine_tuning/verl/verl/protocol.py:102-106 | unpadding drops exactly the last pad_size rows of every part |
| DataProtos.RowsDetermine | exp3_fine_tuning/verl/verl/protocol.py:917-934 | batches with the same parts and the same rows are the same, so that rows say everything |
| DataProtos.Chunk | exp3_fine_tuning/verl/verl/protocol.py:864-903 | chunk i holds the rows between two cuts that tile the batch, in the tensor block and in every other column; fails exactly when the size does not divide without padding, or when torch.chunk gives too few parts |
| DataProtos.EqualCuts | exp3_fine_tuning/verl/verl/protocol.py:875-882 | when the size divides, chunk i begins at row i * s and torch.chunk never gives too few parts |
| Chunking.TorchCount | exp3_fine_tuning/verl/verl/protocol.py:880-882 | torch.chunk gives as many parts as asked for unless the rounded-up size uses up the rows before the last part |
| DataProtos.Concat | exp3_fine_tuning/verl/verl/protocol.py:917-934 | the rows of the concatenation are the rows of the batches, of any sizes, in order, in every part |
| DataProtos.OnWorkers | exp3_fine_tuning/verl/verl/protocol.py:864-934 | chunking, computing and concatenating equals computing every row in order, whether or not the size divides, and fails exactly when chunking does |
| DataProtos.DispatchCompute | exp3_fine_tuning/verl/verl/protocol.py:74-106 | for any worker function that computes row by row on batches with the columns of the given one, padding, chunking, computing, concatenating and unpadding equals computing every row of the original batch in order |
| DataProtos.IdentityIsRowWise | exp3_fine_tuning/verl/verl/protocol.py:74-106 | the worker that returns its input is such a function for any columns |
| BatchReshapes.RepeatRow | exp3_fine_tuning/verl/verl/protocol.py:971-1013 | row i * times + j of an interleaved repeat is row i, in every part |
| BatchReshapes.RepeatCommutesWithChunk | exp3_fine_tuning/verl/verl/protocol.py:971-1013 | a chunk of the repeated batch is the repeated chunk |
| BatchReshapes.RepeatCommutesWithBlocks | exp3_fine_tuning/verl/verl/protocol.py:984-987 | cutting a repeated tensor into equal chunks is repeating each chunk |
| BatchReshapes.UnfoldFold | exp3_fine_tuning/verl/verl/protocol.py:202-238 | folding succeeds exactly when the size divides, and unfolding then restores the batch |
| BatchReshapes.FoldUnfold | exp3_fine_tuning/verl/verl/protocol.py:202-238 | folding an unfolded batch into as many groups restores it |
| BatchReshapes.CallersBatch.FoldBatchDim | exp3_fine_tuning/verl/verl/protocol.py:202-219 | folding returns the folded batch and reassigns every column of the caller's own dictionary, or fails and changes nothing |
| BatchReshapes.CallerLeftUneven | exp3_fine_tuning/verl/verl/protocol.py:214-217 | after folding, a column left with the caller has as many entries as its tensors if and only if the number of groups is the number of rows |
| BatchReshapes.UnfoldRowsMatch | exp3_fine_tuning/verl/verl/protocol.py:1015-1052 | row i * n + j of a split key is block j of row i and of any other key row i, for tensor and non-tensor keys alike, so rows stay matched across all keys |
| BatchReshapes.UnfoldColumnChunks | exp3_fine_tuning/verl/verl/protocol.py:1015-1052 | the loops over the tensor and the other keys unfold every key; TypeError if and only if split keys are missing and there is a non-tensor column, otherwise a failed reshape if and only if a split key's rows do not divide |
| BatchReshapes.DividesIff | exp3_fine_tuning/verl/verl/protocol.py:1024-1027 | a split key can be reshaped if and only if that keeps the number of its elements |
| PipelineShards.FirstOfSorted | exp3_fine_tuning/verl/verl/model_merger/megatron_model_merger.py:96-97 | the first element of the stable sort is the first candidate of least difference |
| PipelineShards.GetDynamicPipelineShards | exp3_fine_tuning/verl/verl/model_merger/megatron_model_merger.py:58-99 | the search over all middle sizes meets a closed form: the mean rounded up for the middle stages, or the errors |
| PipelineShards.UsableIff | exp3_fine_tuning/verl/verl/model_merger/megatron_model_merger.py:84-88 | a middle size is a candidate if and only if it is at least the mean rounded up and leaves two layers for the ends |
| PipelineShards.CandidateExistsIff | exp3_fine_tuning/verl/verl/model_merger/megatron_model_merger.py:84-97 | from three stages on, the search finds a candidate, and so does not raise IndexError, if and only if m * (pp_size - 2) + 2 <= layer_num for the mean m rounded up |
| PipelineShards.OutcomeIs | exp3_fine_tuning/verl/verl/model_merger/megatron_model_merger.py:66-99 | ValueError if and only if there are fewer layers than stages or no stage; shards if and only if neither and there are at most two stages or some placement with equal middle stages and even ends not larger; IndexError otherwise |
| PipelineShards.ShardsAreUniform | exp3_fine_tuning/verl/verl/model_merger/megatron_model_merger.py:66-98 | the shards sum to layer_num, are positive, none exceeds the mean rounded up, and first <= last <= first + 1 |
| PipelineShards.NoSmallerMaximum | exp3_fine_tuning/verl/verl/model_merger/megatron_model_merger.py:66 | no other placement has a smaller largest stage |
| PipelineShards.FiveLayersOnFourStages | exp3_fine_tuning/verl/verl/model_merger/megatron_model_merger.py:97 | five layers on four stages raise IndexError |
| QkvLayout.SplitTensors | exp3_fine_tuning/verl/verl/model_merger/megatron_model_merger.py:331-355 | the loop over chunks splits every group's columns, or fails exactly when a chunk has another size or an assertion fails |
| QkvLayout.MergeAcrossTp | exp3_fine_tuning/verl/scripts/legacy_model_merger.py:534-562 | the two nested loops split every chunk of every shard, or fail exactly when a chunk has another size |
| QkvLayout.PackSplit | exp3_fine_tuning/verl/scripts/converter_hf_to_mcore.py:155-160 | packing q, k and v per group and splitting gives q, k and v back, for any numbers of heads and groups that divide |
| QkvLayout.PackShardMerge | exp3_fine_tuning/verl/scripts/legacy_model_merger.py:534-562 | cutting the packed tensor into tp row shards, tp dividing the groups, and merging them gives the same q, k and v |
| QkvLayout.PackShardMergeIff | exp3_fine_tuning/verl/scripts/legacy_model_merger.py:534-562 | for any number of equal shards up to the number of groups: merging succeeds if and only if the rows of a shard divide into equal heads of groups / tp groups, and gives q, k and v if and only if tp divides the groups, the first key row not being a query row as well |
| QkvLayout.ThreeGroupsOnTwoShards | exp3_fine_tuning/verl/scripts/legacy_model_merger.py:534-562 | three groups on two shards merge without an error, with the first key row among the query rows |
| QkvLayout.SplitSucceedsIff | exp3_fine_tuning/verl/verl/model_merger/megatron_model_merger.py:335-350 | splitting succeeds if and only if heads divide among groups and the rows into equal heads of every group |
| LayerNumbering.Renumber | exp3_fine_tuning/verl/verl/model_merger/megatron_model_merger.py:361-419 | every local layer number is shifted by the running offset of its chunk |
| LayerNumbering.OffsetIs | exp3_fine_tuning/verl/scripts/legacy_model_merger.py:612-660 | the offset of a chunk is the number of layers before it plus one for every earlier chunk without layers |
| LayerNumbering.NumberedRightIff | exp3_fine_tuning/verl/scripts/legacy_model_merger.py:612-660 | all layers get their true numbers if and only if no chunk with layers follows one without |
| RankNumbering.RenumberRank | exp3_fine_tuning/verl/verl/model_merger/megatron_model_merger.py:361-419 | a rank shifts its chunks from the sum of the shards of the ranks before it on |
| RankNumbering.RanksNumberedIff | exp3_fine_tuning/verl/verl/model_merger/megatron_model_merger.py:361-419 | all ranks together give every number below the number of layers if and only if no rank has a chunk with layers after one without; then each once and no other |
| RankNumbering.ShardsNumberLayers | exp3_fine_tuning/verl/verl/model_merger/megatron_model_merger.py:361-366 | with the shards that the search finds, ranks of one chunk each number the layers 0 to layer_num - 1, each exactly once |
| MoeLayout.MergeUnit | exp3_fine_tuning/verl/scripts/veomni/moe_merge.py:96-100 | popping the experts of one layer and projection and inserting their stack changes these keys only, and fails exactly when one is missing, there is none, or they differ in shape |
| MoeLayout.RowOfStack | exp3_fine_tuning/verl/scripts/veomni/moe_split.py:83 | row j of a stack is expert j, in the type promoted over the stacked tensors |
| MoeLayout.Merge | exp3_fine_tuning/verl/scripts/veomni/moe_merge.py:79-110 | all loops, for any configuration entries: exactly the expert keys of the layers with experts are replaced by their stacks, the layers below first_k_dense_replace keep every key, and without that entry the experts of all layers are stacked; fails exactly when neither entry gives the number of experts, or the experts of some layer and projection are missing, none, or differ in shape |
| MoeLayout.MergeableIff | exp3_fine_tuning/verl/scripts/veomni/moe_merge.py:79-95 | experts are needed in every layer from first_k_dense_replace on, and in every layer when it is not configured; their number is num_experts, else n_routed_experts |
| MoeLayout.OneDenseLayer | exp3_fine_tuning/verl/scripts/veomni/moe_merge.py:88-95 | two layers, the first one dense: merging needs the entry |
| MoeLayout.SplitUnit | exp3_fine_tuning/verl/scripts/veomni/moe_split.py:77-83 | popping a stack and inserting its rows changes these keys only, and fails exactly when the stack is too short |
| MoeLayout.DividesIff | exp3_fine_tuning/verl/scripts/veomni/moe_split.py:81-83 | a stack is long enough if and only if every expert finds its row |
| MoeLayout.Split | exp3_fine_tuning/verl/scripts/veomni/moe_split.py:72-83 | all loops: exactly the stacked keys of the given layers are replaced by their rows; fails exactly when num_experts is not configured or a stack is too short |
| MoeLayout.RoundTripIff | exp3_fine_tuning/verl/scripts/veomni/moe_split.py:75-83 | splitting a merged state dict with as many experts restores it if and only if it held no stacked key of its own and the experts of each layer and projection have one type |
| MoeLayout.MergeThenSplit | exp3_fine_tuning/verl/scripts/veomni/moe_merge.py:79-110 | the two scripts in sequence, for any state dict and configuration: they restore it if and only if num_experts is configured, the experts can be stacked and have one type each layer and projection, and no stacked key was there; without stacked keys only the types can change |

## Left out

- Sockets, NCCL, RDMA, zmq and Ray: messages are reliable and in order, a transfer that was waited for is complete. GPU streams, cupy staging and the device-to-host buffer of the Kimi engine are not modelled.
- `hccl_checkpoint_engine.py` runs the same loops as the NCCL engine on another device.
- The NIXL `build_topology` makes a chain only for a rollout world of at least two ranks; the chain, with at least one receiver, is taken as given. Its `get_notification` rebinds its argument while it stores notifications, which is harmless because only the successor ever notifies.
- The NIXL sender packs buckets as the NCCL sender does; the chains start from the packed buckets, and `ChainDelivers` and `ChainDeliversIff` connect them to the tensors.
- NcclEngine.SynchroniseWeights: the trainer ranks other than 0 only drain their iterator and are not modelled.
- NixlProgress.ChainDelivers: a rank whose view fails stops the program's generator; the chain lets it go on with its transfers, and the failure is in what its merge gives. `NoMergeFails` excludes it under the condition of `ChainDelivers`. The chain of `MooncakeSender.ChainDeliversIff` goes on in the same way.
- Parameters whose type has no NaN, which the mask cannot leave unchanged, and deltas or values whose shape is not the parameter's; there the receiver raises.
- DeltaRounds.BatchingIsTransparent: conflicting deltas of one parameter; `ConflictsDependOnBatching` shows that the order is then not kept.
- WireBytes.WireBytesIff: the value types are four floating-point types; eight-bit floats do not promote, and parameters of integer type are outside the model as said above. Conversion to a promoted type and back is taken to be exact.
- DeltaGather.GatherDeltas: the ranks put the same parameters in the same order, as the backend promises; a rank outside rank 0's group for a parameter gathers with its own group, whose result is discarded.
- ShardExports.Param: a parameter that is its own single slot. How placements are derived from a device mesh and the conversion of fused parameters into several slots are not modelled; `HoldChanges` is what the claims need of them.
- The checksums of the delta flushes, dtype conversions and the chunking of `load_weights` calls.
- The bucket list of the Kimi receiver, `_gen_h2d_buckets`, belongs to another package and is arbitrary here.
- InlpRunner.Runner.Run: needs at least one row, without which the reshape before the loop raises. Training, losses and floating-point error are not modelled.
- DataProtos.Chunk: an empty batch is chunked into empty chunks.
- DataProtos.Concat: merging of meta_info and metrics; the batches have the same columns, as chunks of one batch do.
- BatchReshapes.Fold: needs a tensor block and at least one row.
- QkvLayout.SplitTensors: the gate/up branch and the remaining branches, which copy or concatenate.
- The converter's loops around the packing, name tables and file access of the checkpoint scripts.
- MoeLayout.Merge: the save and load between the two scripts keep every tensor, and the configuration entries are natural numbers.
