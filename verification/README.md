# KVarN-MLA decode, cache, offload and allocator: a verified model

This project models the hard core of a serving engine's quantised latent-attention path and of the
storage machinery around it, and proves what each part is for. It is written in Dafny 4.11;
`dafny verify dfyconfig.toml` checks all of it.

## What is modelled

**Decode kernels.** Three kernels compute the attention of one query (or of a group of heads) over a
sequence whose blocks lie either in int4 tile records or in fp16 pool slots: a single pass with an
online softmax, a split-K form with log-sum-exp recombination, and a grouped-head form. Numbers are
reals extended by the IEEE 754 special values, so that "minus infinity minus minus infinity", 0/0 and
the logarithm of zero are values the kernels could produce. Exponential and logarithm are parameters
with the laws `exp(a+b) = exp(a)exp(b)`, `exp` positive and increasing, `exp(log x) = x` (and `log`
inverse to `exp`). All three kernels are proved equal to plain softmax attention over exactly the
tokens of the sequence, each read from its own source, for every length, block table, pool map, split
count, head count, group size and execution order; an empty sequence is the one input that yields NaN.

**Rotation.** The doubling loop that builds the Hadamard matrix is proved symmetric and orthogonal
for every size, orthonormal exactly when the size is a power of two. Hence attention in the rotated
frame, un-rotated, is attention in the original frame, and the Kronecker-factored transform is exact.

**Tile codec.** Sinkhorn balancing (single and batched), the per-channel quantiser, nibble packing,
the byte record and its three readers. The codec is followed from the latent rows to the bytes and
back: every reader returns the same values, and every stored entry is within a stated bound of the
rotated frame, including the fp16 casts. The bound is carried on to scores, softmax weights, log-sum-exp
and the un-rotated attention output, and joined to the cache: after every run of scatters, assignments,
flushes and discards that wrote a sequence, the un-rotated decode is within a bound built from the half
steps of the flushes that happened. It is joined to the slot builder, too: for a request that is scheduled
in every step, among any other requests and with any steps skipped, the builder's own operations are such
a run and lose none of its tokens.

**Dual-source cache.** Scatter into pool slots, slot assignment, flush of a tile to int4, discard, and
gather, as kernels and as a state machine over whole runs.

**Slot builder.** The per-step bookkeeping that decides which blocks hold pool slots: what is flushed,
what is dropped, what is allocated, how large the pool must be, and the shortcut for steady decode. Over
runs of steps, skipped ones included, no complete block is ever dropped, and what a skipped step leaves
undone is read off the last step that was not skipped.

**KV-offload files.** Any number of concurrent stores and loads over one file system, one atomic step
per system call, every call free to fail; and the batch loops.

**Sleep/wake allocator (ROCm branches).** Chunking, mapping with rollback, unmapping, placeholder
re-reservation and free over the driver's tables of reserved ranges, mapped chunks and live handles.

**Build-time report.** Reading the ninja log, and the event sweep that shares elapsed time among
running steps.

Where code and comments disagree the model follows the code:

- `kvarn_mla_tilepack.py:38` comments `s_col` as per channel and `s_row` as per token; lines 42-46
  use them the other way round, and so does the model.
- `csrc/fs_io.cpp:82-84` calls a short read proof of corruption. That holds only if a read call
  itself is never cut short: `FsProtocol.ShortReadExactly` gives the exact condition in every state a run
  can reach, and `FsProtocol.CutReadDeletesWholeBlock` a run in which a whole block is deleted.
- `vllm/v1/attention/backends/mla/triton_mla.py:551-559` calls a skipped step a no-op. It needs no
  new slot, but full blocks may still wait to be flushed. Whether they do depends on the last step the
  builder ran for, however many steps were skipped since: `SlotStep.SkipIsNoOpExactly` and, over runs,
  `SlotRun.SkippedStepIsNoOpExactly` say exactly when the builder would leave all slots alone, and
  `SlotStep.SkipCanDefer` gives 83 consecutive steps in each of which it would flush two blocks. The guard
  compares lengths only; `SlotRun.SkippedStepCoversExactly` says when a skipped step finds its slots and
  `SlotStep.SkipCanMiss` gives an input where it does not.
- `vllm/v1/attention/backends/mla/triton_mla.py:659-665` says a block that is not written belongs to a
  finished or descheduled request and a partial one is safe to discard. `SlotRun.DroppedExactly` says
  exactly what is dropped; a request that is merely left out of one step is among it, so
  `BuilderDecode.DecodeUnderBuilder` is about requests that every step serves.
- `tools/report_build_time_ninja.py:105` says the targets come sorted by duration; they come in the
  order of their first log line (`NinjaLog.TargetsInLogOrder`, `NinjaLog.LastBuildInLogOrder`).
  `NinjaLog.NotSortedByDuration` is a log that shows it; `NinjaLog.SortedExactly` and
  `NinjaLog.LastBuildSortedExactly` give the condition under which they are sorted.

## Modules

| area | files |
|---|---|
| shared | `Prelude`, `MapSums` |
| vectors, special values, softmax | `Vectors`, `Floats`, `Softmax` |
| records and memory | `TileRecord`, `TileReader`, `DecodeMemory` |
| kernels | `TileDecode`, `Recombine`, `SplitK`, `GroupedDecode` |
| rotation | `Hadamard`, `RotatedFrame` |
| codec | `Sinkhorn`, `Quantizer`, `TileCodec`, `TilePipeline`, `TileKernels` |
| error analysis | `AttentionError`, `EndToEnd`, `RunDecode`, `BuilderDecode` |
| cache | `DualCache`, `CacheRun`, `CacheHistory`, `CacheKernels` |
| slot builder | `SlotLifecycle`, `SlotStep`, `SlotManager`, `SlotRun`, `SlotCache` |
| files | `FsProtocol`, `FsBatch` |
| allocator | `Chunking`, `SleepAllocator`, `AllocatorCalls`, `AllocatorOps` |
| build report | `NinjaLog`, `NinjaSweep` |

## Model

| member | source | states |
|---|---|---|
| Floats.FMaxAllMasked | scripts_kvarn_mla/kvarn_mla_tile_decode_kernel.py:103-105 | the maximum of a masked chunk is the maximum of its real scores, and minus infinity exactly when all lanes are masked |
| Floats.FSumLift | scripts_kvarn_mla/kvarn_mla_tile_decode_kernel.py:108 | a sum of finite lanes is the finite sum, with no special value appearing |
| Softmax.SoftmaxIsDistribution | kvarn_mla_decode_ref.py:23 | softmax of any non-empty scores is positive and sums to one |
| Softmax.AttendIsAttention | kvarn_mla_decode_ref.py:22-24 | softmax attention is the average of the values weighted by `exp(sm * q.k)`, and its lse the logarithm of the total weight |
| Softmax.ChunkStep | scripts_kvarn_mla/kvarn_mla_tile_decode_kernel.py:103-110 | one rescaling step over any chunk, fully or partly masked, keeps `e_sum` and `acc` equal to the exponential sums over exactly the tokens seen |
| Softmax.RunningSumAtLeastOne | scripts_kvarn_mla/kvarn_mla_tile_decode_kernel.py:106-108 | after any token the running sum is at least one and every weight is in (0, 1] |
| Softmax.Finish | scripts_kvarn_mla/kvarn_mla_tile_decode_kernel.py:111-112 | the final division and logarithm are finite and give softmax attention and its log-sum-exp |
| Softmax.NormaliseWeights | scripts_kvarn_mla/kvarn_mla_tile_decode_kernel.py:111-112 | normalised shifted weights give the same attention and log-sum-exp for every shift |
| TileRecord.PackedInside | scripts_kvarn_mla/kvarn_mla_tile_decode_kernel.py:25-32 | every packed byte address lies in the packed field of the record |
| TileRecord.RopeInside | scripts_kvarn_mla/kvarn_mla_tile_decode_kernel.py:25-32 | every rope address lies inside the record |
| TileRecord.NumbersInside | scripts_kvarn_mla/kvarn_mla_tile_decode_kernel.py:25-32 | every scale, zero point and token scale address lies inside the record |
| TileReader.InterleavedCodes | scripts_kvarn_mla/kvarn_mla_tile_decode_kernel.py:91-95 | the two nibble rows of a token, interleaved, are its codes in channel order |
| TileReader.LoadScales | scripts_kvarn_mla/kvarn_mla_tile_decode_kernel.py:76-79 | the per-channel loads are the scales and zero points of the record |
| TileReader.ScaleCodes | scripts_kvarn_mla/kvarn_mla_tile_decode_kernel.py:98 | every channel is code times scale plus zero point, times the token scale |
| TileReader.ReadRow | scripts_kvarn_mla/kvarn_mla_tile_decode_kernel.py:91-100 | the packed-byte addresses, nibble split, interleave and scaling give exactly the row of the record |
| TileReader.ReadMaskedRow | scripts_kvarn_mla/kvarn_mla_tile_decode_kernel.py:91-100 | a masked lane comes out as a zero row, whatever the channel numbers |
| DecodeMemory.ChunkIsTokens | scripts_kvarn_mla/kvarn_mla_tile_decode_kernel.py:80-100 | a chunk loads exactly the existing tokens of its range, each from its own block and source, then blank rows |
| DecodeMemory.ChunkMasked | scripts_kvarn_mla/kvarn_mla_tile_decode_kernel.py:101-103 | masking turns exactly the blank rows into minus infinity scores |
| DecodeMemory.ScoreIsDot | scripts_kvarn_mla/kvarn_mla_tile_decode_kernel.py:101-102 | latent plus rope product, scaled, is one scaled dot product of the joined vectors |
| DecodeMemory.ScoresAreDots | scripts_kvarn_mla/kvarn_mla_tile_decode_kernel.py:101-102 | every score is the scale times the dot product of the whole query with the whole row |
| TileDecode.LoadBlockScales | scripts_kvarn_mla/kvarn_mla_tile_decode_kernel.py:70-79 | per-channel numbers of an int4 block, zeros for a pooled block |
| TileDecode.LoadChunk | scripts_kvarn_mla/kvarn_mla_tile_decode_kernel.py:80-100 | the lane loads of a chunk, from pool or from nibbles under the mask, are the chunk rows |
| TileDecode.ScanStep | scripts_kvarn_mla/kvarn_mla_tile_decode_kernel.py:80-110 | one chunk extends the represented token range by exactly the chunk's existing tokens |
| TileDecode.ScanBlock | scripts_kvarn_mla/kvarn_mla_tile_decode_kernel.py:80-110 | the chunk loop extends the range by the whole block |
| TileDecode.ScanBlocks | scripts_kvarn_mla/kvarn_mla_tile_decode_kernel.py:64-110 | the block loop over any slice represents exactly the tokens of that slice |
| TileDecode.AttendIsDecode | scripts_kvarn_mla/kvarn_mla_tile_decode_kernel.py:101-112 | softmax attention over the token rows is that weighted average, whole query against latent and rope part |
| TileDecode.DecodeSinglePass | scripts_kvarn_mla/kvarn_mla_tile_decode_kernel.py:54-112 | output and lse are softmax attention over tokens 0 to seq_len-1, finite exactly when seq_len is at least 1; said without scores, they are the `exp(sm * q.k)` weighted average of the latent rows and the logarithm of the total weight |
| SplitK.SlicesPartition | scripts_kvarn_mla/kvarn_mla_splitk_decode.py:37-40 | every block lies in exactly one slice, also with more splits than blocks |
| SplitK.BlocksPerSplitIsLeast | scripts_kvarn_mla/kvarn_mla_splitk_decode.py:37-40 | a split gets the least number of blocks with which the splits cover all |
| SplitK.CutStep | scripts_kvarn_mla/kvarn_mla_splitk_decode.py:37-40 | consecutive slices meet, and a split is empty exactly when its first block is past the end |
| SplitK.Stage1 | scripts_kvarn_mla/kvarn_mla_splitk_decode.py:33-88 | a split stores the normalised attention and lse of its slice, zero and minus infinity when the slice is empty |
| SplitK.SplitsJoin | scripts_kvarn_mla/kvarn_mla_splitk_decode.py:37-40 | the first k slices joined are a prefix of the sequence |
| SplitK.SplitsCover | scripts_kvarn_mla/kvarn_mla_splitk_decode.py:37-40 | all slices joined are the whole sequence |
| SplitK.DecodeSplitK | scripts_kvarn_mla/kvarn_mla_splitk_decode.py:22-112 | for every length and split count the two stages give the same output and lse as the single pass, the same weighted average over the tokens; NaN exactly on an empty sequence |
| Recombine.WeightsTotal | scripts_kvarn_mla/kvarn_mla_splitk_decode.py:102-112 | the split weights are the split masses over a common factor, and `gm + log(wsum)` is the whole log-sum-exp |
| Recombine.AccumulateShare | scripts_kvarn_mla/kvarn_mla_splitk_decode.py:108-110 | adding one weighted partial extends the combined attention by exactly that slice |
| Recombine.Stage2 | scripts_kvarn_mla/kvarn_mla_splitk_decode.py:98-112 | recombining any partials gives attention over the joined slices, NaN exactly when every slice is empty |
| GroupedDecode.HeadsPartition | scripts_kvarn_mla/kvarn_mla_grouped_decode.py:39-40 | every real head is served by exactly one group, padded lanes by none, and no group is without a real head |
| GroupedDecode.GroupChunk | scripts_kvarn_mla/kvarn_mla_grouped_decode.py:60-88 | over exact reals, a chunk advances every lane as the per-head step does |
| GroupedDecode.GroupScan | scripts_kvarn_mla/kvarn_mla_grouped_decode.py:48-88 | every lane represents exactly the tokens of the slice |
| GroupedDecode.FinishLane | scripts_kvarn_mla/kvarn_mla_grouped_decode.py:89-91 | each lane ends with the partial result of its slice, also when empty |
| GroupedDecode.GroupedStage1 | scripts_kvarn_mla/kvarn_mla_grouped_decode.py:33-94 | the program writes the cells of its real heads and its split, and no other cell |
| GroupedDecode.RunStage1Grid | scripts_kvarn_mla/kvarn_mla_grouped_decode.py:33-94 | the whole grid, run in any order, fills every cell with its partial result |
| GroupedDecode.CombineHead | scripts_kvarn_mla/kvarn_mla_grouped_decode.py:104-114 | stage 2 gives a head softmax attention over the whole sequence |
| GroupedDecode.DecodeGrouped | scripts_kvarn_mla/kvarn_mla_grouped_decode.py:21-114 | over exact reals, head by head equal to split-K and the single pass and to the weighted average over the tokens, for every head count, group size, split count and grid order |
| Hadamard.SylvesterGram | kvarn_mla_tilepack.py:18-22 | the rows of the doubled matrix are orthogonal with square norm n |
| Hadamard.SylvesterSymmetric | kvarn_mla_tilepack.py:18-22 | the doubled matrix is symmetric |
| Hadamard.SylvesterEntry | kvarn_mla_tilepack.py:18-22 | entry (i, j) of the doubled matrix is -1 exactly when i and j share an odd number of binary ones |
| Hadamard.BuildHadamard | kvarn_mla_tilepack.py:18-22 | for every n the loop ends with a symmetric matrix of orthogonal rows whose entries are the signs of their indices over the root of n, of size n and orthonormal exactly when n is a power of two |
| Hadamard.KroneckerExact | scripts_kvarn_mla/test_fwht.py:9-29 | two small transforms in Kronecker form equal the dense transform, for every pair of factor sizes |
| RotatedFrame.RotationKeepsScores | kvarn_mla_decode_ref.py:18-22 | rotated queries against rotated keys give the original scores |
| RotatedFrame.RotatedAttention | kvarn_mla_decode_ref.py:15-25 | attention in the rotated frame, un-rotated, is attention in the original frame |
| RotatedFrame.HadamardAttention | kvarn_mla_decode_ref.py:15-25 | the matrix of the doubling loop, for any power of two, makes rotated attention un-rotate to original attention |
| RotatedFrame.DecodeMeaning | scripts_kvarn_mla/kvarn_mla_tile_decode_kernel.py:54-112 | the kernels' output, un-rotated, is attention over the un-rotated stored rows |
| RotatedFrame.ExactStoreDecode | kvarn_mla_decode_ref.py:38-51 | if the store holds the rotated rows, the un-rotated output is full-precision attention |
| RotatedFrame.DecodeRefMeaning | kvarn_mla_decode_ref.py:15-25 | the reference decode over full tiles and tail is original-frame attention |
| RotatedFrame.AttendRowsIsAttention | kvarn_mla_decode_ref.py:22-24 | the reference attention over any rows is the `exp(sm * q.k)` weighted average of their latent parts |
| Sinkhorn.BestIsLeast | vllm/model_executor/layers/quantization/kvarn/sinkhorn.py:79-96 | the kept scales have the least imbalance visited, and the latest such iteration |
| Sinkhorn.BestScalesInRange | vllm/model_executor/layers/quantization/kvarn/sinkhorn.py:83-96 | every returned scale lies between exp(-0.3) and exp(10) |
| Sinkhorn.BumpAdjusts | vllm/model_executor/layers/quantization/kvarn/sinkhorn.py:84-89 | adding the logarithm of a clamped deviation and clipping multiplies the scale by that deviation, kept between exp(-0.3) and exp(10) |
| Sinkhorn.VisitedIsPasses | vllm/model_executor/layers/quantization/kvarn/sinkhorn.py:83-90 | the log-domain loop visits exactly the scales of alternating multiplicative passes |
| Sinkhorn.ColumnPassLevels | vllm/model_executor/layers/quantization/kvarn/sinkhorn.py:84-86 | after a column pass every column that no clip touches has deviation exactly 1 |
| Sinkhorn.RowPassLevels | vllm/model_executor/layers/quantization/kvarn/sinkhorn.py:88-90 | after a row pass every row that no clip touches has deviation exactly 1 |
| Sinkhorn.SpreadIsLargestRatio | vllm/model_executor/layers/quantization/kvarn/sinkhorn.py:47-52 | the spread of deviations is their largest ratio, and above the floor is reached |
| Sinkhorn.ImbalanceIsTwoExactly | vllm/model_executor/layers/quantization/kvarn/sinkhorn.py:40-52 | the imbalance is at least 2, and 2 exactly when all columns and all rows deviate alike |
| Sinkhorn.ResultIsLeast | vllm/model_executor/layers/quantization/kvarn/sinkhorn.py:92-99 | no round of passes is balanced better than the result, and later rounds are strictly worse |
| Sinkhorn.BalancedRestores | vllm/model_executor/layers/quantization/kvarn/sinkhorn.py:98-99 | balanced entries times both scales give back the tile |
| Sinkhorn.VarianceNormalize | vllm/model_executor/layers/quantization/kvarn/sinkhorn.py:55-99 | the loop returns the best visited scales, which are those of alternating multiplicative column and row passes, and the tile balanced by them |
| Sinkhorn.BatchIteration | vllm/model_executor/layers/quantization/kvarn/sinkhorn.py:122-137 | one masked batch iteration is one single-tile iteration on every tile |
| Sinkhorn.VarianceNormalizeBatched | vllm/model_executor/layers/quantization/kvarn/sinkhorn.py:102-140 | the batched form returns, tile by tile, what the single-tile form returns: the scales of the same passes |
| Quantizer.EntryError | kvarn_mla_tilepack.py:39-41 | the clamp never changes a rounded code, and decoding is within half a step |
| Quantizer.ChannelError | kvarn_mla_tilepack.py:39-41 | every entry of a channel decodes within half the channel's step |
| Quantizer.StepIs | kvarn_mla_tilepack.py:40 | the step is a fifteenth of the range, or 1e-8 |
| Quantizer.CodesAreNearest | kvarn_mla_tilepack.py:39-41 | every code is the nearest of the 16 even levels from smallest to largest entry, ties to even; 1e-8 apart when the range is at most 15e-8 |
| Quantizer.EndLevels | kvarn_mla_tilepack.py:39-41 | the smallest entry gets code 0 and the largest, above the floor, code 15 |
| Quantizer.RequantizedStep | kvarn_mla_tilepack.py:40 | the step recomputed from a decoded channel is the old step, also at the 1e-8 floor |
| Quantizer.QuantizeIsProjection | kvarn_mla_tilepack.py:39-41 | quantising a decoded channel again gives the same lo, step and codes |
| TileCodec.NibbleRoundTrip | kvarn_mla_tilepack.py:48 | two codes packed in a byte read back |
| TileCodec.RecordFields | kvarn_mla_tilepack.py:26-54 | the five fields are disjoint, adjacent and cover the record |
| TileCodec.CodesReadBack | kvarn_mla_tilepack.py:47-63 | every code is read back at its token-major address |
| TileCodec.RecordRoundTrip | kvarn_mla_tilepack.py:49-70 | a record row is the dequantised value of its code and fp16-rounded scales, and the fp16-rounded rope |
| TilePipeline.FoldingIsExact | kvarn_mla_tile_validate.py:34-40 | folding the per-channel scale into scale and zero point changes no dequantised value |
| TilePipeline.RecordLevels | kvarn_mla_tilepack.py:39-49 | the record of a frame stores for every token and channel the nearest of the 16 levels of the balanced channel |
| TilePipeline.FrameError | kvarn_mla_tilepack.py:38-46 | the dequantised entry is within scale/2 * s_row * s_col of the rotated frame |
| TilePipeline.HalfStepIs | kvarn_mla_tilepack.py:39-46 | that half step is a thirtieth of the balanced channel's range (or 0.5e-8) times both scales |
| TilePipeline.StoredError | kvarn_mla_tilepack.py:35-70 | the same with the fp16 casts: half step plus a stated rounding slack |
| TileKernels.PackContents | kvarn_mla_tilepack.py:47-55 | the slice writes build exactly the record |
| TileKernels.PackTile | kvarn_mla_tilepack.py:35-55 | the record holds the quantised Sinkhorn-balanced rotation of the latent rows, every stored code the nearest of the 16 levels of its balanced channel |
| TileKernels.PackedTileError | kvarn_mla_tilepack.py:35-70 | a packed and re-read entry is within the stored bound of the rotated latent entry |
| TileKernels.UnpackCodes | kvarn_mla_tilepack.py:60-63 | the strided stores recover every code at its token and channel |
| TileKernels.UnpackTile | kvarn_mla_tilepack.py:58-70 | unpacking returns the record's row for every token |
| TileKernels.DequantProgram | kvarn_mla_dequant_kernel.py:20-37 | the per-token program stores the same row as `unpack_tile` and touches no other row |
| AttentionError.ScoreError | kvarn_mla_tilepack.py:80-84 | a score moves by at most the query-weighted sum of the entry bounds |
| AttentionError.LseError | scripts_kvarn_mla/kvarn_mla_tile_decode_kernel.py:112 | scores within delta give log-sum-exps within delta |
| AttentionError.WeightError | kvarn_mla_decode_ref.py:23 | scores within delta give softmax weights within a relative factor exp(2 delta) - 1 |
| AttentionError.OutputError | kvarn_mla_decode_ref.py:23-24 | the output moves by at most the entry bound plus that factor times the largest entry |
| EndToEnd.StoredScoresWithin | scripts_kvarn_mla/kvarn_mla_tile_decode_kernel.py:83-103 | for any store and any entry bounds it meets, scores are within delta of full-precision scores |
| EndToEnd.RotatedOutputError | scripts_kvarn_mla/kvarn_mla_tile_decode_kernel.py:83-112 | for any store and any entry bounds it meets, the kernel output is within a channel-wise bound of rotated full-precision attention |
| EndToEnd.QuantisedDecodeError | kvarn_mla_decode_ref.py:15-51 | for any store and any entry bounds it meets, the un-rotated output and its lse are within stated bounds of full-precision attention |
| RunDecode.GatherIsToken | scripts_kvarn_mla/sparse_gather_validate.py:68-93 | the gather kernel and the decode kernels read the same row for every token |
| RunDecode.RecordedIsWithin | scripts_kvarn_mla/sparse_gather_validate.py:118-149 | in every good cache state the stored rows are within their recorded bounds of the rotated originals |
| RunDecode.WrittenBounds | kvarn_mla_tilepack.py:38-54 | the bounds recorded for a written row are zero while pooled, and the half step plus slack of its flush afterwards |
| RunDecode.RecordedDecode | kvarn_mla_decode_ref.py:15-51 | in every such state the un-rotated decode and its lse are within bounds made of the recorded ones |
| RunDecode.ScoreAfterRun | kvarn_mla_tilepack.py:80-84 | each score moves by at most the query-weighted sum of its token's bounds |
| RunDecode.DecodeAfterRun | kvarn_mla_decode_ref.py:15-51 | after every legal run that wrote a sequence, the un-rotated decode is within a bound built from the flushes' half steps and slack of full-precision attention |
| RunDecode.PackIsFlush | kvarn_mla_tilepack.py:35-55 | the frame of packed latents is the frame that flushing a pool slot with the rotated rows stores |
| DualCache.ScatterThenGather | scripts_kvarn_mla/kvarn_mla_scatter_store.py:39-56 | a scattered row is gathered back if its block is pooled; every other slot gathers what it did before |
| DualCache.ScatterRunCell | scripts_kvarn_mla/kvarn_mla_scatter_store.py:39-56 | after any program order a cell holds the row that names it, or is unchanged |
| DualCache.ScatterCommutes | scripts_kvarn_mla/kvarn_mla_scatter_store.py:38-69 | any two execution orders of the grid give the same pool |
| CacheRun.ReplaceRecordRows | scripts_kvarn_mla/sparse_gather_validate.py:137-142 | writing one block's record changes the rows of that block only |
| CacheRun.FlushGather | scripts_kvarn_mla/sparse_gather_validate.py:118-149 | after a flush the block gathers its record, every other slot what it gathered before |
| CacheRun.FlushedRowWithin | scripts_kvarn_mla/sparse_gather_validate.py:118-149 | a flushed row is within the quantisation bound of the pooled row |
| CacheRun.ScatterKeepsGood | scripts_kvarn_mla/kvarn_mla_scatter_store.py:39-56 | scattering keeps every slot's last row readable |
| CacheRun.AssignKeepsGood | vllm/v1/attention/backends/mla/triton_mla.py:708-726 | assigning a zeroed slot keeps the invariant |
| CacheRun.AssignReadsZeros | vllm/v1/attention/backends/mla/triton_mla.py:716-726 | a block that has just been given a slot reads zeros, whatever the slot held before |
| CacheRun.FlushKeepsGood | vllm/v1/attention/backends/mla/triton_mla.py:675-700 | flushing keeps every slot within its recorded bound |
| CacheRun.DiscardKeepsGood | vllm/v1/attention/backends/mla/triton_mla.py:701-706 | discarding a block keeps the invariant for all other slots |
| CacheRun.DiscardReadsRecord | vllm/v1/attention/backends/mla/triton_mla.py:701-706 | a block whose slot is given up reads its record again |
| CacheRun.StepKeepsGood | vllm/v1/attention/backends/mla/triton_mla.py:675-726 | every enabled operation keeps the invariant |
| CacheRun.RunKeepsGood | scripts_kvarn_mla/sparse_gather_validate.py:56-149 | over every run, gathering a written slot returns its last row, exactly while pooled and within the quantisation bound once flushed |
| CacheRun.BatchIsRun | scripts_kvarn_mla/kvarn_mla_scatter_store.py:38-69 | a scatter launch, in any program order, is a legal run of scatters that ends in the pool of the launch |
| CacheHistory.RunEntry | scripts_kvarn_mla/sparse_gather_validate.py:56-149 | over a run that leaves a slot undisturbed its entry stays, or is what its one flush makes of it |
| CacheHistory.WroteEntry | scripts_kvarn_mla/sparse_gather_validate.py:56-149 | the history at the end of a run is the last undisturbed scatter and the flush after it |
| CacheHistory.LastWriteReads | scripts_kvarn_mla/sparse_gather_validate.py:56-149 | read off the operations: a slot gathers the last row scattered to it, exactly before a flush, within the flush's bound after it |
| CacheKernels.ScatterProgram | scripts_kvarn_mla/kvarn_mla_scatter_store.py:39-56 | one program changes the pool buffers as one scatter |
| CacheKernels.ScatterStore | scripts_kvarn_mla/kvarn_mla_scatter_store.py:59-69 | the grid, in any order, leaves the pool of the in-order scatter |
| CacheKernels.MakeInt4Record | scripts_kvarn_mla/sparse_gather_validate.py:118-142 | the slice writes replace exactly the block's record |
| CacheKernels.GatherProgram | scripts_kvarn_mla/sparse_gather_validate.py:59-93 | one program stores the gathered row, computed from the packed bytes or the pool, and touches no other row |
| SlotLifecycle.WritesBound | vllm/v1/attention/backends/mla/triton_mla.py:634-644 | a request with q new tokens writes at most q/G + 2 blocks |
| SlotLifecycle.FillCounts | vllm/v1/attention/backends/mla/triton_mla.py:640-644 | the tokens of a block are those from its start on, as many as its fill |
| SlotLifecycle.NeededIsNewTokens | vllm/v1/attention/backends/mla/triton_mla.py:634-644 | a step needs exactly the blocks its new tokens go to |
| SlotLifecycle.NeededBound | vllm/v1/attention/backends/mla/triton_mla.py:626-644 | a step needs at most two blocks per request plus one per G scheduled tokens |
| SlotLifecycle.PoolNeverTooSmall | vllm/v1/attention/backends/mla/triton_mla.py:573-580 | the default pool size covers every step the scheduler limits allow |
| SlotLifecycle.PoolSlotsIsLeast | vllm/v1/attention/backends/mla/triton_mla.py:573-580 | the default pool is the least of at least 64 slots with two per request and one per G tokens |
| SlotLifecycle.SkippedTailIncomplete | vllm/v1/attention/backends/mla/triton_mla.py:560-567 | in a skipped step the tail block is incomplete, holding seq_len mod G tokens |
| SlotLifecycle.ContinuedWrites | vllm/v1/attention/backends/mla/triton_mla.py:551-567 | a request that decodes on within its tail block writes one block, which it wrote in the earlier step too |
| SlotLifecycle.SkipNeedsNothingNew | vllm/v1/attention/backends/mla/triton_mla.py:551-567 | a steady step needs no block that the step it continues did not need |
| SlotStep.NothingQueued | vllm/v1/attention/backends/mla/triton_mla.py:645-657 | if every request's first written block is that of the last full step, the walk finds nothing to flush |
| SlotStep.BoundaryWaits | vllm/v1/attention/backends/mla/triton_mla.py:645-657 | if a request's first written block has moved on since the last full step, a block that still holds a slot lies just below it |
| SlotStep.SkipIsNoOpExactly | vllm/v1/attention/backends/mla/triton_mla.py:551-567 | for a whole steady batch, any number of skipped steps after the last full one: the builder would flush nothing, drop nothing and move no slot if and only if every request's first written block is that of the last full step |
| SlotStep.SkipCanDefer | vllm/v1/attention/backends/mla/triton_mla.py:551-567 | in each of the 83 steps after a 300-token prefill the guard holds, and the builder would flush exactly the two full blocks |
| SlotStep.GuardKeepsSince | vllm/v1/attention/backends/mla/triton_mla.py:560-567 | steps that pass the guard one after another keep every position in the tail block of the last full step, whatever requests they hold |
| SlotStep.SkipGuardExactly | vllm/v1/attention/backends/mla/triton_mla.py:560-567 | the guard holds exactly when every request has one new token, next after the recorded length and inside its block |
| SlotStep.SkipCovers | vllm/v1/attention/backends/mla/triton_mla.py:560-567 | with the tail blocks of the last full step, a skipped step finds a slot for every block it writes |
| SlotStep.SkipCoversExactly | vllm/v1/attention/backends/mla/triton_mla.py:560-567 | where written blocks stay with their requests, a skipped step finds a slot for every block it writes if and only if no position's tail block changed since the last full step |
| SlotStep.SkipCanMiss | vllm/v1/attention/backends/mla/triton_mla.py:560-567 | another request of the right length passes the guard and writes a block without a slot |
| SlotStep.WalkCompletes | vllm/v1/attention/backends/mla/triton_mla.py:645-657 | where committed blocks are shared only as common prefixes, the walks queue every slot-holding block of every run below a boundary; unused entries of a row play no part |
| SlotStep.BelowIsNotNeeded | vllm/v1/attention/backends/mla/triton_mla.py:640-657 | where written blocks are private, a block below a request's writes is written by nobody |
| SlotRun.SkippedIncomplete | vllm/v1/attention/backends/mla/triton_mla.py:560-567 | whatever block a skipped step writes, it leaves incomplete |
| SlotRun.NeededNotFlushed | vllm/v1/attention/backends/mla/triton_mla.py:645-673 | where written blocks are private, a block being written is never flushed in the same step |
| SlotRun.StepDropsNoCompleteBlock | vllm/v1/attention/backends/mla/triton_mla.py:551-706 | a step drops only incomplete blocks, and flushes every complete one it does not write |
| SlotRun.DroppedExactly | vllm/v1/attention/backends/mla/triton_mla.py:659-673 | a block outside the committed runs is dropped if and only if it holds a slot, is not written and is recorded as incomplete |
| SlotRun.StepFlushesOnlyComplete | vllm/v1/attention/backends/mla/triton_mla.py:645-673 | a step flushes only blocks with all their tokens, and keeps the recorded fill exact |
| SlotRun.RunIsSound | vllm/v1/attention/backends/mla/triton_mla.py:551-726 | along every run of steps a slot-holding block with all its tokens is recorded as complete, also when another batch passes the guard |
| SlotRun.CompleteBlocksSurvive | vllm/v1/attention/backends/mla/triton_mla.py:551-726 | over any sequence of steps, skipped ones included and whatever batches pass the guard, no block with all its tokens written is dropped |
| SlotRun.OnlyCompleteBlocksFlushed | vllm/v1/attention/backends/mla/triton_mla.py:645-673 | over any sequence of steps whose skipped ones write no block recorded as complete, no block is flushed before all its tokens are written |
| SlotRun.RunIsCurrent | vllm/v1/attention/backends/mla/triton_mla.py:551-726 | along every run exactly the blocks of the last full step hold slots, and skipped steps kept to its tail blocks |
| SlotRun.SkippedStepIsNoOpExactly | vllm/v1/attention/backends/mla/triton_mla.py:551-567 | in any run, a step that passes the guard with the block tables of the last full step is a no-op of the builder if and only if no request moved on to another block since |
| SlotRun.SkippedStepCoversExactly | vllm/v1/attention/backends/mla/triton_mla.py:551-567 | in any run, a step that passes the guard finds slots for all it writes if and only if no tail block changed since the last full step |
| SlotCache.MirrorIsInjective | vllm/v1/attention/backends/mla/triton_mla.py:709-719 | the lookup table sends no two blocks to one slot and none to a free slot |
| SlotCache.TakeIsAssign | vllm/v1/attention/backends/mla/triton_mla.py:716-719 | taking a slot is an assignment the cache allows |
| SlotCache.ReleaseIsDiscard | vllm/v1/attention/backends/mla/triton_mla.py:694-706 | releasing a block is a discard the cache allows, with the lookup of a flush |
| SlotCache.BuildIsLegal | vllm/v1/attention/backends/mla/triton_mla.py:675-726 | a whole step of the builder, its operations in any order and its zeroed slots the assigned ones, is a legal run of the cache and leaves a lookup table that shows the new slots |
| SlotCache.BuildHasOperations | vllm/v1/attention/backends/mla/triton_mla.py:675-726 | for every outcome of a step there are such operations, if the blocks to flush can be flushed |
| SlotCache.PoolIsLinked | vllm/v1/attention/backends/mla/triton_mla.py:709-719 | the tables of a valid pool are those of a cache whose lookup is the device table |
| BuilderDecode.TurnIsLegal | vllm/v1/attention/backends/mla/triton_mla.py:534-726 | builder step and scatter launch together are a legal run, and leave the tables linked |
| BuilderDecode.TurnCovers | vllm/v1/attention/backends/mla/triton_mla.py:551-726 | after a step, skipped or not, every block it writes holds a slot |
| BuilderDecode.TurnHolds | vllm/v1/attention/backends/mla/triton_mla.py:626-726 | after a step the blocks of a served request have all its tokens, and its tail block a slot |
| BuilderDecode.BuilderSpares | vllm/v1/attention/backends/mla/triton_mla.py:645-726 | the builder neither discards nor assigns a block that holds tokens of a served request |
| BuilderDecode.TurnIsQuiet | vllm/v1/attention/backends/mla/triton_mla.py:645-726 | a step leaves the slots of all earlier tokens of a served request alone, other than by flushing them |
| BuilderDecode.TurnWritesToken | vllm/v1/attention/backends/mla/triton_mla.py:1124-1160 | a step writes every new token of a served request to a pool slot |
| BuilderDecode.RunWrites | vllm/v1/attention/backends/mla/triton_mla.py:534-726 | after any number of steps all tokens of a served request are written and undisturbed, and the tables are linked |
| BuilderDecode.TurnsWriteSequence | vllm/v1/attention/backends/mla/triton_mla.py:534-726 | the operations of the steps are a legal run that wrote the whole rotated sequence |
| BuilderDecode.DecodeUnderBuilder | vllm/v1/attention/backends/mla/triton_mla.py:534-726 | the un-rotated decode of a served request, and its lse, are within the bound of the flushes that happened of full-precision attention, whatever is skipped, flushed or dropped for other requests |
| SlotManager.ReleaseKeeps | vllm/v1/attention/backends/mla/triton_mla.py:694-706 | giving back a slot keeps slots one to one and none lost |
| SlotManager.TakeKeeps | vllm/v1/attention/backends/mla/triton_mla.py:716-719 | handing out the last free slot keeps slots one to one and none lost |
| SlotManager.Pool.constructor | vllm/v1/attention/backends/mla/triton_mla.py:1070-1101 | a new pool has every slot free, an empty lookup table and no step behind it |
| SlotManager.Pool.Release | vllm/v1/attention/backends/mla/triton_mla.py:694-706 | one block leaves the table, its slot becomes free, the lookup shows -1 |
| SlotManager.Pool.ReleaseAll | vllm/v1/attention/backends/mla/triton_mla.py:694-706 | exactly the given blocks leave; the others keep their slots |
| SlotManager.Pool.Allocate | vllm/v1/attention/backends/mla/triton_mla.py:708-726 | fails exactly when more blocks are needed than the pool has; otherwise exactly the needed blocks hold slots; the zeroed slots are exactly the newly given ones, each once |
| SlotManager.Pool.Take | vllm/v1/attention/backends/mla/triton_mla.py:716-719 | the block gets the last free slot and the lookup shows it |
| SlotManager.Pool.Collect | vllm/v1/attention/backends/mla/triton_mla.py:626-657 | needed is the set of written blocks with their fill; queued are the slot-holding blocks in the runs below the committed boundaries, all of them where committed blocks are shared only as common prefixes |
| SlotManager.Pool.CollectOne | vllm/v1/attention/backends/mla/triton_mla.py:634-644 | the written blocks of one request and how full each will be |
| SlotManager.Pool.WalkBack | vllm/v1/attention/backends/mla/triton_mla.py:645-657 | the walk goes down to the first block that holds no slot or is queued already, and queues everything above it |
| SlotManager.Pool.Reclaim | vllm/v1/attention/backends/mla/triton_mla.py:659-673 | every block nobody writes is flushed if complete and dropped if partial |
| SlotManager.Pool.Build | vllm/v1/attention/backends/mla/triton_mla.py:598-726 | exhausted exactly when the pool is too small; else exactly the needed blocks hold slots, the zeroed slots are exactly those newly given, partial blocks keep theirs with their new fill recorded, and a block loses its slot only by flush or as an unwritten partial block |
| SlotManager.Pool.Advance | vllm/v1/attention/backends/mla/triton_mla.py:549-726 | a step that is not skipped gives every block it writes a slot unless the pool is too small; a skipped one changes only the recorded lengths and finds its slots if no tail block changed since the last full step, and only then where written blocks stay with their requests |
| FsProtocol.QuietStep | csrc/fs_io.cpp:42-69 | a call that changes no file keeps the invariant |
| FsProtocol.OpenStep | csrc/fs_io.cpp:89-93 | a load opens a whole block that no store is writing |
| FsProtocol.CreateStep | csrc/fs_io.cpp:50-55 | exclusive creation gives a file known to this store only, whatever other temporary names are in use |
| FsProtocol.WriteStep | csrc/fs_io.cpp:57-63 | writing changes no visible block and no file being read |
| FsProtocol.DropTemp | csrc/fs_io.cpp:60-74 | cleaning up after a failure disturbs no other job |
| FsProtocol.RenameStep | csrc/fs_io.cpp:71-77 | renaming puts one store's complete buffer in place |
| FsProtocol.UnlinkStep | csrc/fs_io.cpp:102-106 | unlinking a block disturbs no other job |
| FsProtocol.StoreStep | csrc/fs_io.cpp:40-78 | every step of a store, failing or not, keeps the invariant |
| FsProtocol.LoadStep | csrc/fs_io.cpp:87-113 | every step of a load keeps the invariant, and removes a name only by the unlink after a short read |
| FsProtocol.ShortReadExactly | csrc/fs_io.cpp:95-107 | in every state a run can reach, the deleting branch is taken if and only if the read call was cut short |
| FsProtocol.RunKeepsInv | csrc/fs_io.cpp:40-113 | the invariant holds along every interleaving, cut-short reads included |
| FsProtocol.BlocksAreAlwaysWhole | csrc/fs_io.cpp:40-113 | in every interleaving, whatever fails or is cut short, a visible block is an original or one store's complete buffer, and successful loads return whole blocks |
| FsProtocol.VisibleStaysVisible | csrc/fs_io.cpp:40-113 | a block stays visible as long as no load of that very block has its read cut short |
| FsProtocol.WholeReadsKeepBlocks | csrc/fs_io.cpp:40-113 | a block none of whose loads is cut short is deleted by nobody, and is visible once a store of it has succeeded |
| FsProtocol.LoadsReturnTheBlock | csrc/fs_io.cpp:87-113 | where the name determines the block, every successful load returns it |
| FsProtocol.StepKeepsOwn | csrc/fs_io.cpp:50-106 | every step, cut-short reads included, leaves each store in possession of its own temporary file |
| FsProtocol.RunKeepsTemps | csrc/fs_io.cpp:50-77 | a temporary name not there from the start is in use exactly while a store owns it, whatever the loads do |
| FsProtocol.NoTempsRemain | csrc/fs_io.cpp:36-78 | with no store in flight, the temporary files are exactly those present at the start |
| FsProtocol.CutReadDeletesWholeBlock | csrc/fs_io.cpp:102-106 | a read cut short makes a load delete a whole block |
| FsBatch.FillAndRename | csrc/fs_io.cpp:57-77 | write, close and rename take the protocol's steps; the error is that of the first failing call; the temporary file remains exactly when its unlink fails |
| FsBatch.Abort | csrc/fs_io.cpp:59-74 | the cleanup takes the protocol's step and keeps the captured error |
| FsBatch.StoreBlock | csrc/fs_io.cpp:40-78 | takes exactly the protocol's steps; on success the old or new block is in place, on failure every block is as before and the error is that of the failing call, EEXIST for a taken temporary name |
| FsBatch.LoadBlock | csrc/fs_io.cpp:87-113 | takes exactly the protocol's steps; succeeds exactly when the file can be read in full, and then the buffer holds it; the error is ENOENT, EIO for a short file, or that of the failing call |
| FsBatch.BatchLoad | csrc/fs_io.cpp:297-338 | stops at k exactly when k is the first unreadable block, with its error; earlier buffers hold their blocks, later ones are untouched |
| FsBatch.BatchStore | csrc/fs_io.cpp:234-262 | after k stores every block holds what the first k stores leave there; stops at the first failing store with its error, and fails only if a call fails or a temporary name is taken |
| FsBatch.FirstWriterWins | csrc/fs_io.cpp:42-44 | an existing block stays, a new one is the first writer's |
| FsBatch.DeterminedStores | csrc/fs_io.cpp:238-248 | where the name determines the block, every stored name holds it |
| FsBatch.StoreThenLoad | csrc/fs_io.cpp:234-338 | a batch store followed by a batch load returns the stored bytes |
| FsBatch.BatchLookup | csrc/fs_io.cpp:115-120 | one flag per path, 1 exactly when it exists and the call works |
| Chunking.AlignUpIsLeast | csrc/cumem_allocator.cpp:366 | the aligned size is the least granularity multiple that fits the request |
| Chunking.CountCovers | csrc/cumem_allocator.cpp:394-395 | the chunk count is the least that covers the size |
| Chunking.ChunkSizes | csrc/cumem_allocator.cpp:391-416 | chunk sizes are positive granularity multiples, all but the last full, and sum to the aligned size |
| Chunking.OffsetsIncrease | csrc/cumem_allocator.cpp:184-203 | chunks follow one another without overlap |
| Chunking.ByteInOneChunk | csrc/cumem_allocator.cpp:184-203 | every byte of the range lies in exactly one chunk |
| SleepAllocator.MallocKeepsGood | csrc/cumem_allocator.cpp:346-474 | a successful malloc keeps the run invariant |
| SleepAllocator.SleepKeepsGood | csrc/cumem_allocator.cpp:622-741 | a successful sleep keeps the run invariant |
| SleepAllocator.WakeKeepsGood | csrc/cumem_allocator.cpp:743-809 | a successful wake keeps the run invariant |
| SleepAllocator.FreeKeepsGood | csrc/cumem_allocator.cpp:477-594 | a successful free, awake or asleep, keeps the run invariant |
| SleepAllocator.RunKeepsGood | csrc/cumem_allocator.cpp:346-809 | in every state of every run live ranges are disjoint, exactly the chunks and handles of awake allocations are mapped and live, and mapped bytes equal the awake sizes |
| SleepAllocator.RunFromNothing | csrc/cumem_allocator.cpp:346-809 | the same for every run that starts with nothing allocated |
| SleepAllocator.AddressIsStable | csrc/cumem_allocator.cpp:707-728 | from malloc to free an allocation keeps its address, size and chunks reserved |
| AllocatorCalls.UnmapChunks | csrc/cumem_allocator.cpp:263-273 | every chunk is tried; one stays mapped exactly when its call failed; the first error is kept |
| AllocatorCalls.ReleaseHandles | csrc/cumem_allocator.cpp:275-280 | every handle is tried; one stays live exactly when its call failed |
| AllocatorCalls.UnmapAndRelease | csrc/cumem_allocator.cpp:242-286 | the error code is the first failing status; without one, exactly the allocation's chunks and handles are gone |
| AllocatorCalls.CreateHandles | csrc/cumem_allocator.cpp:174-183 | one new handle per chunk, or none when a create call fails and releasing works |
| AllocatorCalls.MapChunks | csrc/cumem_allocator.cpp:184-203 | the chunks tile the range exactly, or nothing stays mapped and all handles are released |
| AllocatorCalls.UndoMaps | csrc/cumem_allocator.cpp:189-200 | unmapping and releasing after a failed map restores the driver's tables |
| AllocatorCalls.CreateAndMap | csrc/cumem_allocator.cpp:118-240 | all chunks mapped onto new handles, or (undoing works) nothing left, the latter exactly when a create or map call failed; which range is made accessible and zeroed, and the error code |
| AllocatorOps.ReserveAddress | csrc/cumem_allocator.cpp:50-71 | the first request wins; the fallback is taken exactly when that is refused, an alignment was asked for and the second range is aligned; otherwise the refusal's code, 801 for a misaligned range, and the reservations as they were |
| AllocatorOps.Malloc | csrc/cumem_allocator.cpp:346-474 | succeeds exactly when every call works, returns the reserved address, accessible and zeroed, and is one malloc step of the aligned, chunked size; a failure reports the code of the first failing call, or of the failing give-back of the range, and when undone leaves the driver as before and a stale table entry |
| AllocatorOps.SleepOne | csrc/cumem_allocator.cpp:622-741 | succeeds exactly when every call works and the same address is granted again, and is then one sleep step; otherwise the placeholder may be lost |
| AllocatorOps.WakeOne | csrc/cumem_allocator.cpp:743-809 | succeeds exactly when every call works, and is then one wake step that leaves the range accessible and zeroed; an undone failure keeps the invariant, so it can be retried |
| AllocatorOps.FreeOne | csrc/cumem_allocator.cpp:477-594 | succeeds exactly when every call it makes works and the size is the reserved one, and is then one free step; otherwise the error of the failing call; an unknown pointer changes nothing |
| NinjaLog.ReadTargets | tools/report_build_time_ninja.py:104-148 | the loop over the lines computes the record fold, with the two error cases |
| NinjaLog.ResetIsSuffix | tools/report_build_time_ninja.py:112-148 | dropping old builds keeps exactly what reading everything from the start line of the last build on keeps, the start line being read off the log |
| NinjaLog.ParsesExactly | tools/report_build_time_ninja.py:119-120 | reading fails if and only if a number of some five-field line does not parse |
| NinjaLog.TargetsWellFormed | tools/report_build_time_ninja.py:112-148 | hashes are distinct, name lists non-empty, and without `show_all` end times never decrease |
| NinjaLog.TargetsGroupByHash | tools/report_build_time_ninja.py:132-147 | a command has a target exactly when a line names it, with the first line's times and every line's output in order |
| NinjaLog.TargetsInLogOrder | tools/report_build_time_ninja.py:132-148 | read from any line on, targets come in the order of their commands' first log lines |
| NinjaLog.SortedExactly | tools/report_build_time_ninja.py:104-148 | read from any line on, targets are sorted by duration if and only if the first lines of their commands are |
| NinjaLog.LastBuildInLogOrder | tools/report_build_time_ninja.py:112-148 | with old builds dropped, targets come in the order of their first lines in the last build |
| NinjaLog.LastBuildSortedExactly | tools/report_build_time_ninja.py:104-148 | with old builds dropped, they are sorted by duration if and only if those first lines are |
| NinjaLog.NotSortedByDuration | tools/report_build_time_ninja.py:104-148 | a log whose targets take 2, 5 and 1 seconds is returned in that order |
| NinjaSweep.OrderingExists | tools/report_build_time_ninja.py:223-228 | whatever the targets, their events can be sorted by time and kind |
| NinjaSweep.OrderingIsSchedule | tools/report_build_time_ninja.py:207-228 | any sort by time and kind has one start and one stop per target |
| NinjaSweep.RunningCovers | tools/report_build_time_ninja.py:238-255 | between two events the running targets are those whose interval covers the gap |
| NinjaSweep.GapStep | tools/report_build_time_ninja.py:240-244 | the weighted clock charges each running target exactly its equal share of the gap |
| NinjaSweep.SeenBefore | tools/report_build_time_ninja.py:223-228 | a target is found running at its stop exactly when it starts no later than it ends |
| NinjaSweep.ShareAtMostDuration | tools/report_build_time_ninja.py:74-89 | a weighted duration is never negative nor more than the duration |
| NinjaSweep.SharesAreBusyTime | tools/report_build_time_ninja.py:238-255 | all shares together are the time at least one target runs |
| NinjaSweep.BusyPlusIdle | tools/report_build_time_ninja.py:209-221 | busy and idle time add up to the span of the events |
| NinjaSweep.Sweep | tools/report_build_time_ninja.py:230-256 | fails exactly on no events or a target that ends before it starts; otherwise nothing runs at the end, each target gets its share, and the total is the busy time |
| NinjaSweep.Extent | tools/report_build_time_ninja.py:209-220 | earliest start, latest end and summed durations |
| NinjaSweep.Summarize | tools/report_build_time_ninja.py:198-256 | every target gets its share; the build length exceeds the weighted total by exactly the idle time |

## Left out

- Floating-point rounding inside the kernels, strides, shared memory and the batch dimension: kernels compute over reals, one sequence per launch.
- GroupedDecode.GroupChunk: the fp16 casts of the query, the dequantised rows and the weights that feed the tensor-core products are omitted.
- GroupedDecode.DecodeGrouped: the equality with split-K is over exact reals, without those fp16 casts.
- EndToEnd.StoredScoresWithin: takes the entry bounds as given; RunDecode derives them for caches that operations built.
- EndToEnd.RotatedOutputError: takes the entry bounds as given; RunDecode derives them for caches that operations built.
- EndToEnd.QuantisedDecodeError: takes the entry bounds as given; RunDecode.DecodeAfterRun derives them for caches that operations built.
- RunDecode.DecodeAfterRun: a flush is assumed to store numbers that fp16 holds within its relative rounding error; the fp16 cast of the rotated row before it is scattered is not modelled.
- BLOCK_N that does not divide the block size, odd latent widths and block ids outside the lookup table: the kernels rely on their absence.
- Sinkhorn.ColumnPassLevels: assumes that the deviation is homogeneous, std(a v) = a std(v) for a > 0, the one fact about it that is used.
- Sinkhorn.RowPassLevels: assumes the same of the deviation.
- The standard deviation of the Sinkhorn loop is otherwise an arbitrary function; fp16 conversion is a reader and a writer with a relative error bound on the values actually stored.
- CacheRun.RunKeepsGood: a scatter to a block without a pool slot is skipped, as in the kernel, so the last row of a slot is the last row accepted.
- AttentionError.OutputError: the bound uses the largest entry of the channel and is not claimed to be tight.
- SlotStep.SkipIsNoOpExactly: a block written by the last full step occurs once in the used part of the block tables, tables reach to the last token, and block tables are unchanged up to the block being written; slots are those of the last full step, which `SlotRun.RunIsCurrent` shows of every run.
- SlotStep.WalkCompletes: assumes that block ids below the committed boundaries are shared only as common prefixes; without that a walk may stop at a block that another request queued.
- SlotRun.CompleteBlocksSurvive: assumes that every scheduled request has new tokens and that a block being written occurs once in the used part of the block tables.
- SlotRun.OnlyCompleteBlocksFlushed: assumes that committed blocks have been written in full and that a skipped step does not write a block recorded as complete.
- BuilderDecode.DecodeUnderBuilder: the request is scheduled in every step from its first token on, without cached prefix or rejected tokens; the pool suffices; skipped steps keep the tail blocks of the last full step; blocks to flush hold numbers that fp16 holds within its rounding error; rotated rows are scattered without the fp16 cast.
- Growing the block lookup table, pool capture inside graphs and the flush batching of the slot builder.
- FsProtocol.BlocksAreAlwaysWhole: assumes that temporary names are not block names and that each block name has one size.
- FsProtocol.NoTempsRemain: assumes that temporary names are not block names and that the unlink after a failed store works; reads may be cut short.
- Directory creation, O_DIRECT, argument parsing, buffer acquisition and Python exceptions of the file extension, beyond the length check and the failing index.
- FsBatch.BatchStore: runs one batch at a time; concurrent batches are covered by the protocol.
- AllocatorCalls.CreateAndMap: no rollback is claimed for a failing set-access or memset, because the code returns without one.
- AllocatorOps.Malloc: the error code is clear on entry; host memory and callback failures, device contexts and machine overflow are not modelled.
- AllocatorOps.FreeOne: that the driver refuses to free a range by another size is an assumption about the driver.
- Copying contents to and from host memory around sleep and wake, tags, and the CUDA (non-ROCm) branches.
- NinjaLog.ReadTargets: lines are given as their fields and integer parsing is a parameter.
- NinjaSweep.Summarize: the equation with the build length assumes non-negative start times, because -1 marks "no start yet".
- Choosing an extension for a target and printing the report.
- Everything else in the repository: schedulers, models, custom operators, benchmarks, build scripts.
