# Verification of the cverl distributed runtime

This project models the distributed runtime of cverl in Dafny and proves that its sharded, streamed and
bucketed forms compute what the plain forms compute, and that its multi-process protocols neither mix up
messages nor get stuck. Floating-point values are `real`. `exp`, `log` and `sqrt` are parameters of which
only the laws in `IsExp`, `IsLog` and `IsRoot` are used. A collective is the mathematical function of all
ranks' values; methods named after one rank's code run for all ranks in lockstep where the code of the ranks
is joined by collectives. Everything is checked by `dafny verify dfyconfig.toml`.

| area | modules |
|---|---|
| shared | `Results`, `Sequences`, `Sums`, `Vectors`, `Chunks`, `LittleEndian` |
| context-parallel attention | `StreamingAttention`, `RingExchange`, `RingAttention` |
| expert parallelism | `IndexOps`, `MixtureOfExperts`, `ExpertDispatch`, `ExpertGrouping`, `ExpertParallel` |
| 1F1B pipeline | `PipelineSchedule`, `PipelineRounds`, `PipelineRun`, `PipelineProgress`, `PipelineTiming` |
| optimizer sharding | `FlatShards`, `FlatParameters`, `FlatCollectives`, `FlatGather`, `GreedyOwner`, `AdamW`, `AdamRuns`, `MasterAdamW`, `ShardedAdamW`, `GradientClipping`, `ShardedRun`, `ShardedStep`, `ShardedTraining` |
| scans and log-probabilities | `LinearScan`, `DeltaMemory`, `VocabParallel` |
| tokenizer | `Utf8`, `BytePairs`, `BpeTokenizer`, `BpeRoundTrip`, `TokenizerEdges` |
| safetensors | `JsonScan`, `Safetensors`, `SafetensorsRoundTrip`, `JsonValues`, `SafetensorsFile` |
| shared-memory transport | `ByteCodec`, `RolloutMessages`, `MessageLayout`, `RolloutIO`, `SharedMemory`, `SharedMemoryCalls` |
| transfers and topology | `Buckets`, `BucketTransfer`, `BucketCollectives`, `Topology`, `LayerPartition` |

How the results build on one another:

- Attention: one loop step of the online softmax keeps the row's maximum, normaliser and weighted sum true to
  the keys seen so far (`UpdateRowExtends`); hence any block list that tiles the sequence gives the softmax
  (`StreamingIsSoftmax`); the ring brings each rank such a list (`RingForward`, `RingTiles`), so slicing,
  exchanging, attending and gathering is attention over the whole sequence (`ContextParallelAttention`).
- Experts: `Mixed` is the plain definition, a sum over the slots of a token. The loop (`Mlp`) and the
  dispatch with its two all-to-alls (`ExpertParallelMlp`) are both proved to give it.
- Pipeline: stages are processes with bounded first-in first-out channels. Values are free terms, so equal terms
  mean equal tensors. An invariant says what every channel and slot holds; a potential shows that the most
  urgent unfinished stage is never blocked. Micro-batches are numbered through all accumulation rounds, which
  follow one another without a barrier.
- Optimizer: flattening, reduce-scatter, clipping, the flat AdamW and the gather are each tied to functions on the
  concatenated parameters; `RunRefines` is the induction over steps, `TrainBoth` runs the objects of both sides.
- Transport: messages round-trip through the byte codec, so the protocol's invariant can speak of messages.
- Definitions that an operation and its reference share are fixed by laws of their own: products by unit vectors and
  linearity (`DotUnit`, `ScoresAreProducts`), the delta rule by what can be read back (`DeltaRule`, `Recall`), bias
  correction by runs (`MomentsAreShares`, `ConstantGradientStep`), clipping by the norm (`ClippedNorm`), reductions by
  adding one rank (`ReducedLaws`), request handling by what calls return (`CallsAreAnswered`).

## Findings

Properties one would expect of the code that fail, each with an input and the exact condition.

- A carriage return in a tensor name is written as an escape that the scanner reads as the letter r
  (src/model/safetensors_writer.cc:35-37, src/model/hf_model_loader.cc:96-110): `a\rb` comes back as `arb`
  (`SafetensorsRoundTrip.CarriageReturnIsLost`). An entry named `__metadata__` is skipped. The header round trip
  holds if and only if no name has either property (`SafetensorsRoundTrip.HeaderRoundTrip`).
- An added token with a code point beyond ASCII that stands for a byte is not restored by decoding: U+00E9 comes
  back as the single byte 0xE9 (`BpeRoundTrip.AccentedTokenIsLost`). A pattern that skips bytes loses them.
  Decoding restores a text if and only if neither happens in it (`BpeRoundTrip.DecodeEncode`).
- A missing gradient counts as zero on the flat path, while the tensor-wise optimizer skips the parameter: with decay
  a parameter of 1 shrinks (`AdamW.MissingGradientDecays`). The two agree on an element if and only if its moments
  are zero and decay leaves it alone (`AdamW.ZeroGradientAgrees`).
- README.md:127 gives a rank formula without the context and expert axes. It names every rank correctly if and only if
  both have size one (`Topology.DocumentedRankExact`). README.md:130 says that tensor groups are contiguous: true
  if and only if the expert axis or the tensor axis has size one (`Topology.TensorGroupContiguous`).
- With sends that wait for their receive, no run of the 1F1B programs on two or more stages ever finishes: the stage
  before the last waits in its second forward send, the last in its first gradient send
  (`PipelineProgress.RendezvousDeadlocks`). Room for one message per direction suffices, which makes the condition
  exact: `HasRoom` in `PipelineProgress.EveryInterleavingFinishes`.

## Model

| member | source | states |
|---|---|---|
| StreamingAttention.StreamingBlocks | src/distributed/context_parallel.cc:505-588 | the tensor loop over blocks and query rows gives row by row what folding the blocks into that row alone gives, and refuses exactly the block lists the source refuses |
| StreamingAttention.UpdateRowExtends | src/distributed/context_parallel.cc:564-582 | one step of the online softmax keeps maximum, normaliser and weighted sum true to the old keys and the block's visible ones, whatever the masking hides |
| StreamingAttention.NormaliserAtLeastOne | src/distributed/context_parallel.cc:579-585 | once a key has been seen the normaliser is at least 1, so the clamp before the division never acts |
| StreamingAttention.ScoresAreProducts | src/distributed/context_parallel.cc:565 | a unit query scores each key by that key's entry times the scale, and a unit key scores the query by the query's entry, for every coordinate from the first on |
| StreamingAttention.ScoresAdd | src/distributed/context_parallel.cc:565 | scores are additive and homogeneous in the query |
| Vectors.DotUnit | src/distributed/context_parallel.cc:565 | the product with a unit vector reads one entry, from either side |
| Vectors.DotAppend | src/distributed/context_parallel.cc:565 | one more coordinate, in front or behind, adds exactly its product |
| StreamingAttention.StreamingIsSoftmax | src/distributed/context_parallel.cc:505-588 | for any block list that shows every position once, in any order, each valid row is the softmax average over the keys up to its position, and padded rows are zero |
| RingExchange.RingSchedule | src/distributed/context_parallel.cc:451-467 | the schedule names, hop by hop, the owner of the shard and the neighbours to send to and receive from; a rank outside the group is refused |
| RingExchange.HopCallsMatch | src/distributed/context_parallel.cc:146-177 | in every hop the rank a process receives from sends to that process |
| RingExchange.RingForward | src/distributed/context_parallel.cc:146-177 | after i hops every rank holds the shard of the rank that its schedule names at i |
| RingExchange.KvIndexInvolution | src/distributed/context_parallel.cc:451-467 | hop number and owner determine each other, so every shard is seen exactly once |
| RingExchange.BackwardFallback | src/distributed/context_parallel.cc:179-225 | passing gradients hop by hop gives every owner the sum over all ranks that the reduce-scatter path gives |
| RingExchange.BackwardIsAdjoint | src/distributed/context_parallel.cc:179-225 | summed over ranks, the product of the exchanged shards with incoming gradients equals the product of the local shards with the returned gradients |
| RingAttention.GatherOfSlices | src/distributed/context_parallel.cc:321-380 | slicing with padding on all ranks and gathering is, up to the original length, the input |
| RingAttention.PaddedSlicesAreShards | src/distributed/context_parallel.cc:361-380 | padded slices on all ranks are shards of the whole tensor with room for all of its rows |
| RingAttention.RingAttend | src/distributed/context_parallel.cc:700-733 | on every rank the positions computed from the schedule name the shards that arrived, and the output is what streaming over them gives |
| RingAttention.RingEqualsSingleProcess | src/distributed/context_parallel.cc:700-733 | each row of the gathered rank outputs is the causal softmax average over the whole sequence |
| RingAttention.ContextParallelAttention | src/distributed/context_parallel.cc:361-380 | from whole query, key and value tensors: slice, exchange, attend, gather and cut give causal attention for every number of ranks and every length |
| Chunks.AllToAllInvolution | src/distributed/expert_parallel.cc:60-76 | all-to-all undoes itself, so the backward pass may be the same call |
| MixtureOfExperts.Mlp | src/model/qwen3_5_text.cc:759-790 | the expert-by-expert loop with its scatter-add gives every token the weighted sum over its slots |
| MixtureOfExperts.RoutesOfToken | src/model/qwen3_5_text.cc:759-790 | a sum over all flattened routes of a token is the sum over its slots |
| IndexOps.Sort | src/distributed/expert_parallel.cc:127-134 | the sort returns an order that lists every index once and the keys ascending; nothing else about it is used |
| ExpertDispatch.PackPlacesRoutes | src/distributed/expert_parallel.cc:96-140 | for any sort order every route gets its own place in the chunk of the rank that owns its expert, and every other place is padding |
| ExpertDispatch.CapacityIsAttained | src/distributed/expert_parallel.cc:116-121 | the common capacity is needed: some rank has that many routes for one destination |
| ExpertGrouping.PlaceReturns | src/model/qwen3_5_text.cc:905-980 | grouping received rows by active expert, running the groups and scattering back puts at each place the owning expert's output of the token received there |
| ExpertParallel.ExpertParallelMlp | src/model/qwen3_5_text.cc:796-993 | on every rank, for every assignment of tokens, routes and experts, the dispatched computation gives exactly the plain layer on that rank's own tokens |
| PipelineSchedule.Build1F1B | src/distributed/pipeline.cc:63-121 | the three loops produce the closed form of the program; fewer micro-batches than stages are refused |
| PipelineSchedule.ProgramOrder | src/distributed/pipeline.cc:63-121 | every micro-batch runs forward once and backward once, each in order, a backward after its own forward |
| PipelineSchedule.ProgramShape | src/distributed/pipeline.cc:58-121 | as many warm-up forwards as stages follow, then forward and backward by turns, then the other backwards; receives and sends exactly where there is a neighbour |
| PipelineSchedule.MaxLiveActivations | src/distributed/pipeline.cc:123-141 | the check accepts exactly the programs whose live count never goes negative and ends at zero, and returns the peak |
| PipelineSchedule.PeakIsExact | src/distributed/pipeline.cc:58-121 | stage s peaks at exactly stages - s live activations |
| PipelineSchedule.PeakOfSchedule | src/distributed/pipeline.cc:63-141 | builder and check run together return stages - s |
| PipelineRounds.RunOrder | tools/model/qwen3_5_pp_tp_ppo_trainer.cc:2264-2272 | program order through all accumulation rounds: every micro-batch forward once, then backward once, in order |
| PipelineRun.StepKeepsInvariant | tools/model/qwen3_5_pp_tp_ppo_trainer.cc:2272-2423 | every step of every stage keeps what slots, channels and accumulated gradients hold |
| PipelineProgress.EveryInterleavingFinishes | tools/model/qwen3_5_pp_tp_ppo_trainer.cc:2264-2423 | for any number of stages, micro-batches, rounds and any capacity of at least one, no interleaving throws or sticks, a run ends after a fixed number of steps, and then every stage has accumulated the gradients of the unpipelined loop |
| PipelineProgress.UntaggedReceivesMatch | tools/model/qwen3_5_pp_tp_ppo_trainer.cc:2299-2421 | the message at the head of a channel belongs to the micro-batch that the receiver's next action names |
| PipelineProgress.LiveActivationsBounded | tools/model/qwen3_5_pp_tp_ppo_trainer.cc:2299-2421 | in no reachable state does a stage hold more than stages - s outputs |
| PipelineProgress.SlotsOfOneRound | tools/model/qwen3_5_pp_tp_ppo_trainer.cc:2265-2270 | the micro-batches a stage holds belong to one round, so slots numbered within the round never collide |
| PipelineProgress.RendezvousDeadlocks | tools/model/qwen3_5_pp_tp_ppo_trainer.cc:2299-2421 | with rendezvous sends and two or more stages no run finishes |
| PipelineTiming.MakespanIsExact | src/distributed/pipeline.cc:63-121 | with unit costs and immediate messages a round ends at exactly 2(M+P-1), and no timetable that respects program order and messages is earlier |
| GreedyOwner.GreedyOwnerBySize | src/distributed/optimizer_sharding.cc:389-417 | each parameter, largest first and ties by index, goes to the first least loaded rank; negative sizes and an empty group are refused |
| GreedyOwner.GrahamBound | src/distributed/optimizer_sharding.cc:389-417 | every rank's load is at most 4/3 - 1/(3R) of the largest load of any other assignment, hence within 3/2 |
| GreedyOwner.GrahamBoundIsTight | src/distributed/optimizer_sharding.cc:389-417 | five parameters on two ranks attain the bound |
| FlatShards.FlattenShard | src/distributed/optimizer_sharding.cc:18-95 | a rank's shard is its stretch of the zero-padded concatenation, and its ranges say which elements of which parameter stand where |
| FlatShards.FlatGradientRangePadded | src/distributed/optimizer_sharding.cc:287-338 | any stretch of the padded gradient concatenation, refused exactly when it is out of bounds or, on demand, when an overlapping gradient is missing |
| FlatParameters.ParameterList.ApplyRange | src/distributed/optimizer_sharding.cc:349-387 | the concatenation of the parameters is patched at the slice's place and nowhere else |
| FlatParameters.RangeExists | src/distributed/optimizer_sharding.cc:18-142 | every element of every parameter is in some rank's range |
| FlatParameters.RangeUnique | src/distributed/optimizer_sharding.cc:18-142 | and in only one range of one rank |
| FlatParameters.FlattenThenApply | src/distributed/optimizer_sharding.cc:758-787 | parameters of the same shapes that receive the gathered shards equal the flattened parameters |
| FlatGather.AllGatherApply | src/distributed/optimizer_sharding.cc:587-614 | after gathering and applying, the concatenation is the gathered shards without their padding |
| FlatGather.AllGatherApplyBucketed | src/distributed/optimizer_sharding.cc:616-646 | the same for every positive bucket size |
| FlatGather.FlattenGatherApply | src/distributed/optimizer_sharding.cc:436-453 | flattening on all ranks, gathering and applying restores every parameter on every rank, bucketed or not |
| FlatCollectives.ReduceScatterGradients | src/distributed/optimizer_sharding.cc:463-507 | every rank gets its stretch of the summed or averaged padded gradients |
| FlatCollectives.ReducedLaws | src/distributed/optimizer_sharding.cc:499 | a sum grows by each further rank's entry, and the number of ranks times the mean is the sum |
| FlatCollectives.EqualInputs | src/distributed/optimizer_sharding.cc:499 | on equal inputs the mean is the input and the sum the input times the number of ranks |
| FlatCollectives.ReduceScatterGradientsBucketed | src/distributed/optimizer_sharding.cc:509-585 | the same shards for every positive bucket size |
| AdamW.UpdateTensor | src/torch/fp32_master_adamw.cc:284-308 | the in-place tensor operations perform AdamW on every element and keep second moments non-negative |
| AdamW.ZeroStays | src/torch/fp32_master_adamw.cc:284-308 | an all-zero element with zero gradient does not move, so padding stays zero |
| AdamW.ZeroGradientAgrees | src/distributed/optimizer_sharding.cc:287-338 | a gradient counted as zero and a skipped parameter agree on an element if and only if its moments are zero and decay leaves it alone |
| AdamW.MissingGradientDecays | src/distributed/optimizer_sharding.cc:287-338 | an input on which they differ |
| AdamRuns.MomentsAreShares | src/torch/fp32_master_adamw.cc:298-299 | after any run from zero moments, the moments are the exponentially weighted sums of the gradients and of their squares |
| AdamRuns.SharesSumToBias | src/torch/fp32_master_adamw.cc:294-295 | the weights add up to the bias correction, so dividing by it makes a weighted average at every step |
| AdamRuns.ConstantGradient | src/torch/fp32_master_adamw.cc:294-303 | under a constant gradient the corrected moments are the gradient and its square after every number of steps |
| AdamRuns.ConstantGradientStep | src/torch/fp32_master_adamw.cc:294-304 | each such step shrinks the parameter by lr times decay and moves it by lr times g over its size plus eps, whatever the step's number |
| AdamRuns.ConstantGradientRun | src/torch/fp32_master_adamw.cc:284-308 | without decay the parameter moves on a line |
| AdamW.FlatAdamW.Step | src/torch/fp32_master_adamw.cc:284-308 | one step on the shard, refused without any change when the gradient's length differs |
| MasterAdamW.Fp32MasterAdamW.Step | src/torch/fp32_master_adamw.cc:118-154 | AdamW on master weights of every tensor that has a gradient, model weights copied from them; other tensors are untouched |
| MasterAdamW.Fp32MasterAdamW.AccumulateModelGrads | src/torch/fp32_master_adamw.cc:105-116 | scaled model gradients are added to the main gradients and cleared; tensors without one keep theirs |
| ShardedAdamW.StepRefines | src/distributed/optimizer_sharding.cc:648-733 | one clipped step of the padded concatenation is the tensor-wise clipped step, and padding stays zero |
| GradientClipping.ClippedNorm | src/distributed/optimizer_sharding.cc:700-708 | a gradient within the limit, or without a limit, is unchanged; any other is scaled by limit over norm plus 1e-6, so the clipped norm never exceeds the limit |
| ShardedRun.RunRefines | src/distributed/optimizer_sharding.cc:648-733 | after any number of steps the shards hold the unsharded optimizer's state for the averaged, globally clipped gradients |
| ShardedStep.FlatShardedAdamWStep | src/distributed/optimizer_sharding.cc:648-733 | on all ranks' objects: reduce-scatter, common clipping, one step per shard and write-back advance the group's state by one whole step for every choice of buckets; a negative norm limit changes nothing |
| ShardedTraining.ClippedStep | src/torch/fp32_master_adamw.cc:118-207 | norm, scaling and step on the optimizer object perform exactly the reference step |
| ShardedTraining.TrainUnsharded | src/torch/fp32_master_adamw.cc:68-154 | any number of training steps on the object end in the reference run's state |
| ShardedTraining.TrainSharded | src/distributed/optimizer_sharding.cc:648-733 | any number of training steps on the ranks' objects end with the reference run's parameters on every rank |
| ShardedTraining.TrainBoth | src/distributed/optimizer_sharding.cc:648-733 | from the same start every rank's parameters equal the model of the unsharded optimizer, for any number of ranks, steps and any buckets |
| LinearScan.ChunkedScan | src/model/qwen3_5_text.cc:219-262 | outputs and final state of the recurrence for every chunk size; a wrong state shape and a non-positive chunk size are refused |
| LinearScan.PadKeepsState | src/model/qwen3_5_text.cc:1326-1331 | a padded step leaves the state unchanged |
| LinearScan.ContextScan | src/model/qwen3_5_text.cc:1326-1343 | every rank, from the state its predecessor sends, returns its part of the padded recurrence |
| LinearScan.ContextEqualsSequential | src/model/qwen3_5_text.cc:1326-1343 | the gathered outputs, up to the original length, are those of the one-process recurrence |
| LinearScan.LastStateIsSequential | src/model/qwen3_5_text.cc:504-526 | the last rank ends with the one-process state |
| DeltaMemory.ReadAfterStep | src/model/qwen3_5_text.cc:252-257 | after a step any read is the decayed read plus beta times the product of read and key times what the value differs from the decayed memory |
| DeltaMemory.DeltaRule | src/model/qwen3_5_text.cc:252-257 | at the step's key old and new value are mixed by beta times the key's squared length; with beta 1 and a unit key the value is read back; an orthogonal read sees only the decay |
| DeltaMemory.Recall | src/model/qwen3_5_text.cc:252-257 | after any number of steps with orthonormal keys every key still reads the value written with it, decayed by the gates since |
| DeltaMemory.OutputRecalls | src/model/qwen3_5_text.cc:252-258 | a query that repeats an earlier key, or its own, makes the output that value |
| VocabParallel.LogProb | src/model/qwen3_5_text.cc:1594-1630 | on every rank, for every vocabulary split and target, the combined maxima, sums and masked targets give the dense log-softmax at the target; a target outside the vocabulary counts as a logit of zero, or is refused when there is one rank |
| VocabParallel.SumIsBounded | src/model/qwen3_5_text.cc:1615-1619 | the shifted sum lies between 1 and the vocabulary size |
| VocabParallel.ProbabilitiesSumToOne | src/model/qwen3_5_text.cc:1600-1603 | the dense reference is a distribution |
| Utf8.BuildByteToUnicode | src/text/hf_bpe_tokenizer.cc:40-62 | the table loops give printable bytes themselves and the others the code points from 256 on, in order |
| Utf8.BuildUnicodeToByte | src/text/hf_bpe_tokenizer.cc:236-242 | the reverse table finds exactly the code points that stand for a byte |
| Utf8.ByteOfInverts | src/text/hf_bpe_tokenizer.cc:40-62 | bytes and their code points determine each other |
| Utf8.CodepointsOfAppend | src/text/hf_bpe_tokenizer.cc:70-121 | encoding code points and decoding returns them, whatever bytes follow |
| Utf8.Utf8Decode | src/text/hf_bpe_tokenizer.cc:90-121 | the decoding loop returns the code points up to the first malformed place and whether there was none |
| Utf8.RenderIsAppend | src/text/hf_bpe_tokenizer.cc:489-502 | code points come out as their own bytes if and only if none beyond ASCII stands for a byte |
| TokenizerEdges.KnownCodepoints | src/text/hf_bpe_tokenizer.cc:40-62 | the code points at every end of a printable stretch, and that neighbouring unprintable bytes are numbered consecutively |
| TokenizerEdges.FirstExactly | src/text/hf_bpe_tokenizer.cc:90-121 | a code point is decoded exactly where the lead byte promises no more bytes than there are, from the lead byte's payload and the low six bits of the others |
| BytePairs.FindBest | src/text/hf_bpe_tokenizer.cc:430-443 | the scan finds the leftmost pair of lowest rank, or that no pair has a rank |
| BytePairs.Merge | src/text/hf_bpe_tokenizer.cc:427-447 | the in-place loop ends, with the parts that merging best pairs one by one leads to |
| BytePairs.MergedKeeps | src/text/hf_bpe_tokenizer.cc:427-447 | merging preserves the concatenation |
| BytePairs.MergedIsDone | src/text/hf_bpe_tokenizer.cc:427-447 | at the end no adjacent pair has a rank |
| BytePairs.MergedAreTokens | src/text/hf_bpe_tokenizer.cc:427-460 | with a vocabulary closed under merges every final part is a token |
| BpeTokenizer.FindAll | src/text/hf_bpe_tokenizer.cc:166-191 | the match loop returns the non-empty matches in order and advances over empty ones |
| BpeTokenizer.PreTokensTile | src/text/hf_bpe_tokenizer.cc:166-191 | the matches tile the text if they are contiguous and are shorter than it otherwise |
| BpeTokenizer.EncodePretoken | src/text/hf_bpe_tokenizer.cc:406-460 | ids of the merged parts, unknown parts replaced or dropped; the one-part shortcut makes no difference |
| BpeTokenizer.DecodeIds | src/text/hf_bpe_tokenizer.cc:475-503 | ids out of range and skipped special ids contribute nothing, the others their token, rendered code point by code point |
| TokenizerEdges.IdsOfAppend | src/text/hf_bpe_tokenizer.cc:447-460 | each further part adds its id, or the unknown id, or nothing when there is none |
| TokenizerEdges.IdsOfParts | src/text/hf_bpe_tokenizer.cc:447-460 | with an unknown id every part has exactly one id, at its place |
| TokenizerEdges.TextOfAppend | src/text/hf_bpe_tokenizer.cc:480-484 | each further id adds its token, or nothing when it is out of range or special and skipped |
| TokenizerEdges.SkippingIsFiltering | src/text/hf_bpe_tokenizer.cc:480-484 | skipping special ids is decoding the others |
| TokenizerEdges.MarkedRoundTrip | src/text/hf_bpe_tokenizer.cc:475-569 | with begin and end markers and special ids skipped, a text whose own ids are ordinary is restored under the same condition as without |
| BpeRoundTrip.FindNext | src/text/hf_bpe_tokenizer.cc:533-547 | the added token found earliest, the longest there, the first of equals |
| BpeRoundTrip.PiecesCover | src/text/hf_bpe_tokenizer.cc:528-559 | gaps and added tokens together are the text |
| BpeRoundTrip.PiecesAreOk | src/text/hf_bpe_tokenizer.cc:528-559 | no gap contains an added token |
| BpeRoundTrip.Encode | src/text/hf_bpe_tokenizer.cc:522-569 | the result is the prefix, up to a positive limit, of the begin id if asked for and present, the body's ids, and the end id if asked for and present |
| BpeRoundTrip.DecodeEncode | src/text/hf_bpe_tokenizer.cc:475-569 | decoding a text's ids gives the text if and only if the pattern skips no byte of a gap and no added token in it holds a non-ASCII code point that stands for a byte |
| BpeRoundTrip.AsciiDecodeEncode | src/text/hf_bpe_tokenizer.cc:475-569 | with ASCII added tokens and a tiling pattern every text is restored |
| BpeRoundTrip.AccentedTokenIsLost | src/text/hf_bpe_tokenizer.cc:489-502 | a text that is not restored |
| BpeRoundTrip.EncodeThenDecode | src/text/hf_bpe_tokenizer.cc:475-569 | the same condition for the encoder and decoder loops with the tables they build |
| JsonScan.JsonScanner.String | src/model/hf_model_loader.cc:82-117 | the loop reads the string the grammar function reads and stops behind it, or fails where it has none |
| JsonScan.JsonScanner.SkipOne | src/model/hf_model_loader.cc:150-193 | the recursive skip consumes exactly one value |
| JsonValues.SkipsOneValue | src/model/hf_model_loader.cc:150-193 | for every JSON value, however deep, skipping its text ends just behind it |
| JsonValues.BlanksAreIgnored | src/model/hf_model_loader.cc:61-65 | blanks before a token, string, number, array, value, object or header change nothing, and only they are passed over |
| JsonValues.EscapeReads | src/model/hf_model_loader.cc:82-117 | a backslash before n and t gives line feed and tab, before any other byte that byte |
| JsonValues.SignedInteger | src/model/hf_model_loader.cc:119-132 | decimal numbers with and without a minus sign give their value exactly within 64 bits and are refused beyond |
| Safetensors.ReadTensor | src/model/hf_model_loader.cc:200-231 | fields in any order, unknown ones skipped, bad offsets refused |
| JsonValues.ObjectScan | src/model/hf_model_loader.cc:200-231 | an object with members in any order, repeated or missing, with unknown ones among them, is read member by member, and refused exactly when offsets run backwards |
| JsonValues.LastCounts | src/model/hf_model_loader.cc:200-231 | of a repeated member the last counts, a missing one leaves its default |
| JsonValues.OffsetsExactly | src/model/hf_model_loader.cc:215-221 | offsets are accepted exactly when they are two numbers, the first not negative, the second not smaller |
| Safetensors.ReadHeader | src/model/hf_model_loader.cc:246-278 | tensors in order of appearance, metadata skipped |
| SafetensorsRoundTrip.EscapedString | src/model/safetensors_writer.cc:21-47 | scanning an escaped string gives it back but for carriage returns |
| SafetensorsRoundTrip.HeaderReadsBack | src/model/safetensors_writer.cc:92-112 | scanning a built header gives every entry but those named as the metadata, in order, whatever follows it |
| SafetensorsRoundTrip.HeaderRoundTrip | src/model/safetensors_writer.cc:92-112 | names, types, shapes and offsets come back if and only if no name holds a carriage return or is the metadata key |
| SafetensorsRoundTrip.CarriageReturnIsLost | src/model/safetensors_writer.cc:35-37 | a name that does not come back |
| SafetensorsFile.BuildHeader | src/model/safetensors_writer.cc:92-112 | the streamed and padded text is the header of the entries |
| SafetensorsFile.WriteU64 | src/model/safetensors_writer.cc:84-90 | the eight bytes of the length, lowest first |
| SafetensorsFile.ReadU64 | src/model/hf_model_loader.cc:233-244 | the number of eight bytes, refused when there are fewer |
| SafetensorsFile.OffsetsTile | src/model/safetensors_writer.cc:126-139 | each tensor begins where the one before ends, the first at 0, the last ends with the data |
| SafetensorsFile.WriteSafetensors | src/model/safetensors_writer.cc:116-161 | length, header, data in order; an empty list is refused |
| SafetensorsFile.FileReadsBack | src/model/hf_model_loader.cc:246-278 | reading a written file gives the kept entries, and the data area starts at a multiple of 8 |
| SafetensorsFile.TensorBytesReadBack | src/model/hf_model_loader.cc:336-364 | the byte range of a tensor in the written file holds its bytes |
| SafetensorsFile.WriteThenRead | src/model/hf_model_loader.cc:233-278 | writer and reader loops together give the kept entries and a tensor's bytes |
| ByteCodec.Writer.WriteBytes | src/rollout/shared_memory_transport.cc:101-107 | appends the bytes, or fails exactly when they do not fit |
| MessageLayout.ByteOfLE | src/rollout/shared_memory_transport.cc:81-90 | byte k of a number is its digit of weight 256 to the k |
| MessageLayout.TwosComplement | src/rollout/shared_memory_transport.cc:209-244 | signed numbers travel as remainders modulo 2 to the 32 and come back |
| MessageLayout.HeaderLayout | src/rollout/shared_memory_transport.cc:202-216 | the place, width and value of every header field and of the two flag bits |
| MessageLayout.RequestStart | src/rollout/shared_memory_transport.cc:202-217 | a request begins with its 48 header bytes, then the length and the bytes of the model's name |
| MessageLayout.ResponseStart | src/rollout/shared_memory_transport.cc:274-277 | a response begins with its id and the number of its sequences |
| MessageLayout.FirstValueWins | src/rollout/shared_memory_transport.cc:266-270 | a map read from a list is in key order and holds for every key the first value in the list |
| RolloutMessages.RequestRoundTrip | src/rollout/shared_memory_transport.cc:202-272 | parsing a serialized request gives it back |
| RolloutMessages.ResponseRoundTrip | src/rollout/shared_memory_transport.cc:274-316 | parsing a serialized response gives it back |
| RolloutIO.SerializeRequest | src/rollout/shared_memory_transport.cc:202-234 | the buffer's prefix is the message, or the call fails exactly when it does not fit |
| RolloutIO.DeserializeRequest | src/rollout/shared_memory_transport.cc:236-272 | the reading loops accept exactly the parsable bytes and return what they parse to |
| RolloutIO.SerializeResponse | src/rollout/shared_memory_transport.cc:274-292 | as for requests |
| RolloutIO.DeserializeResponse | src/rollout/shared_memory_transport.cc:294-316 | as for requests |
| SharedMemory.StepKeepsInvariant | src/rollout/shared_memory_transport.cc:446-512 | every step of client and server keeps the protocol invariant |
| SharedMemory.ProtocolIsSafe | src/rollout/shared_memory_transport.cc:446-512 | in every interleaving at most one token is outstanding, the sides are never in the buffers together, and every finished call has the answer to its own request, after error calls too |
| SharedMemoryCalls.CallsAreNumbered | src/rollout/shared_memory_transport.cc:446-454 | in every run the calls begun are those started, in order; a caller's id is kept, and the others are numbered from 1 on |
| SharedMemoryCalls.CallsAreAnswered | src/rollout/shared_memory_transport.cc:473-512 | what every finished call returned: the handler saw the request with a zero id replaced by the call's, its response comes back with a zero id replaced by the call's and nothing else changed, and each failure has its own message |
| SharedMemory.SomeoneMoves | src/rollout/shared_memory_transport.cc:446-512 | while a call is under way one of the sides can move |
| SharedMemory.StepsBringReturn | src/rollout/shared_memory_transport.cc:446-512 | every step brings a call nearer to its return, at most 13 steps away |
| SharedMemory.CallReturns | src/rollout/shared_memory_transport.cc:446-512 | every run that is long enough has seen the call return |
| Buckets.BucketsAreGreedy | src/distributed/weight_sync.cc:166-186 | buckets tile the list, are of one dtype and device, fit the limit or hold one tensor, and could not have taken the next |
| Buckets.BytesAdd | src/distributed/weight_sync.cc:166-186 | a stretch's bytes are the sum over its tensors of element number times element size |
| Buckets.BucketSpelledOut | src/distributed/weight_sync.cc:166-186 | one dtype and one device in a bucket, the limit exceeded only by a single tensor, and an end only before a tensor of another kind or too large to join |
| Buckets.GreedyIsUnique | src/distributed/weight_sync.cc:166-186 | no other list of buckets has these properties |
| Buckets.AllBucketsAreGreedy | src/distributed/weight_sync.cc:166-186 | the loops cut a bucket list if and only if it has them |
| BucketTransfer.SendShards | src/distributed/weight_sync.cc:202-236 | one message per bucket, in order; a non-positive size or an empty name is refused |
| BucketTransfer.Destination.ReceiveShards | src/distributed/weight_sync.cc:238-272 | messages are copied over the buckets in order; it fails exactly when one is missing or does not match |
| BucketTransfer.ReceivesExactly | src/distributed/weight_sync.cc:238-272 | receiving succeeds exactly when every bucket has its message with the dtype and number of elements, in order, and leaves what follows |
| BucketTransfer.TransferIsIdentity | src/distributed/weight_sync.cc:202-272 | with the same metadata on both sides all messages are consumed and the destination equals the source |
| BucketTransfer.Transfer | src/distributed/weight_sync.cc:202-272 | sender and receiver loops together, for every bucket size |
| BucketCollectives.BroadcastParameters | src/distributed/weight_sync.cc:140-190 | all ranks end with the root's tensors, whatever the bucket size |
| BucketCollectives.SyncGradients | src/distributed/parallel_ops.cc:226-272 | every gradient is the sum or mean over ranks of that tensor alone, whatever the bucket size |
| BucketCollectives.ReductionLaws | src/distributed/parallel_ops.cc:226-272 | the reduction adds up the ranks one by one, and the number of ranks times the mean is the sum |
| Topology.CoordOfRank | src/distributed/topology.cc:87-105 | coordinates give a rank of the world that gives them back |
| Topology.RankOfCoord | src/distributed/topology.cc:118-134 | every rank of the world is the rank of its coordinates |
| Topology.RankInfoOf | src/distributed/topology.cc:118-167 | the divisions and loops give the rank's coordinates and groups; a rank outside the world is refused |
| Topology.GroupHoldsItsRank | src/distributed/topology.cc:136-150 | a group has no rank twice and holds its own rank |
| Topology.GroupOfMember | src/distributed/topology.cc:136-150 | all members of a group have the same group |
| Topology.GroupsPartition | src/distributed/topology.cc:136-150 | the groups of an axis partition the world |
| Topology.SequenceGroupOfMember | src/distributed/topology.cc:151-154 | sequence groups lie in the tensor group, hold their rank and are shared by their members |
| Topology.ModelGroup | src/distributed/topology.cc:155-164 | the four nested loops list a replica's ranks in order, without a gap |
| Topology.ValidIsUsable | src/distributed/topology.cc:47-85 | what validation accepts makes every rank computation in range |
| Topology.ValidExactly | src/distributed/topology.cc:53-85 | acceptance as a condition on the specification's fields, in both directions |
| Topology.RankIsLinear | src/distributed/topology.cc:94-110 | a step along an axis moves the rank by the size of all axes inside it, data outermost, then pipeline, context, tensor, expert |
| Topology.TensorGroupContiguous | README.md:130-131 | tensor groups are contiguous if and only if the expert or the tensor axis has size one |
| Topology.DocumentedRankExact | README.md:126-128 | the documented formula is right for every rank if and only if context and expert axes have size one |
| Topology.LayersTile | src/distributed/topology.cc:169-183 | stages' layer ranges follow one another from the first layer to the last, with sizes differing by at most one |
| Topology.LayerHasOneStage | src/distributed/topology.cc:169-183 | every layer lies in exactly one stage |
| LayerPartition.EvenExactly | src/distributed/topology.cc:171-184 | a partition into stages has sizes that never increase and differ by at most one if and only if it is the computed one |

## Left out

- Floating-point rounding, dtype conversions (`communication_dtype`, fp16 and bf16 casts) and integer overflow of sizes and ranks.
- CUDA kernels, NCCL streams and events; a collective is its mathematical meaning.
- The autograd engine; only hand-written backward functions are modelled, and a backward pass in training is a function of step, rank and parameters.
- Batch and head dimensions of attention and of the scan: one batch entry and one head stand for all.
- The dense attention helper with its -1e9 fill: the reference is the softmax over visible keys.
- Tensor parallelism inside an expert and the packing of gate, up and down weights: an expert is a function from rows to rows of the same width.
- Broadcasting of tensors of width one where torch would accept them.
- Projections, convolution and normalisation around the linear-attention scan.
- RingExchange.RingForward: does not model the two calls of one hop separately; all ranks hop together, and `HopCallsMatch` says that the calls of a hop pair up.
- PipelineRun.StepKeepsInvariant: keys slots by the micro-batch's number through all rounds, where the trainer reuses the same slots every round; `SlotsOfOneRound` shows that no two held micro-batches share a slot.
- PipelineTiming.MakespanIsExact: times one round.
- ShardedStep.FlatShardedAdamWStep: takes the norm group to be the data group, and requires no gradients (`require_grad` off); `FlatGradientRangePadded` models the check of one range.
- MasterAdamW.Fp32MasterAdamW.Step: only with master weights on; `load_state` and parameter deltas are not modelled.
- Reading and writing optimizer checkpoints.
- The clipping test for a finite norm: reals are finite.
- Semaphore timeouts: after one a late response could be taken by the next call, so runs are free of timeouts.
- RolloutMessages.RequestRoundTrip: for messages below 2^32 bytes whose map entries are listed in key order, which is what the source's ordered maps give.
- BpeTokenizer.FindAll: the PCRE2 matcher is a function that returns matches inside the text; loading the tokenizer file is not modelled, and the loaded tables are hypotheses (`Loaded`, `Complete`).
- SafetensorsRoundTrip.HeaderReadsBack: for dtype strings without quotes and backslashes, as the writer's own table has, and numbers that the scanner's 64-bit integers hold.
- Directory scans, file names, memory-mapped or missing files: a file is its contents.
- BucketCollectives.BroadcastParameters: checks all names before the first flush, where the source flushes earlier buckets before it meets an empty name.
- `data_parallel_reduce_scatter_gradients`, parallel linears and vocabulary-parallel embeddings, which follow the same patterns with easier claims.
- Checkpoint manifests, downloads, HTTP serving, command-line tools, benchmarks, dataset readers, sampling, rewards and PPO formulas.
