# TLive-Omni and vLLM: verified models of six cores

A Dafny model of the parts of the repository whose correctness spans several functions, and proofs
of what those parts promise together.

* **Prompt layout and rotary positions.** The processor expands the media tokens of a prompt into
  timestamped spans (`Timestamps`, `VideoLayout`, `VideoStamps`, `Processor`, `Acceptance`,
  `MixedVideos`, `Template`). The model later reads the finished token row again and gives every token
  its temporal, height and width position (`Positions`, `RopeIndexer`, `RopeIndex`, `RopeParse`). The
  two sides were written independently; `RoundTrip` proves that the second recovers what the first
  wrote, for every batch. `Conservation` follows the feature rows into the pads, `Decode` follows the
  stored position delta through prefill and decode steps, and `EndToEnd` joins them into one statement.
* **Audio encoder.** Chunking and attention windows (`FeatureLengths`, `Chunking`, `AudioEncoder`) and
  the collective protocol that keeps ranks of different length together (`ConvLockstep`).
* **ROCm allocator.** A reservation backed by several physical chunks, on a driver that may fail at
  any call (`Driver`, `Allocator`, `AllocatorRuns`, `AllocatorLives`), beside Python's table of
  allocations (`AllocatorTable`).
* **Build-time report.** The log reader and the event sweep (`BuildLog`, `BuildSweep`, `BuildTime`).
* **Compiler patches.** The backward pass over graph partitions (`PartitionSignatures`) and the stack of
  planning states (`PlanningStates`).
* **Data-parallel chunks and loader patching.** `DpChunks`, and the two lock-guarded context managers as
  a step system over threads (`LoaderPatching`).

`Sequences` and `Layout` hold shared vocabulary. Where the source runs a loop or updates fields the
model is a method or a class proved equal to a specification function; the theorems are about that
function. `hide` statements keep definitions a proof does not use away from the solver.

What the source assumes of its callers appears as `requires`: the merge size divides grid sides, an
image has one temporal grid, every video has at least one grid, the convolution chunk is a multiple
of 100 mel frames, no task of a build ends before it starts. Failures that the source handles or
raises are results (`Result`), never excluded.

Findings, each stated as a lemma with its exact condition or a concrete family of inputs:

* A bare video token in front of a wrapped one makes the replace-first loop put the first video in
  the place of the second (`MixedVideos.ExpansionIffWrappedFirst`).
* Audio tokens of a video with sound share positions with its pixels, and its closing tokens come
  before some pixel's coordinate when the audio is shorter than the longer grid side
  (`Positions.DistinctIffNoOverlay`, `Positions.VocalClosingIsPast`).
* An empty row makes the multimodal branch raise (`RopeParse.RowRoundTrip`), and in the text branch a
  padded row with fewer than two attended tokens gets a delta that is not zero (`Decode.TextDeltaZero`).
* With nested backend contexts the outermost backend wins; the innermost is used only if it is the same
  (`LoaderPatching.InnermostIffSame`, `LoaderPatching.NestedBackends`).
* A failing allocation leaves its error code set; the next wake-up then fails and leaves its first
  handle live (`AllocatorRuns.FailedMallocSpoilsWake`, `Allocator.StaleErrorLeaks`). A failing Python
  callback never gives the reservation back (`Allocator.CallbackFailureLeaks`). Freeing an allocation
  that is asleep leaves the error code set in every case (`AllocatorLives.FreeAsleep`).
* A free passes the size that was asked for, while the rounded size was reserved, so a request that is no
  multiple of the granularity is never given back: its range stays reserved and the error code stays set
  (`AllocatorLives.UnalignedIsNeverFreed`, with the exact condition in `AllocatorLives.WholeLife`).
* An allocation that fails after its callback leaves an entry in Python's table whose handle table has been
  freed (`AllocatorTable.DanglingIffBackingFailed`, `AllocatorTable.MallocDangles`).
* A sleep whose re-reservation fails loses its address range; another allocation may be placed there,
  and a later call with the old table unmaps it (`AllocatorLives.RangeLost`,
  `AllocatorLives.TakenOverIsUnmapped`).
* Subgraph borders that are not nested, such as an exit followed by an entry, pass the planner's final
  assertion (`PlanningStates.NestedOrClosed`, `PlanningStates.ExitThenEnter`).
* A video with fewer sampled frames than grids repeats its last timestamp in vocal mode and counts grids
  in silent mode (`VideoStamps.StampOfGrid`, `VideoStamps.StampsAreMidpoints`).
* The weighted durations of a build sum to the time in which something ran, which is the printed
  length only for a build that was never idle. The warning's comment speaks of half a second and of a
  corrupt log; the code compares seconds with 500, and warns exactly when the build was idle for
  longer than that (`BuildSweep.SummarizeEntries`, `BuildTime.WarnsIffLongIdle`).
* Closing a nested chunk context takes the sizes of the outer one away (`DpChunks.WithExact`).
* `_calculate_timestamps` returns patch offsets when asked for seconds and midpoints in seconds
  otherwise; the model follows the code (`Timestamps.OffsetIsTimeIff`, `Timestamps.OffsetIsNoTime`).

## Model

| member | source | states |
|---|---|---|
| Positions.LayIsSound | tlive_omni/modeling_tlive_omni.py:793-948 | for every row of text and media spans: one position per token, the temporal coordinate never decreases, no coordinate exceeds the token's own index |
| Positions.DeltaNeverPositive | tlive_omni/modeling_tlive_omni.py:954 | the position delta of a laid-out row is at most zero |
| Positions.TextAndAudioAreLinear | tlive_omni/modeling_tlive_omni.py:814-829 | a row without vision spans is numbered 0, 1, 2, ... on all axes, token by token, and its delta is zero |
| Positions.DistinctIffNoOverlay | tlive_omni/modeling_tlive_omni.py:848-944 | no two tokens of a row share a position triple if and only if no vocal span carries audio tokens |
| Positions.VocalClosingIsPast | tlive_omni/modeling_tlive_omni.py:912-944 | the closing tokens of a vocal span lie past all its content if and only if it has no audio or at least as much as the longer grid side |
| Positions.GridAt | tlive_omni/modeling_tlive_omni.py:866-868 | pixel `(i, j)` of a grid is its `i * w + j`-th token and gets time `c`, height `c + i` and width `c + j` |
| Positions.SpanIsNumbered | tlive_omni/modeling_tlive_omni.py:818-948 | the position of every single token of a span: opening, pixels, audio, which in a vocal span restarts where the pixels start, and closing |
| Positions.ClosingIsNext | tlive_omni/modeling_tlive_omni.py:943-944 | the closing tokens of any span start one past the maximum of its content if and only if it is not a vocal span with less audio than its longer grid side |
| Positions.MaxCoordIsMax | tlive_omni/modeling_tlive_omni.py:794 | the maximum taken of the last block bounds all its coordinates and is attained |
| RopeIndexer.Find | tlive_omni/modeling_tlive_omni.py:798-805 | first occurrence from a position on, or the stand-in `len + 1` exactly when there is none |
| RopeIndexer.RunEnd | tlive_omni/modeling_tlive_omni.py:889-892 | the maximal run of one token inside a limit |
| RopeIndexer.MergedPads | tlive_omni/modeling_tlive_omni.py:840 | patch count divided by the squared merge size equals merged height times merged width, and is positive |
| RopeIndexer.CoverageInvariant | tlive_omni/modeling_tlive_omni.py:793-953 | at every loop boundary of any row the number of columns emitted is the read position, and the final write fits if and only if spans claimed no more tokens than there are |
| RopeIndexer.BeginOnAnyRow | tlive_omni/modeling_tlive_omni.py:779-792 | the counters any row starts with, as numbers of vision ends behind each kind of token and of audio starts |
| RopeIndexer.IndexedRowsAreSound | tlive_omni/modeling_tlive_omni.py:773-954 | any row indexed without an error, well-formed or not, has exactly the columns of the spans recognised in it: full length, time in order, coordinates at most the index, delta at most zero |
| RopeIndex.CountSpans | tlive_omni/modeling_tlive_omni.py:779-787 | the counting loop finds the vision ends behind image pads, audio ends and video pads (index -1 included) and the audio starts |
| RopeIndex.LocateSpan | tlive_omni/modeling_tlive_omni.py:795-858 | one iteration's search and branch, with every place it can raise, is the specification `Locate` |
| RopeIndex.LocateVocalSpan | tlive_omni/modeling_tlive_omni.py:875-932 | the checks of the audio-in-video branch, in order, are the specification `LocateVocal` |
| RopeIndex.EmitSpan | tlive_omni/modeling_tlive_omni.py:818-948 | the blocks appended for a span, with closing tokens restarting one past the maximum of the last block only, are the span's reference columns, and every token of it has the position that `SpanIsNumbered` states |
| RopeIndex.IndexRow | tlive_omni/modeling_tlive_omni.py:773-954 | the imperative loop over a row with its cursors and `remain` counters computes the columns, delta, cursors and errors of `RunRow` |
| RopeIndex.WriteRow | tlive_omni/modeling_tlive_omni.py:953 | the masked write puts the columns on attended tokens in order and zero elsewhere |
| RopeIndex.WrittenThenAttended | tlive_omni/modeling_tlive_omni.py:775-953 | reading the attended entries back after the masked write gives the columns again, and all other entries are zero |
| RopeIndex.IndexVisionBatch | tlive_omni/modeling_tlive_omni.py:761-957 | the batch loop with cursors running through all rows returns the specification's positions and deltas, or its first error |
| RopeIndex.SplitGridsWhole | tlive_omni/modeling_tlive_omni.py:756-758 | splitting videos into single temporal grids keeps every grid mergeable |
| RopeParse.LocateNext | tlive_omni/modeling_tlive_omni.py:795-876 | in a printed row the next span is found at its place and recognised as its own kind, whatever kind it is |
| RopeParse.LocateMeans | tlive_omni/modeling_tlive_omni.py:806-889 | whatever row is read, a recognised span starts at its own start marker and has the size of the medium at the cursor: merged sides times the merge size are the grid's sides, and a track has the rows of its frames |
| RopeParse.LocateNeeds | tlive_omni/modeling_tlive_omni.py:795-876 | whatever row is read, what each of the four branches needs: the counters, no earlier marker, the token behind the start, and whether the next audio start counts |
| RopeParse.VocalIffPrinted | tlive_omni/modeling_tlive_omni.py:875-932 | on any row the vocal branch accepts the tokens between its markers if and only if they are exactly a printed vocal span of the next grid |
| RopeParse.ParseRun | tlive_omni/modeling_tlive_omni.py:793-948 | the loop over a printed row consumes every span, ends with all `remain` counters at zero and the media used up |
| RopeParse.BeginCounts | tlive_omni/modeling_tlive_omni.py:779-792 | the counters set up before the loop are the numbers of spans of each kind that were printed |
| RopeParse.RowRoundTrip | tlive_omni/modeling_tlive_omni.py:773-954 | indexing the tokens of a piece list gives back its spans in order and kind and advances the cursors by its media; it fails if and only if the row is empty |
| Timestamps.Frames.Calculate | tlive_omni/processing_tlive_omni.py:539-554 | stretches the index list in place to whole patches and returns one timestamp per patch, midpoint or offset |
| Timestamps.StretchedShape | tlive_omni/processing_tlive_omni.py:542-543 | the stretched list has whole patches, holds the last index to the end and is not stretched again |
| Timestamps.StretchingIsHarmless | tlive_omni/processing_tlive_omni.py:539-554 | a second call on the list the first call changed returns the same number of the same timestamps |
| Timestamps.TimestampsInOrder | tlive_omni/processing_tlive_omni.py:546-549 | frames in order give timestamps in order |
| Timestamps.OffsetIsTimeIff | tlive_omni/processing_tlive_omni.py:547-553 | what is returned when seconds are asked for is the patch's time if and only if its middle, in frames, is its offset times the frame rate |
| Timestamps.OffsetIsNoTime | tlive_omni/processing_tlive_omni.py:547-553 | at two frames a second the second patch of two frames lies at 1.25 seconds and is returned as 2 |
| VideoStamps.StampOfGrid | tlive_omni/processing_tlive_omni.py:705-749 | a grid gets the midpoint of its own frames while there are any; past them a vocal video repeats its last timestamp and a silent one counts grids |
| VideoStamps.StampWritten | tlive_omni/processing_tlive_omni.py:705-758 | what stands between the first g spans of a video and grid g is exactly the rendering of that grid's own midpoint, or of the mode's fallback past the frames |
| VideoStamps.StampsAreMidpoints | tlive_omni/processing_tlive_omni.py:692-749 | all grids carry the midpoint of their frames, the last held to the end, if and only if there are frames for all of them or the fallback of the mode agrees by the stated coincidence |
| VideoLayout.BoundaryPartition | tlive_omni/processing_tlive_omni.py:736-741 | the audio boundaries start at 0, never decrease, stay within and end at the track length |
| VideoLayout.AudioBoundaries | tlive_omni/processing_tlive_omni.py:736-741 | the clamped loop yields exactly `min(length, floor form)` at interior points: the clamp from below never acts |
| VideoLayout.TrackRowGrid | tlive_omni/processing_tlive_omni.py:736-741 | a track row belongs to a grid if and only if the row's end lies in the grid's time, up to the nudge, the first and the last grid taking what lies outside |
| VideoLayout.GenerateVideo | tlive_omni/processing_tlive_omni.py:675-758 | the placeholder text of one video in silent or vocal mode; `VideoIsPrinted` and `StampWritten` say what it is |
| VideoLayout.VideoIsPrinted | tlive_omni/processing_tlive_omni.py:675-758 | after renaming, a video's placeholder is the printed form of one timestamped span per temporal grid |
| Processor.FindSpecials | tlive_omni/processing_tlive_omni.py:581-584 | the media tokens of a sample in order of position |
| Processor.Replacement | tlive_omni/processing_tlive_omni.py:588-623 | what one media token is replaced by, the cursors after it, and the errors when media run out |
| Processor.ReplaceSample | tlive_omni/processing_tlive_omni.py:585-631 | the replace-first loop, the renaming and the marker check of one sample |
| Processor.ReplaceMultimodal | tlive_omni/processing_tlive_omni.py:575-646 | all samples with cursors running through, and the rejection of leftover media unless all texts are empty |
| Acceptance.SampleAccepted | tlive_omni/processing_tlive_omni.py:580-631 | any sample at any cursors is accepted if and only if there are media for all its tokens and, in vocal mode with a video, its own markers balance; the cursors move by what it uses, and unbalanced ones fail with their own error |
| Acceptance.BatchAccepted | tlive_omni/processing_tlive_omni.py:575-646 | any batch is accepted if and only if every vocal prompt with a video balances and the prompts together use up all media exactly, or are all empty |
| Processor.LoopIsExpansion | tlive_omni/processing_tlive_omni.py:587-623 | on a sample already expanded up to some point the remaining replace-first steps are the simultaneous expansion of the rest, errors included |
| Processor.SampleExpansion | tlive_omni/processing_tlive_omni.py:580-623 | for every sample in which no wrapped video follows a bare one the replace-first loop is one left-to-right simultaneous expansion |
| Processor.ReplacesFront | tlive_omni/processing_tlive_omni.py:615-619 | one replacement hits the first remaining media token and nothing else |
| MixedVideos.WrongForGood | tlive_omni/processing_tlive_omni.py:615-619 | once a replacement has missed the first video token no later one repairs it |
| MixedVideos.ExpansionIffWrappedFirst | tlive_omni/processing_tlive_omni.py:600-623 | the loop is the expansion if and only if no wrapped video token follows a bare one |
| MixedVideos.MixedSample | tlive_omni/processing_tlive_omni.py:615-619 | a bare video token followed by a wrapped one is such a sample, and the loop misplaces its videos |
| Template.ExpandTemplate | tlive_omni/processing_tlive_omni.py:587-627 | a template's expansion succeeds if and only if the media suffice, and after renaming is the printed form of its pieces |
| Template.ProcessTemplate | tlive_omni/processing_tlive_omni.py:580-631 | a template row is processed if and only if the media suffice; the marker check never fails on it |
| Template.MarkersBalance | tlive_omni/processing_tlive_omni.py:658-672 | printed rows have as many start as end markers of each modality |
| RoundTrip.EndsAtLastGrid | tlive_omni/modeling_tlive_omni.py:756 | the grid counter is at a video's end exactly after its last grid |
| RoundTrip.RowRecovered | tlive_omni/modeling_tlive_omni.py:773-954 | one processed row is indexed to the spans it was generated from, cursors of both sides in step |
| RoundTrip.PrefixRecovered | tlive_omni/modeling_tlive_omni.py:772-954 | the same for every prefix of a batch, with three cursors shared by its rows |
| RoundTrip.BatchRoundTrip | tlive_omni/modeling_tlive_omni.py:773-954 | for the attended tokens of every batch the processor accepts, vocal or silent: no error, every span recognised as generated, no span left over, all media cursors at the end |
| EndToEnd.PaddedRoundTrip | tlive_omni/modeling_tlive_omni.py:744-957 | for every accepted batch padded in any way the multimodal branch raises nothing and gives each row the reference columns of its generated pieces on the attended tokens, zero elsewhere, and their delta |
| EndToEnd.GenerationContinuesPrompt | tlive_omni/modeling_tlive_omni.py:567-587 | processor, padding, prefill and decode in one chain: a token decoded n places behind the prompt gets the largest coordinate of what was generated for its row, + 1 + n, always in a batch with images or videos, and in a batch of text and audio if and only if the row is unpadded or has at least two tokens |
| Conservation.PadsAreMediaRows | tlive_omni/processing_tlive_omni.py:580-646 | in every accepted batch the pads of each modality number exactly the rows of the supplied media |
| Conservation.EncoderRowsArePads | tlive_omni/modeling_tlive_omni.py:158-171 | the audio pads of an accepted batch number exactly the rows the encoder emits chunk by chunk |
| Conservation.Scatter | tlive_omni/modeling_tlive_omni.py:545 | filling in order gives the i-th audio pad the i-th feature row |
| Conservation.TrackRowRank | tlive_omni/processing_tlive_omni.py:736-756 | the j-th audio pad of a grid has, counted over the whole batch, the rank of that track's row boundary + j |
| Conservation.TrackRowPlacement | tlive_omni/modeling_tlive_omni.py:537-545 | filling in order puts row k of a video's track into the grid g with boundary g <= k < boundary g + 1 |
| Decode.Model.Forward | tlive_omni/modeling_tlive_omni.py:567-587 | the position part of `forward` on any call: prefill or decode by cache position, the delta kept, and an error for rows whose mask has another length at prefill; a decode step takes masks of any length |
| Decode.WhenIndexed | tlive_omni/modeling_tlive_omni.py:567-587 | positions and delta are computed anew exactly without a cache, at its first position or when no delta is kept; every other call keeps the delta and is decoded if the batch size is the one it was made for |
| Decode.VisionDelta | tlive_omni/modeling_tlive_omni.py:953-955 | the delta of a row is its largest attended coordinate plus one minus its attended length |
| Decode.DecodeSafety | tlive_omni/modeling_tlive_omni.py:567-587 | over a whole run, after any multimodal prefill with any padding, any earlier delta and any later steps in between, a token decoded n places behind the prompt gets its row's largest coordinate + 1 + n |
| Decode.RunsAreIndependent | tlive_omni/modeling_tlive_omni.py:568-580 | all later calls of a run see the delta of its own start, whatever was kept before, whatever they are given and even if some fail |
| Decode.BranchesAgree | tlive_omni/modeling_tlive_omni.py:761-965 | an unpadded batch without vision pads that the multimodal branch indexes gets exactly the positions and deltas of the text branch |
| Decode.TextDeltaZero | tlive_omni/modeling_tlive_omni.py:959-963 | the text branch fails if and only if some row is empty, and a row's delta is zero if and only if it has no padding or at least two attended tokens |
| Decode.TextRowCounts | tlive_omni/modeling_tlive_omni.py:959-961 | in the text branch attended tokens are numbered 0, 1, 2, ... under any padding and masked entries hold 1 |
| Decode.TextDecode | tlive_omni/modeling_tlive_omni.py:567-587 | over a whole run after a text prefill a decoded token continues the count of attended tokens if and only if the same condition holds |
| FeatureLengths.OutLenClosed | tlive_omni/processing_tlive_omni.py:274-278 | rows are one per started group of eight frames of the last partial hundred and 13 per full hundred |
| FeatureLengths.OutLenSplit | tlive_omni/processing_tlive_omni.py:274-278 | full hundreds of frames can be encoded on their own |
| FeatureLengths.OutLenMonotone | tlive_omni/processing_tlive_omni.py:274-278 | more frames never give fewer rows |
| FeatureLengths.OutLenPositive | tlive_omni/processing_tlive_omni.py:274-278 | only an empty track has no rows |
| Chunking.ChunkShape | tlive_omni/modeling_tlive_omni.py:159-167 | number, width and last width of the chunks of one length |
| Chunking.ChunksTile | tlive_omni/modeling_tlive_omni.py:159-168 | chunks sum to the length and are between one and the chunk width |
| AudioEncoder.ChunkLengths | tlive_omni/modeling_tlive_omni.py:159-167 | fill, overwrite the tails, repair zeros: the array ends up with every audio's own chunks |
| AudioEncoder.ChunkRowsSum | tlive_omni/modeling_tlive_omni.py:158-170 | encoding an audio chunk by chunk gives as many rows as its whole length does |
| AudioEncoder.AudiosTile | tlive_omni/modeling_tlive_omni.py:158-170 | the chunks of a batch tile all audios, in frames and in rows, none crossing two audios |
| AudioEncoder.WindowShape | tlive_omni/modeling_tlive_omni.py:189-193 | full windows followed by the remainder, if any |
| AudioEncoder.CuSeqlens | tlive_omni/modeling_tlive_omni.py:187-194 | the window list with its leading zero, summed up |
| AudioEncoder.WindowWidth | tlive_omni/modeling_tlive_omni.py:188 | the window is the rows of the longest chunk, at most a full one, times the chunks of an inference window |
| AudioEncoder.WindowEndsAtChunk | tlive_omni/modeling_tlive_omni.py:188-193 | within one audio every window ends where some chunk ends |
| AudioEncoder.WindowTheorem | tlive_omni/modeling_tlive_omni.py:158-194 | with windows of that width `cu_seqlens` strictly increases, ends at the total row count, cuts at every audio boundary and only at chunk boundaries |
| ConvLockstep.ChunkedConv | tlive_omni/modeling_tlive_omni.py:57-143 | given the reduced counts, the method returns the convolution of its own rows and makes the stated number of calls in all three branches |
| ConvLockstep.PiecewiseConv | tlive_omni/modeling_tlive_omni.py:128-139 | convolving pieces and concatenating is convolving the whole |
| ConvLockstep.SplitPieces | tlive_omni/modeling_tlive_omni.py:128-139 | piece k holds the rows from `k * size` on, `size` of them or what is left, one piece for every started `size` rows |
| ConvLockstep.NextIsScheduled | tlive_omni/modeling_tlive_omni.py:85-139 | a rank that received what it should issues the scheduled operation next, and stops when the schedule ends |
| ConvLockstep.InvNext | tlive_omni/modeling_tlive_omni.py:57-143 | every step of every rank keeps the protocol invariant |
| ConvLockstep.Progress | tlive_omni/modeling_tlive_omni.py:57-143 | until all ranks have finished, some rank can take a step |
| ConvLockstep.StuckMeansDone | tlive_omni/modeling_tlive_omni.py:57-143 | no rank is left waiting |
| ConvLockstep.MaxCount | tlive_omni/modeling_tlive_omni.py:61-111 | the largest local chunk count is the global maximum length in chunks |
| ConvLockstep.ReturnsOwnConvolution | tlive_omni/modeling_tlive_omni.py:127-143 | what a rank cuts out of its padded result is the convolution of its own rows |
| ConvLockstep.Lockstep | tlive_omni/modeling_tlive_omni.py:57-143 | for every number of ranks, positive lengths and interleaving: same operation kinds in every round, bounded runs, and at the end every rank holds its own convolution |
| Allocator.BaseChunk | vllm/csrc/cumem_allocator.cpp:24-42 | a chunk size set in megabytes is used if and only if its bytes are a positive 64-bit number, else the default of 256 MB |
| Allocator.AlignUpIsAligned | vllm/csrc/cumem_allocator.cpp:341-369 | rounding up gives the least multiple of the granularity |
| Allocator.ChunkPlan | vllm/csrc/cumem_allocator.cpp:341-391 | chunk sizes are positive multiples of the granularity, none larger than the rounded chunk size, all but the last equal to it, and sum to the aligned size |
| Allocator.Pool.CreateChunks | vllm/csrc/cumem_allocator.cpp:150-179 | both loops with their rollbacks, handles written in place, are `CreateAndMap` |
| Allocator.Pool.Allocate | vllm/csrc/cumem_allocator.cpp:321-448 | the allocation path with its early returns is `Malloc` over an aligned chunk table |
| Allocator.Pool.UnmapChunks | vllm/csrc/cumem_allocator.cpp:216-259 | unmap, release, cycle the address range and report the first error: `UnmapAndRelease` |
| Allocator.Pool.Wake | vllm/csrc/cumem_allocator.cpp:737-750 | the wake-up as Python calls it: back, raise on an error code and clear it; the handle table is rewritten as far as handles were made |
| Allocator.Pool.Sleep | vllm/csrc/cumem_allocator.cpp:670-684 | the sleep as Python calls it |
| Allocator.ReleaseShape | vllm/csrc/cumem_allocator.cpp:228-233 | releasing attempts every handle once in order; exactly the failed ones stay live; the first error is reported |
| Allocator.UnmapShape | vllm/csrc/cumem_allocator.cpp:219-226 | unmapping attempts every chunk once in order; exactly the failed ones stay mapped |
| Allocator.CreateShape | vllm/csrc/cumem_allocator.cpp:150-159 | after any number of creates either all went through with fresh handles or one failed and its rollback ran |
| Allocator.MapShape | vllm/csrc/cumem_allocator.cpp:160-179 | the same for the maps, with both rollback loops |
| Allocator.ByteMappedOnce | vllm/csrc/cumem_allocator.cpp:160-178 | every byte of a tiled range belongs to exactly one chunk |
| Allocator.CreateSucceeds | vllm/csrc/cumem_allocator.cpp:150-179 | backing succeeds if and only if none of its calls fails, and then every chunk is mapped at its place by its own handle |
| Allocator.RollbackExact | vllm/csrc/cumem_allocator.cpp:150-179 | after a failure at any create or map nothing of the call is left if and only if every rollback call succeeds |
| Allocator.StaleErrorLeaks | vllm/csrc/cumem_allocator.cpp:150-157 | with the error code set on entry backing always fails, and the device stays as it was if and only if there is no chunk or the first creation fails too; otherwise exactly the first handle is left live |
| Allocator.BackingOutcome | vllm/csrc/cumem_allocator.cpp:150-179 | for every error code on entry: success if and only if it is clear and no call fails, and nothing left behind by a failure if and only if all rollback calls succeed, or with a stale code nothing was created |
| AllocatorRuns.FailedMallocSpoilsWake | vllm/csrc/cumem_allocator.cpp:321-448 | how a stale code arises: an allocation leaves one if and only if it fails for another reason than its callback, and the next wake-up of any other allocation then fails and leaves its first handle live if and only if that could be created |
| Allocator.UnmapOutcome | vllm/csrc/cumem_allocator.cpp:216-259 | every chunk is attempted once whatever fails, the first error is reported, and success restores the device exactly |
| Allocator.CyclesKeepReservation | vllm/csrc/cumem_allocator.cpp:150-259 | over any run of successful wake and sleep cycles the reservation keeps address and size, each wake backs all of it, each sleep leaves nothing |
| Allocator.MallocOutcome | vllm/csrc/cumem_allocator.cpp:321-448 | for every error code on entry, either callback outcome and every early return: when an address is returned, when a failing call leaves the device as found, and when it leaves an error code, each as an if and only if |
| Allocator.CallbackFailureLeaks | vllm/csrc/cumem_allocator.cpp:394-421 | with a failing callback the reserved ranges are as before if and only if the call stopped before reserving |
| Driver.UnreservedIsClear | vllm/csrc/cumem_allocator.cpp:349-353 | since every mapping lies inside a reservation, a place the driver reserves is clear of mappings |
| Driver.AddressFreeValid | vllm/csrc/cumem_allocator.cpp:240-242 | freeing an address range takes no mapping its reservation |
| AllocatorRuns.FailuresAreContained | vllm/csrc/cumem_allocator.cpp:588-750 | after any run of wake-ups and sleeps of one allocation, whichever driver calls fail: every mapping lies inside a reservation, all other handles, mappings and reservations are as they were, the error code is clear |
| AllocatorRuns.AllocationsStayApart | vllm/csrc/cumem_allocator.cpp:588-750 | in every interleaved run of two allocations in separate ranges, whatever fails, each step of one leaves the handles, the mappings and a reservation still held of the other as they were |
| Allocator.Pool.Free | vllm/csrc/cumem_allocator.cpp:536-550 | the freeing half of `my_free`: unmap and release, then free the address range in any case, keeping the last error code |
| AllocatorLives.FreeAwake | vllm/csrc/cumem_allocator.cpp:452-550 | freeing an awake allocation with the size asked for removes it if and only if that is the size reserved, every chunk call succeeds and the address range goes, and leaves no error code if and only if the sizes agree, the code was clear, no call fails and the cycled range comes back in place |
| AllocatorLives.FreeAsleep | vllm/csrc/cumem_allocator.cpp:536-550 | freeing an allocation that is asleep removes it if and only if the size asked for is the one reserved and its last call succeeds, and leaves an error code in every case |
| AllocatorLives.WholeLife | vllm/csrc/cumem_allocator.cpp:321-750 | allocation of any size, any successful nights, and a free in which anything may fail: the device is as before the allocation, and the error code clear, if and only if the request is a multiple of the granularity and the stated calls of the free succeed |
| AllocatorLives.UnalignedIsNeverFreed | vllm/csrc/cumem_allocator.cpp:483-550 | a request that is no multiple of the granularity stays reserved after its free and leaves the error code set, whatever succeeds |
| AllocatorLives.RangeLost | vllm/csrc/cumem_allocator.cpp:240-258 | a sleep loses its address range if and only if everything up to giving it back succeeds and it is not reserved again in the same place |
| AllocatorLives.TakenOverIsUnmapped | vllm/csrc/cumem_allocator.cpp:216-233 | when another allocation of the same size is placed on the lost range, a further call with the old table unmaps exactly those of its chunks whose unmap call succeeds |
| AllocatorTable.DanglingIffBackingFailed | vllm/csrc/cumem_allocator.cpp:412-445 | after any run of allocations, frees and dropped entries at any addresses, an entry of Python's table leads to a freed handle table if and only if the last event at its address is an allocation announced and then not backed |
| AllocatorTable.TablesKept | vllm/csrc/cumem_allocator.cpp:394-550 | as long as no entry is dropped and no address with a good entry is announced again, every handle table has an entry or has been freed |
| AllocatorTable.MallocDangles | vllm/csrc/cumem_allocator.cpp:394-445 | an allocation that gets past its callback leaves such an entry, until its address is touched again, if and only if one of its create or map calls fails |
| BuildSweep.SortedEventsSchedule | vllm/tools/report_build_time_ninja.py:218-224 | sorting by time and action gives a schedule in which both events of every task occur once |
| BuildSweep.StartFirst | vllm/tools/report_build_time_ninja.py:224-228 | a stop event is never processed before its start |
| BuildSweep.SweepStep | vllm/tools/report_build_time_ninja.py:238-255 | every event keeps the credit invariant, and a stop finds its task running |
| BuildSweep.FairStep | vllm/tools/report_build_time_ninja.py:238-255 | every event keeps each task's credit at what the intervals say it is due so far |
| BuildSweep.SweepEnds | vllm/tools/report_build_time_ninja.py:256 | after the last event nobody runs, so the final assertion holds |
| BuildSweep.Sweep | vllm/tools/report_build_time_ninja.py:230-256 | every task's share is its equal part, by the task intervals alone, of each segment between neighbouring events it covers; shares lie between zero and the duration and sum to the time covered by at least one task |
| BuildSweep.CoveredAtMost | vllm/tools/report_build_time_ninja.py:220-259 | covered time is at most the build's length, and equal if and only if the build is never idle |
| BuildSweep.IdleIsTheRest | vllm/tools/report_build_time_ninja.py:220-259 | covered and idle time make up the span from the first to the last event |
| BuildSweep.SummarizeEntries | vllm/tools/report_build_time_ninja.py:198-265 | shares, total, length and warning for every non-empty set of tasks: the equal division, the conservation law, the bound that `WeightedDuration` asserts, and the warning if and only if nothing ran for more than 500 seconds |
| BuildTime.CoveredIsBusy | vllm/tools/report_build_time_ninja.py:238-255 | up to every event the covered time is the number of milliseconds in which some step runs |
| BuildTime.SweptTimeIsBusyTime | vllm/tools/report_build_time_ninja.py:121-256 | for every build read from a log the distributed time is the number of milliseconds in which some step runs |
| BuildTime.DueIsWeightedTime | vllm/tools/report_build_time_ninja.py:230-256 | what a step is due is the sum, over its milliseconds, of one over the number of steps running in each |
| BuildTime.WarnsIffLongIdle | vllm/tools/report_build_time_ninja.py:258-265 | for such a build the warning comes if and only if more than half a million milliseconds of its span have no step running |
| BuildLog.LookUp | vllm/tools/report_build_time_ninja.py:133-135 | the dictionary holds a command hash exactly when the records of the build do, with the first record's times |
| BuildLog.GroupsAdd | vllm/tools/report_build_time_ninja.py:144-147 | adding a record to a grouping by hash groups one record more |
| BuildLog.RestartsIffNotOneBuild | vllm/tools/report_build_time_ninja.py:125-143 | the two reset tests together fire if and only if the record does not extend the current build |
| BuildLog.LastBuildIsOne | vllm/tools/report_build_time_ninja.py:125-143 | the kept suffix has non-decreasing end times and one start and end per hash, and is never empty |
| BuildLog.CutOnlyWhereNeeded | vllm/tools/report_build_time_ninja.py:125-143 | a log that is one build is kept whole, and otherwise the last build's first record could not extend the build in front of it |
| BuildLog.CorruptIsSkipped | vllm/tools/report_build_time_ninja.py:114-119 | a line with the wrong number of fields changes nothing about the lines before and behind it |
| BuildLog.ValidAreKept | vllm/tools/report_build_time_ninja.py:114-124 | a log without such lines is read line by line, in order |
| BuildLog.ReadTargets | vllm/tools/report_build_time_ninja.py:112-148 | the reader returns the grouping by hash of all valid records, or of exactly the last build |
| PartitionSignatures.NeededIsAwaited | vllm/vllm/env_override.py:233-328 | the backward recurrence of unmet names holds if and only if, read forwards, a partition or the graph takes the name in before anybody hands it out |
| PartitionSignatures.SignOne | vllm/vllm/env_override.py:233-328 | one turn of the pass: inputs by real name, frees, constants, outputs by real name, the names still unmet, and the error for a returned name without a node |
| PartitionSignatures.GetSignatures | vllm/vllm/env_override.py:206-330 | the backward loop fails if and only if a name handed out with storage has no node; otherwise every partition gets the inputs, frees, constants and outputs that later partitions and the graph call for, mutation aliases included |
| PartitionSignatures.InputsExactly | vllm/vllm/env_override.py:243-300 | an input is exactly a name with a node that the partition reads or writes without generating it, by its real name, or uses last without generating it; freed are exactly those used last, and constants accordingly |
| PartitionSignatures.OwnBuffersStayInside | vllm/vllm/env_override.py:247-261 | a partition takes in none of the buffers it generates if and only if it accesses no alias, made elsewhere, of one of them; never without aliases |
| PartitionSignatures.UnallocatedIsLast | vllm/vllm/env_override.py:212-231 | a name has no storage if and only if the buffer it stands for in the end is known and has no layout |
| PartitionSignatures.ClosestGeneratorReturns | vllm/vllm/env_override.py:233-330 | a generated name taken in later, or returned by the graph, comes out of the closest generator in front, by its real name |
| PartitionSignatures.ReturnedIsNeeded | vllm/vllm/env_override.py:286-308 | nothing else comes out: a returned name has storage and is the real name of a live input or of a generated buffer awaited behind |
| PartitionSignatures.ReturnedExactly | vllm/vllm/env_override.py:286-308 | both directions: with storage, exactly the real names of inputs that are not freed and of generated buffers awaited behind are returned |
| PartitionSignatures.InputsAreSupplied | vllm/vllm/env_override.py:233-330 | every allocated input generated anywhere in front is handed out in front of its user, and not again before it |
| PlanningStates.TrimmedIsMaximal | vllm/vllm/env_override.py:160-166 | exactly the trailing planning lines of buffers that are not returned are dropped |
| PlanningStates.Wrapper.MemoryPlanReuse | vllm/vllm/env_override.py:160-180 | planning ends without an error if and only if no planning line or exit stands where nothing is open and one state is open at the end, and fails at the final assertion if and only if more are; without an error every line was planned against the state of its innermost open subgraph |
| PlanningStates.NestedOrClosed | vllm/vllm/env_override.py:169-180 | nested subgraph borders are planned without an error; borders planned without one are not nested if and only if somewhere nothing is open |
| PlanningStates.ExitThenEnter | vllm/vllm/env_override.py:169-180 | an exit followed by an entry passes the final assertion and is not nested |
| PlanningStates.OpenerEncloses | vllm/vllm/env_override.py:169-180 | that state's subgraph encloses the line: since its entry it was never closed |
| DpChunks.LocalSizes | vllm/vllm/forward_context.py:72-87 | the loop fills one size per sequence-parallel rank |
| DpChunks.LocalSizeBounds | vllm/vllm/forward_context.py:82-87 | every rank works on between one and `m` tokens in every chunk |
| DpChunks.RankTotals | vllm/vllm/forward_context.py:82-87 | over any number of chunks a rank's sizes sum to what the chunks can hold, at most its tokens, plus one per chunk after it finished |
| DpChunks.AllRanksInStep | vllm/vllm/forward_context.py:72-87 | the same for all ranks at once over the chunks covering the largest |
| DpChunks.CuTokens | vllm/vllm/forward_context.py:179-184 | the cumulative tensor is the prefix sum of the same counts |
| DpChunks.CumulativeExcess | vllm/vllm/forward_context.py:179-184 | it exceeds the real tokens by less than the sequence-parallel size per data-parallel rank |
| DpChunks.SharesInFront | vllm/vllm/forward_context.py:61-69 | the ranks of the first data-parallel ranks come first and do not depend on later ones |
| DpChunks.ShareOfRank | vllm/vllm/forward_context.py:61-69 | every sequence-parallel rank of a data-parallel rank gets the least share with which they hold all its tokens |
| DpChunks.WhatReadersGet | vllm/vllm/forward_context.py:61-87 | a reader inside a context gets that share for each rank, or the chunk's part of it, never less than one |
| DpChunks.DPMetadata.Within | vllm/vllm/forward_context.py:118-176 | the `with` statement of both context managers around a body that may ask for sizes, raise and open further contexts runs as specified |
| DpChunks.WithExact | vllm/vllm/forward_context.py:118-176 | it ends without an exception if and only if nothing in it raises and nobody asks behind a context closed inside; then everybody got the sizes of the context they were in, and the sizes never outlive it |
| DpChunks.InnerContextClears | vllm/vllm/forward_context.py:152-173 | asking for the outer sizes after an inner context was closed fails |
| LoaderPatching.InvStep | tlive_omni/processing_tlive_omni.py:52-96 | every small step of every thread keeps: only the lock's owner is inside contexts, and the bindings are the originals with its open contexts layered on top |
| LoaderPatching.FreeLockMeansOriginals | tlive_omni/processing_tlive_omni.py:52-148 | in every interleaving, whenever the lock is free all patched attributes are the originals |
| LoaderPatching.OneThreadInside | tlive_omni/processing_tlive_omni.py:35-148 | contexts of different threads never overlap and the lock counts the open ones |
| LoaderPatching.NestedUseUndone | tlive_omni/processing_tlive_omni.py:88-96 | equal open contexts see equal bindings, whatever ran in between and however nested bodies ended |
| LoaderPatching.BodySees | tlive_omni/processing_tlive_omni.py:52-148 | a running body finds the forced backend on both video modules and, if importable, the third, calling what the first was bound to on entry, or the video's own audio, and everything else as on entry |
| LoaderPatching.OwnerCanStep | tlive_omni/processing_tlive_omni.py:52-148 | whoever holds the lock can take a step without opening another context |
| LoaderPatching.OutermostBackendWins | tlive_omni/processing_tlive_omni.py:70-86 | a call through any patched module reaches the first module's original with the outermost forced backend |
| LoaderPatching.InnermostIffSame | tlive_omni/processing_tlive_omni.py:70-86 | the innermost backend is used if and only if it equals the outermost one |
| LoaderPatching.NestedBackends | tlive_omni/processing_tlive_omni.py:52-96 | nesting any two backends is reachable from every initial state, and calls in the inner body get the outer one |

## Left out

- Neural computation (attention, convolution values, embeddings, loss): only lengths, indices and row order are modelled; convolution is an arbitrary row-wise function.
- Tokenizer and chat template: samples are token sequences, timestamps render to opaque text, and a prompt is what a template of text, image, audio and video items yields.
- Image, video and feature processors: their grids, mel lengths and timestamps are inputs.
- `get_llm_pos_ids_for_vision` is not part of the repository's files; image columns are taken to be the same grid triples as a video's.
- Floating-point rounding: seconds per grid is an arbitrary non-negative real and the 1e-6 nudge is exact; bfloat16, `torch.ceil` on a quotient and one-decimal rendering are not modelled.
- `get_rope_index` without an attention mask, and `forward` with given position ids: the model always has a mask and computes positions.
- Decode.Model.Forward: batch sizes that differ between rows, masks and stored deltas are error results; broadcasting a single row is not modelled.
- Conservation.Scatter: the three embedding scatters differ only in token and feature rows; the audio one is modelled.
- AudioEncoder.ChunkLengths: audios without a single frame are excluded, as the source's tail index is not meant for them.
- RopeIndex.IndexRow: the list of position blocks is kept as its concatenation and its last block.
- Allocator.Pool.Allocate: 64-bit overflow, host `malloc` failures, the final access step, context creation and Python reference counting are not modelled.
- AllocatorLives.TakenOverIsUnmapped: the statement is about calls with the old handle table; an allocation at the same address also replaces the table's entry, which is modelled in `AllocatorTable` alone.
- AllocatorTable.DanglingIffBackingFailed: what a driver call does with a freed handle table is undefined and not modelled.
- The single-handle CUDA path has no chunk loop, so it would only add easy members; unpacking of Python arguments in `my_free` and the wrappers, and a failing free callback, are left out.
- BuildLog.ReadTargets: the header check and fields that do not parse as integers raise before any record is kept and are not modelled.
- BuildSweep.SummarizeEntries: steps are told apart by index, not object identity; grouping by file extension and printing are left out.
- PartitionSignatures.GetSignatures: symbol inputs come from the compiler's own code and are left out, as is the order inside ordered sets; alias chains are taken to end.
- PlanningStates.Wrapper.MemoryPlanReuse: which buffer a planning line reuses inside its state is the compiler's own code and not modelled, nor are the lines left behind by an error.
- `override_forward_context`: single-threaded save-and-restore, a special case of what is proved for the loader contexts.
- LoaderPatching.InvStep: an asynchronous interrupt between two statements of the patching loop, which stands before the `try`, is not modelled.
- Media decoding, path handling, keyword merging, logging, the network client, benchmarks, set-up scripts and kernel wrappers: input/output and plumbing.
