# A verified model of the QEMU profile-guided-optimisation profiler

The profiler instruments the translation blocks (TBs) a QEMU guest executes, writes a binary log, and
a converter parses that log. This project models the plugin's tiers 0 to 2, the edge storage, the exit
dump, the log writer, the independent log parser, the lock-free per-vCPU store, the instruction
decoder, the ELF symbol index and the temporal trace, and proves that what comes out of the pipeline
is what the guest did.

## How it is organised

The reference is naive. `GuestTrace` lists events (a block translated, a block entered, an instruction
reached, the two atomic operations of a first-seen callback, the two locked halves of a flush) with all
vCPUs interleaved, and counts taken branches, fall-throughs, executions, direct and indirect calls by
reading the trace alone.

- **Profiling run.** `Profiler` is the state machine: one step per event, instrumentation acting in
  registration order. `ControlLaws`, `EdgeLaws`, `ExecLaws`, `FirstSeenLaws` prove what every reachable
  state says about the trace. `Plugin` is the same thing as mutable objects: class `PluginState`, one
  method per atomic section, with ghosts for the trace so far and the machine run that explains it.
  `Decoding` ties each instruction's class to its bytes, `Layout` a block's end and fall-through address
  to the sizes of its instructions, and `FlushLaws` says when a streaming vCPU flushes.
- **Edge storage.** `EdgeStorage` has the class; `TopNBound` the error bound of lazy pruning;
  `TopNEndToEnd` sums it over all vCPUs and carries it to the parsed profile.
- **Exit.** `FallThroughs`, `ExitDump` and `DirectCallIndex` are the exit computations;
  `FallThroughLaws` and `DirectCallLaws` say when the derived counts are right and how far off they are.
- **Log.** `LogFormat` is the layout, `ProfileWriter` and `NativeParser` the two crates' ends,
  `LogRoundTrip` and `LogLaws` how they fit together, truncation included; `Utf8` is the parser's
  lossy decoding, `LogLayout` the byte positions, tags and record sizes in plain numbers.
- **Whole pipeline.** `EndToEnd` composes run, dump, log and parser. `PluginState.PluginExit`
  establishes its hypothesis `CompleteRun` for whatever is parsed from the file, and
  `Pipeline.ExitAndParse` runs exit and parser one after the other. `IndirectCode` follows the bytes of
  an indirect branch into the profile.
- **Others.** `VcpuStore` (interleaved atomic steps), `Decoder`, `SignExtension`, `BranchEncoding`,
  `BranchRoundTrip`, `IndirectRoundTrip`, `DecoderConverse`, `ElfIndex`, `Temporal`, `StartupOrder`; `Counterexamples` has runs, written down
  with `ExampleRuns`, on which the profile departs from the truth; `Words`, `Bytes`, `Counting`,
  `Sorting` are shared vocabulary.

Hash maps are maps whose iteration order is arbitrary, so every result holds for every order. A library
sort is assumed to return a permutation in key order and nothing more.

## Hypotheses

- QEMU runs a block's callbacks and inline operations in registration order, and serialises the
  callbacks of one vCPU. Different vCPUs interleave per instruction, and their callbacks overlap,
  between the `fetch_add` and the store of a first-seen number as well as between the two locks of a flush.
- Counters are natural numbers during the run; results that reach the 64-bit log assume fewer than
  2^64 events. The writer's totals and the parser's merges wrap modulo 2^64, as in a release build.
- The writer exists from the first flush on, and no write fails.
- At exit the vCPUs have stopped: no callback, and so no flush, is under way (`Profiler.Quiet`).
- The latest translation of a block is the one that runs: once a block is translated again, its old
  translation, which carries the first-seen callback, is not entered any more.
- A vCPU's slot is published before its callbacks run. `VcpuStore.ReturnsBeforePublished` shows that
  the code alone does not guarantee this.
- The code at an address does not change: a block translated again under the same key is the same
  block, as README.md:273-281 of the repository demands.
- Blocks are not empty.
- Wall-clock readings are arbitrary inputs.

Further conditions (no block ends at address 0, every block runs to its last instruction, one block
per start address) appear as preconditions of the theorems that need them, and only there.

## What turned out conditional or false

Each has an exact condition; the run or input named with it is one on which the condition fails.

- **Fall-throughs.** The exact emitted count is fall-throughs plus unattributed entries
  (`FallThroughsAreExact`; `InitialEntryIsReported` is a run with one too many); unattributed entries are
  at most one per vCPU when blocks run to completion.
  With several blocks at one start, the per-block subtraction under-reports unless no branch enters
  there, only branches do, or at most one of the blocks was executed: `SharedStartsNeverOverReport`
  states this as an equivalence, `SharedStartUnderReports` is a run that loses a fall-through.
- **Bounded edge counts.** They are exact if and only if no vCPU takes more than 2N distinct edges
  (`TopNEndToEnd.ExactEndToEnd`); `PruningLosesABranch` is a run of four entries with N = 1.
- **First-seen numbers.** Blocks are numbered in the order of their first entries if and only if numbers
  were drawn in that order, once for each block (`NumbersFollowEntries`, any number of vCPUs). With several
  vCPUs a block's number may come from a later first run (`SecondVcpuRenumbers`) or from an earlier one
  (`EarlierNumberWins`): the callback draws and stores in two steps, and stores may overtake each other. On
  one vCPU the condition is that no block is translated twice before it first runs
  (`OneVcpuDrawsInOrder`); such a block is never numbered (`EarlyRetranslationLosesNumber`).
  `NumberedIffFirstRun` is the exact condition for having a number at all.
- **Direct-call counts.** They never exceed the true ones. A callsite's count is right for every order of
  the index if and only if no executed block lies over it, or exactly one does, which starts last and
  shares its start with no other (`DirectCallLaws.AnswersExact`); `NestedBlockHidesCall` is a run that
  records an executed call with count 0.
- **Slots.** A finished `ensure_vcpu_state` may leave a requested slot null (`ReturnsBeforePublished`); `ReturnedSlots` says
  exactly when. Growth can fail the index assertion if and only if M+K-1 > 256 (`SafeCapacity`).
- **Symbol lookup.** It agrees with a scan exactly when no symbol reaches past the next one or past
  2^64 - 1 (`ElfIndex.LookupRefinesScan`); `NestedSymbolHidesOuter` is a table where it does not.
- **Strings.** A text longer than its field comes back as the part that was written exactly when it is cut
  between characters (`LogRoundTrip.TextRoundTrip`); `CutCharacterComesBackAltered` is one that does not.
- **Temporal order.** For a log this plugin wrote, it never depends on the hash order
  (`StartupOrder.FunctionListIsDetermined`); in general that holds exactly when no two functions share a
  first number (`Temporal.OrderIsDetermined`), and ties can come only from logs no plugin wrote.
- README.md:195-197 of the repository says that direct calls are found by parsing disassembly. The code
  uses opcode masks; the model follows the code.

## Model

| member | source | states |
|---|---|---|
| EdgeStorage.EdgeAccumulator.Record | plugin/src/edge_storage.rs:93-101 | One more record of the edge; in bounded mode a table grown past 2N is left as any of its possible prunings, in streaming mode it is only grown |
| EdgeStorage.EdgeAccumulator.Prune | plugin/src/edge_storage.rs:103-111 | Keeps N entries with their counts, none colder than a dropped one; ties may go either way |
| EdgeStorage.EdgeAccumulator.Drain | plugin/src/edge_storage.rs:51-56 | Lists every stored edge once with its count and leaves the storage empty |
| TopNBound.TableInvariant | plugin/src/edge_storage.rs:75-101 | Between records the table has at most 2N edges, each counted at least once |
| TopNBound.RecordsAreConserved | plugin/src/edge_storage.rs:93-111 | Over any run stored plus discarded counts equal the records made |
| TopNBound.StoredNeverExceedsTrue | plugin/src/edge_storage.rs:93-111 | A stored count never exceeds the true one, misses at most (times dropped) x (largest dropped count), and is exact for a never dropped edge |
| TopNBound.HotEdgeSurvives | plugin/src/edge_storage.rs:103-111 | A dropped edge's count times N+1 is at most the records so far, so a hotter one is never dropped |
| TopNBound.UndercountBound | plugin/src/edge_storage.rs:93-111 | An edge's undercount L among T records satisfies 4N^2 L <= (T-L)^2, which is stronger than 4N^2 L <= (T+N)^2 |
| TopNBound.HeavyEdgeIsStored | plugin/src/edge_storage.rs:93-111 | An edge recorded more than (T/2N)^2 times is in the table |
| TopNBound.ShortRunsAreExact | plugin/src/edge_storage.rs:98-100 | Up to 2N records every count is exact |
| GuestTrace.OutflowConserved | plugin/src/tier1.rs:50-69 | When blocks run to completion, the executions of blocks ending at e are the branches and fall-throughs out of e plus the vCPUs standing at e |
| GuestTrace.UnattributedAtMostOncePerVcpu | plugin/src/tier1.rs:84-87 | With no block ending at 0 and blocks run to completion, each vCPU enters an address unattributed at most once |
| Layout.EndAndFallThrough | plugin/src/tier0.rs:29-34 | For instructions lying one after the other, a block's end is its start plus the sizes of all instructions but the last, and its fall-through address the start plus all sizes, modulo 2^64 |
| Layout.NextIsFellInto | plugin/src/tier1.rs:50-69 | Having finished such a block, a vCPU falls into the block starting right behind it and branches into every other (if the block does not end at 0) |
| Layout.StoredAddresses | plugin/src/tier1.rs:50-69 | After such a block the scoreboard holds exactly these two addresses |
| Layout.SequentialEntryRecordsNothing | plugin/src/tier1.rs:40-48 | Entering the block right behind it records no branch, flushes nothing and records no indirect call |
| Layout.PredecessorsByLayout | plugin/src/tier1.rs:131-135 | The exit computation finds a predecessor for an address exactly if some such block stops there |
| Counterexamples.MixedSizesFallThrough | plugin/src/tier0.rs:29-34 | A run through 2-byte and 4-byte RISC-V instructions: 0x1002 falls through to 0x1006 once, no branch is recorded, and every dump reports exactly that |
| GuestTrace.PendingIsInLastTb | plugin/src/tier2.rs:34-68 | A pending callsite is an indirect instruction reached in the block the vCPU entered last |
| GuestTrace.StaysPending | plugin/src/tier2.rs:59-68 | A reached indirect instruction stays the pending callsite until its vCPU enters a block or reaches another |
| ControlLaws.ControlAlways | plugin/src/tier1.rs:36-69 | In every reachable state the scoreboard holds the end and fall-through address of the last finished block and the pending callsite the trace implies, for every vCPU |
| ControlLaws.KnownAreTranslated | plugin/src/tier0.rs:46-69 | The known blocks are exactly the translated ones, filed under their first address and instruction count modulo 2^16 |
| ControlLaws.FiresExactlyOnTakenBranches | plugin/src/tier1.rs:40-87 | The branch callback records an edge exactly when the entry is by a taken branch, and from its source |
| EdgeLaws.TakenBranchesConserved | plugin/src/state.rs:354-387 | Accumulated, in flight and logged counts of any set of edges together never exceed the taken branches, and equal them in streaming mode or while no vCPU takes more than 2N distinct edges |
| TopNEndToEnd.CountsExactIff | plugin/src/edge_storage.rs:93-101 | All edges have their true counts if and only if flushing is on or no vCPU has taken more than 2N distinct edges |
| EdgeLaws.FlushedSplit | plugin/src/state.rs:366-387 | Per target, flushed entries plus what the vCPUs hold uncounted equal the target's total over log, flights and accumulators |
| FlushLaws.FlushesExactlyAtThreshold | plugin/src/edge_storage.rs:67-70 | In every reachable state of a streaming run no vCPU holds as many as max(1, topN) edges, and every batch in flight or logged has exactly that many records |
| FlushLaws.WrittenBatchesAreFull | plugin/src/state.rs:353-363 | So every branch batch written while the program runs has exactly max(1, topN) records |
| Pipeline.PluginFlushesAtThreshold | plugin/src/state.rs:353-363 | The same for the branch batches a plugin object has written so far |
| EdgeLaws.AccumulatorIsTopNRun | plugin/src/state.rs:354-364 | In bounded mode each vCPU's accumulator is a Top-N run over exactly the branches that vCPU took |
| EdgeLaws.TopNProfileError | plugin/src/edge_storage.rs:93-111 | The Top-N error bound against the naive trace, per vCPU and edge |
| ExecLaws.ExecutionsAreCounted | plugin/src/tier0.rs:53-92 | The counters of any class of blocks sum to the entries of such blocks, across retranslations |
| ExecLaws.TotalExecIsEntries | plugin/src/lib.rs:270-272 | A block's counter summed over vCPUs is its number of entries |
| ExecLaws.ProfileOutflow | plugin/src/tier1.rs:50-89 | Executions of blocks ending at e equal recorded edges leaving e plus fall-throughs from e plus the vCPUs whose last block ended at e |
| ExecLaws.IndirectRelayIsExact | plugin/src/tier1.rs:91-100 | For every set of (callsite, target) pairs the recorded total is the number of branch entries that followed a reached indirect instruction |
| ExecLaws.IndirectCallsAreBranches | plugin/src/tier1.rs:89-100 | Per target, indirect calls number at most the branch edges recorded into it |
| FirstSeenLaws.NumbersAreFirstRuns | plugin/src/tier0.rs:113-118 | For any number of vCPUs and callbacks overlapping in any way, numbers are drawn for first runs only, and a nonzero number of a block is the one stored last and was drawn for that block |
| FirstSeenLaws.NumbersDiffer | plugin/src/tier0.rs:113-118 | No two blocks ever share a number |
| FirstSeenLaws.FirstRunsDrawOnce | plugin/src/tier0.rs:94-118 | Per block, its first runs over all vCPUs are the numbers drawn for it plus the callbacks about to draw one |
| FirstSeenLaws.NumberedIffFirstRun | plugin/src/tier0.rs:94-118 | Once no callback is under way, a block has a number if and only if it has had a first run |
| FirstSeenLaws.NumbersFollowEntries | plugin/src/tier0.rs:94-118 | For any number of vCPUs, once no callback is under way: blocks are numbered 1, 2, 3, ... in the order of their first entries, and no other number was drawn, if and only if numbers were drawn in that order, once for each block |
| FirstSeenLaws.OneVcpuDrawsInOrder | plugin/src/tier0.rs:55-105 | On one vCPU that is so if and only if no block is retranslated before it first runs |
| FirstSeenLaws.NumberIsLastFirstRun | plugin/src/tier0.rs:94-118 | On one vCPU, in every reachable state, a block's number is the position of its last first run whose callback is over |
| FirstSeenLaws.FirstRunsAreFirstEntries | plugin/src/tier0.rs:55-105 | On one vCPU, numbered first runs are the first entries if and only if no block is retranslated before its first run |
| FirstSeenLaws.FirstSeenOrder | plugin/src/tier0.rs:94-118 | On one vCPU, under that condition, blocks get 1, 2, 3, ... in order of first entry, the latest once its callback is over, and unentered blocks keep 0 |
| Counterexamples.SecondVcpuRenumbers | plugin/src/tier0.rs:97-118 | A run of two vCPUs after which the block entered first has the larger number |
| Counterexamples.EarlierNumberWins | plugin/src/tier0.rs:113-118 | A run of two vCPUs racing for one block after which it keeps the number drawn earlier |
| Counterexamples.EarlyRetranslationLosesNumber | plugin/src/tier0.rs:55-67 | A run after which an executed block has number 0 |
| FallThroughs.ComputeFallThroughs | plugin/src/tier1.rs:113-160 | Emits exactly one record for each block with a predecessor and a positive saturated difference, with that count, all records into one address from the same predecessor's end |
| FallThroughLaws.FallThroughsAreExact | plugin/src/tier1.rs:139-157 | Exact branch counts, one block at an address with a predecessor: emitted count is true fall-throughs plus unattributed entries, and the subtraction never saturates |
| FallThroughLaws.FallThroughExcess | plugin/src/tier1.rs:139-157 | If blocks run to completion and none ends at 0, the emitted count is never below the truth and above it by at most one per vCPU |
| FallThroughLaws.PrunedFallThroughsNeverUnderReport | plugin/src/tier1.rs:146-157 | With pruning and one block at the address the derived count never under-reports |
| FallThroughLaws.PrunedFallThroughsExactly | plugin/src/tier1.rs:146-157 | With pruning, one block at the address and a predecessor, the count exceeds fall-throughs plus unattributed entries by exactly the branch entries lost to pruning, at most all that is lost |
| TopNEndToEnd.LostIntoBound | plugin/src/edge_storage.rs:93-111 | With m distinct edges into an address among T taken branches, what pruning loses there, and so the excess of its fall-through count, satisfies 4N^2 lost <= m T^2 |
| FallThroughLaws.SharedStartsNeverOverReport | plugin/src/tier1.rs:146-157 | Several blocks at one start: the emitted counts sum to at most fall-throughs plus unattributed entries, with the exact condition for equality |
| Counterexamples.SharedStartUnderReports | plugin/src/tier1.rs:139-157 | A run with two blocks at one start whose one fall-through is missing from every dump |
| Counterexamples.InitialEntryIsReported | plugin/src/tier1.rs:139-157 | A run without any fall-through in which every dump reports one, the vCPU's initial entry |
| Counterexamples.PruningLosesABranch | plugin/src/edge_storage.rs:98-111 | A run of four entries with N = 1 after which some edge counts less than its taken branches |
| DirectCallIndex.PartitionPoint | plugin/src/lib.rs:347-347 | Splits the sorted index into the blocks starting at or before the callsite and those after it |
| DirectCallIndex.CallCount | plugin/src/lib.rs:345-358 | Answers with the count of a block with the last start at or before the callsite if it covers the callsite, else 0 |
| DirectCallIndex.LookupRefinesScan | plugin/src/lib.rs:332-360 | For disjoint blocks the answer is the count of the one covering block, 0 if there is none |
| DirectCallIndex.NonzeroAnswerIsCovering | plugin/src/lib.rs:348-354 | In any case a nonzero answer is the count of a block over the callsite |
| DirectCallLaws.AnswerAtMostTruth | plugin/src/lib.rs:345-358 | Whatever blocks overlap, an answer is at most the executions of all blocks over the callsite |
| DirectCallLaws.AnswersExact | plugin/src/lib.rs:341-358 | All possible answers are the true count if and only if no executed block lies over the callsite, or only one does, starting last and sharing its start with none |
| DirectCallLaws.ExactForDifferentStarts | plugin/src/lib.rs:345-358 | With different starts an answer is the true count if and only if every executed block over the callsite has the last start at or before it |
| Counterexamples.NestedBlockHidesCall | plugin/src/lib.rs:345-358 | A run of AArch64 blocks, classified from their bytes, in which an executed BL is answered 0 for every order of the index |
| ProfileWriter.Writer.constructor | plugin/src/output.rs:85-135 | The file holds exactly the 64-byte header and the totals are zero |
| ProfileWriter.Writer.WriteTlvHeader | plugin/src/output.rs:141-157 | Appends tag and 24-bit length, or fails and writes nothing when the length does not fit |
| ProfileWriter.Writer.WriteStringMeta | plugin/src/output.rs:160-172 | Appends one record with the strings cut to 255 and 65535 bytes, and always succeeds |
| ProfileWriter.Writer.WriteTbExecBatch | plugin/src/output.rs:201-223 | Appends the records of the batch in chunks that fit 24 bits, and adds to the block and execution totals |
| ProfileWriter.Writer.WriteBranchEdgeBatch | plugin/src/output.rs:231-249 | Appends the chunked records and adds to the edge total, and never fails for size |
| ProfileWriter.Writer.WriteFallThroughBatch | plugin/src/output.rs:252-267 | The same for fall-throughs |
| ProfileWriter.Writer.WriteDirectCallBatch | plugin/src/output.rs:283-297 | The same for direct calls, without touching the totals |
| ProfileWriter.Writer.WriteIndirectCallBatch | plugin/src/output.rs:300-314 | The same for indirect calls, without touching the totals |
| ProfileWriter.Writer.WriteTheFooter | plugin/src/output.rs:363-380 | Appends the running totals, the wall time and the clean-exit flag |
| NativeParser.Parse | convert/src/native.rs:157-255 | Fails exactly on the bad headers, with the first failing field; otherwise returns the profile of the complete records with branch and fall-through lists merged |
| LogLayout.AcceptedHeaders | convert/src/native.rs:161-218 | A header is good if and only if it has 64 bytes, starts with QEMU_PGO, has version 1 and pointer size 4 or 8 |
| LogLayout.RefusedHeaders | convert/src/native.rs:161-218 | Which of the defects a bad header is refused for |
| LogLayout.HeaderBytes | plugin/src/output.rs:106-126 | The bytes at which the written header has each field |
| LogLayout.RecordTags | plugin/src/output.rs:32-60 | The tag byte of the records of every kind of writer call |
| LogLayout.RecordsAreFull | plugin/src/output.rs:226-240 | All records of a branch batch but the last hold 699050 edges, the most whose length fits 24 bits |
| NativeParser.ParseNextRecord | convert/src/native.rs:221-247 | Handles one record or stops at end of file or a truncated record |
| NativeParser.ParseEdgeBatch | convert/src/native.rs:334-356 | Reads as many entries as announced, but no more than fit |
| NativeParser.Profile.ParseTbExecBatch | convert/src/native.rs:307-332 | Appends as many block entries as announced, but no more than fit |
| NativeParser.Profile.MergedEdges | convert/src/native.rs:109-118 | Every pair's total over branches and fall-throughs, modulo 2^64 |
| NativeParser.MergeEdges | convert/src/native.rs:258-273 | Leaves a list without duplicates as it is; otherwise one record per pair with the pair's total modulo 2^64 |
| LogRoundTrip.RoundTrip | convert/src/native.rs:157-247 | Parsing what any valid sequence of writer calls wrote gives the header and, before merging, exactly what the calls mean, chunked batches rejoined, markers and device records skipped, strings cut to their fields and decoded |
| LogRoundTrip.TextRoundTrip | convert/src/native.rs:283-289 | A valid text comes back as written if and only if it fits its field or is cut between characters |
| LogRoundTrip.CutCharacterComesBackAltered | convert/src/native.rs:283-289 | A valid text of 65536 bytes whose written part comes back altered |
| Utf8.LossyIsIdentity | convert/src/native.rs:283-289 | Lossy decoding changes nothing if and only if the bytes are valid UTF-8 |
| Utf8.CutIsValid | plugin/src/output.rs:163-171 | What is left of a cut valid text is valid if and only if the cut is at a character boundary |
| Utf8.CharIsEncoded | convert/src/native.rs:283-289 | What the decoder takes for a character is the UTF-8 form of a Unicode scalar value |
| Utf8.EncodedIsChar | convert/src/native.rs:283-289 | And the UTF-8 form of every scalar value is taken for one character, whatever follows it |
| Utf8.InvalidIsReplaced | convert/src/native.rs:283-289 | Where no character starts, the longest beginning of one, or else one byte, becomes one U+FFFD |
| LogRoundTrip.ParsedLog | convert/src/native.rs:157-255 | The same for the final profile: all lists in order, edge lists merged |
| LogLaws.MergeKeepsTotals | convert/src/native.rs:258-273 | Merging yields distinct pairs and keeps each pair's total modulo 2^64 and the set of pairs |
| LogLaws.CutFrames | convert/src/native.rs:221-232 | A cut anywhere leaves exactly the records wholly before it |
| LogLaws.CutFileParses | convert/src/native.rs:220-254 | A log cut at 64 bytes or later still parses, to the profile of the records wholly before the cut |
| LogLaws.CutListsArePrefixes | convert/src/native.rs:220-254 | Unmerged lists of the cut log are prefixes of the whole log's |
| LogLaws.CutCountsAreNoLarger | convert/src/native.rs:249-252 | Merged edge counts of the cut log are pointwise no larger |
| LogLaws.CutFooterNeedsWholeRecord | convert/src/native.rs:220-247 | A footer is found only if a whole footer record lies before the cut |
| LogLaws.FooterConserved | plugin/src/output.rs:363-380 | After any writer run the parsed footer's totals are the parsed blocks, the edge records before merging and the sum of execution counts, modulo 2^64 |
| Plugin.PluginState.constructor | plugin/src/lib.rs:185-201 | A fresh plugin stands for the empty run; its header has version 1, 8-byte pointers, the two flags and the addresses it was given, and its log holds only the three metadata records |
| Plugin.PluginState.TranslateTb | plugin/src/lib.rs:209-226 | Instrumenting a decoded block, tier by tier, is the machine's translation step, and keeps the call table equal to the direct branches of all blocks translated |
| Plugin.PluginState.EnterTb | plugin/src/tier1.rs:76-101 | Entering a block is the machine's entry step: counted, the branch recorded and paired with a pending callsite, a full accumulator drained, a first-seen callback begun |
| Plugin.PluginState.TakeNumber | plugin/src/tier0.rs:116-116 | Drawing a number is the machine's step; other vCPUs may act before it is stored |
| Plugin.PluginState.StoreNumber | plugin/src/tier0.rs:117-117 | Storing it is another |
| Plugin.PluginState.ReachInsn | plugin/src/tier1.rs:50-69 | Reaching an instruction is the machine's step with its inline stores |
| Plugin.PluginState.CountFlush | plugin/src/state.rs:370-375 | The first locked section of a flush adds the batch to the per-target entries |
| Plugin.PluginState.WriteFlush | plugin/src/state.rs:378-386 | The second writes the batch and a marker; other vCPUs may act in between |
| Plugin.PluginState.DrainAll | plugin/src/lib.rs:289-296 | All accumulators' edges, one batch per vCPU, leaving the accumulators empty |
| Plugin.PluginState.MakeDump | plugin/src/lib.rs:265-381 | The lists written at exit are a dump of the machine state: blocks with summed counters, merged edges, derived fall-throughs, direct and indirect calls |
| Plugin.PluginState.PluginExit | plugin/src/lib.rs:249-416 | At every tier, whatever parses the finished file gets the profile of a complete run of this plugin's trace |
| EndToEnd.ParsedDump | convert/src/native.rs:157-255 | At every tier the parsed profile has the lists its tier dumps, with flushed and residual edges merged, and a clean footer |
| EndToEnd.BranchEdgesEndToEnd | plugin/src/lib.rs:288-305 | In the parsed profile every pair occurs once and counts at most, and in streaming mode exactly, the guest's taken branches, for every number of vCPUs, interleaving and threshold |
| TopNEndToEnd.ExactEndToEnd | plugin/src/lib.rs:288-305 | All parsed branch counts are true if and only if the run streams or no vCPU takes more than 2N distinct edges |
| EndToEnd.FallThroughsEndToEnd | plugin/src/lib.rs:312-316 | Parsed fall-through counts into an address lie between the truth and the truth plus one per vCPU |
| EndToEnd.PrunedFallThroughsEndToEnd | plugin/src/lib.rs:312-316 | With pruning a parsed count exceeds fall-throughs plus unattributed entries by exactly the branch entries lost there |
| EndToEnd.FallThroughPairsEndToEnd | plugin/src/tier1.rs:131-155 | When all blocks that fall through to an address end at one place, profile and trace count as many along that (from, to) pair as into the address |
| EndToEnd.BlocksListed | plugin/src/lib.rs:265-283 | At every tier the parsed profile has exactly one record for each translated block, and no other |
| EndToEnd.TranslatedBlocksListed | plugin/src/lib.rs:265-283 | Every record has the first address, last address and 16-bit instruction count of a translated block, and every translated block has such a record |
| EndToEnd.BlocksEndToEnd | plugin/src/lib.rs:265-283 | Each record has its block's end address and its true number of entries |
| EndToEnd.IndirectCallsEndToEnd | plugin/src/lib.rs:365-381 | Parsed indirect calls list each pair once, with its true number of occurrences |
| IndirectCode.IndirectCodeIsProfiled | plugin/src/tier2.rs:59-68 | From bytes to profile: an instruction whose bytes are an indirect branch, reached and followed by a branch entry of its vCPU, is in the parsed indirect calls with the address it went to |
| IndirectCode.JalrIsProfiled | plugin/src/decoder.rs:211-214 | In particular any RISC-V JALR, returns included |
| IndirectCode.RegisterBranchIsProfiled | plugin/src/decoder.rs:161-172 | And any AArch64 BLR, BR or RET |
| EndToEnd.DirectCallsListed | plugin/src/lib.rs:343-363 | The parsed direct calls are exactly the direct branches and calls of the translated blocks, each once |
| EndToEnd.DirectCallsEndToEnd | plugin/src/lib.rs:332-363 | Whatever blocks overlap, a parsed direct call counts at most the entries of blocks over its callsite, exactly so if the callsite is not shadowed, and for different starts only then |
| Decoding.DirectInsnListed | plugin/src/tier2.rs:45-58 | An instruction of a translated block whose bytes are a direct branch is a known direct call with that target |
| Decoding.KnownExactly | plugin/src/tier2.rs:54-58 | The known direct calls are exactly the instructions of translated blocks that are classified as direct, with their targets |
| Pipeline.DirectCodeIsProfiled | plugin/src/tier2.rs:45-58 | From bytes to profile: a direct branch in the code of a translated block is in the parsed profile exactly once |
| Pipeline.JalIsProfiled | plugin/src/tier2.rs:54-58 | A translated RISC-V JAL is in the parsed profile with its address and the address pc plus offset modulo 2^64, whatever the sign of the offset |
| Pipeline.BranchIsProfiled | plugin/src/tier2.rs:54-58 | The same for AArch64 B and BL |
| Pipeline.ExitAndParse | convert/src/native.rs:157-255 | At every tier, ending a run and parsing its file succeeds with the profile of a complete run of decoded blocks; from tier 1 on every edge counts at most, and in streaming mode exactly, its taken branches |
| Pipeline.ParsedDescription | plugin/src/lib.rs:185-199 | The parsed header is the one the plugin was created with, and the parsed metadata what its first three records said |
| Pipeline.MetadataOfRun | plugin/src/lib.rs:196-199 | The metadata gives the binary path, the architecture and the mode, `sysemu` or `linux-user`, each text as far as its field holds it |
| TopNEndToEnd.BoundedModeEndToEnd | plugin/src/lib.rs:289-305 | In bounded mode the parsed profile's loss L of any edge satisfies 4N^2 L <= (T-L)^2 for the T branches taken on all vCPUs together |
| VcpuStore.AlwaysSafe | plugin/src/state.rs:47-54 | In every state of every schedule claimed slots are distinct, in range and unpublished |
| VcpuStore.GrowthIsBounded | plugin/src/state.rs:330-340 | `len` plus callers past the check is at most M+K-1 for K callers asking for at most M |
| VcpuStore.NeverPanics | plugin/src/state.rs:47-54 | The index assertion cannot fail if M+K-1 <= 256 |
| VcpuStore.SafeCapacity | plugin/src/state.rs:47-54 | With K callers asking for M each, no schedule fails the assertion if and only if M+K-1 <= 256 |
| VcpuStore.PublishedSlotsStay | plugin/src/state.rs:47-54 | A published slot never changes, whatever runs afterwards |
| VcpuStore.PushIsFound | plugin/src/state.rs:47-76 | What a caller pushes is what `get_mut` finds at its index, after any further steps of all callers |
| VcpuStore.AllPublishedAtTheEnd | plugin/src/state.rs:66-76 | When all callers are done every index below `len` is non-null and every request is met |
| VcpuStore.ReturnedSlots | plugin/src/state.rs:66-76 | After a caller returns, a slot it asked for is null if and only if another caller has claimed and not yet stored it |
| VcpuStore.ReturnsBeforePublished | plugin/src/state.rs:333-340 | A schedule in which a caller returns while the slot it asked for is still null |
| Decoding.CollectDirects | plugin/src/tier2.rs:45-78 | Classifying a block's instructions one by one collects exactly its direct branches and calls |
| Decoder.ScanX86 | plugin/src/decoder.rs:274-322 | Finds the opcode behind any run of prefixes |
| IndirectRoundTrip.JalrRoundTrip | plugin/src/decoder.rs:211-214 | RISC-V JALR of every register and immediate is indirect |
| IndirectRoundTrip.CjrRoundTrip | plugin/src/decoder.rs:231-238 | C.JR and C.JALR of every register are indirect |
| IndirectRoundTrip.RegisterBranchRoundTrip | plugin/src/decoder.rs:161-172 | AArch64 BLR, BR and RET of every register are indirect |
| IndirectRoundTrip.HexRegisterRoundTrip | plugin/src/decoder.rs:75-96 | Hexagon callr and jumpr of every register are indirect under every non-duplex parse-bit value |
| IndirectRoundTrip.X86IndirectRoundTrip | plugin/src/decoder.rs:312-319 | CALL r/m and JMP r/m after any prefixes are indirect, whatever the operand |
| DecoderConverse.DirectIsB | plugin/src/decoder.rs:148-160 | An AArch64 word classified as direct is the encoding of a B or BL |
| DecoderConverse.IndirectIsRegisterBranch | plugin/src/decoder.rs:161-172 | One classified as indirect is a BLR, BR or RET |
| DecoderConverse.DirectIsJal | plugin/src/decoder.rs:203-210 | A 32-bit RISC-V word classified as direct is the encoding of a JAL |
| DecoderConverse.IndirectIsJalr | plugin/src/decoder.rs:211-214 | One classified as indirect is a JALR, but for the three function bits |
| DecoderConverse.DirectIsCj | plugin/src/decoder.rs:218-230 | A 16-bit word classified as direct is the encoding of a C.J or C.JAL |
| DecoderConverse.IndirectIsCjr | plugin/src/decoder.rs:231-238 | One classified as indirect is a C.JR or C.JALR, register 0 included |
| DecoderConverse.DirectIsHexBranch | plugin/src/decoder.rs:75-116 | A Hexagon word classified as direct is the encoding of a call, jump or conditional call and not a duplex |
| DecoderConverse.DirectIsRelative | plugin/src/decoder.rs:274-311 | x86 bytes classified as direct are a complete CALL rel32, JMP rel32 or JMP rel8 after prefixes |
| DecoderConverse.IndirectIsGroupFive | plugin/src/decoder.rs:312-319 | x86 bytes classified as indirect are FF /2 or FF /4 after prefixes |
| DecoderConverse.BranchWord | plugin/src/decoder.rs:48-68 | Code classified as a branch holds all bytes of the word that is looked at, and the architecture is a known one |
| BranchRoundTrip.TargetIsSum | plugin/src/decoder.rs:252-252 | Adding an offset to the pc as signed 64-bit words is adding its two's complement modulo 2^64 |
| BranchRoundTrip.JalRoundTrip | plugin/src/decoder.rs:244-253 | RISC-V JAL to every even signed 21-bit offset, forward or backward, from every pc, is direct to (pc + offset) mod 2^64, the offset in two's complement |
| BranchRoundTrip.CjRoundTrip | plugin/src/decoder.rs:257-270 | The same for C.J and C.JAL and every even 12-bit offset |
| BranchRoundTrip.BRoundTrip | plugin/src/decoder.rs:148-182 | The same for AArch64 B and BL and every word-aligned 28-bit offset |
| BranchRoundTrip.HexR22RoundTrip | plugin/src/decoder.rs:121-130 | The same for Hexagon call and jump, every word-aligned 24-bit offset and every non-duplex parse-bit value |
| BranchRoundTrip.HexR15RoundTrip | plugin/src/decoder.rs:135-144 | The same for Hexagon conditional calls and 17-bit offsets, whatever the bits around the immediate |
| BranchRoundTrip.DuplexIsOther | plugin/src/decoder.rs:75-86 | A Hexagon duplex word is never taken for a branch |
| BranchRoundTrip.X86Rel32RoundTrip | plugin/src/decoder.rs:292-304 | CALL and JMP rel32 after any legacy or REX prefixes are direct to the next pc plus the offset modulo 2^64 |
| BranchRoundTrip.X86Rel8RoundTrip | plugin/src/decoder.rs:306-311 | The same for JMP rel8 |
| ElfIndex.CollectSymbols | convert/src/elf_index.rs:34-72 | The fold over duplicate addresses keeps, per address, the first maximum of (has a size, name length) |
| ElfIndex.TableIsDetermined | convert/src/elf_index.rs:50-71 | That description fixes the table uniquely |
| ElfIndex.InferSizes | convert/src/elf_index.rs:74-90 | Fills in missing sizes only: the gap to the next symbol capped at 64 KiB, 4 KiB for the last symbol |
| ElfIndex.InferredStopsAtNext | convert/src/elf_index.rs:80-88 | An inferred size is positive and never reaches past a later symbol |
| ElfIndex.FoundContains | convert/src/elf_index.rs:158-165 | The lookup never returns a symbol that does not contain the address |
| ElfIndex.NamedByContaining | convert/src/elf_index.rs:167-173 | An address is named only by a symbol containing it, and is `[unknown]` if none does |
| ElfIndex.FoundExactlyIf | convert/src/elf_index.rs:158-165 | A containing symbol is returned if and only if none starts in between and its end fits 64 bits |
| ElfIndex.LookupRefinesScan | convert/src/elf_index.rs:158-165 | The index agrees with a linear scan on every address if and only if no symbol reaches past the next or past 2^64 - 1 |
| ElfIndex.ContainingGivesName | convert/src/elf_index.rs:167-173 | Under that condition every address is named by the symbol a scan finds |
| ElfIndex.NestedSymbolHidesOuter | convert/src/elf_index.rs:158-165 | Two raw symbols, one nested in the other, and an address that the scan of any index built from them finds in the outer symbol and the lookup does not |
| ElfIndex.FromSymbols | convert/src/elf_index.rs:29-90 | The index is the first-best table of the raw symbols with the missing sizes filled in |
| ElfIndex.IndexRefinesScan | convert/src/elf_index.rs:74-90 | For the index built from raw symbols the condition is on the kept symbols as declared: disjoint ranges with ends below 2^64, counting 4 KiB for a last symbol without a size |
| Temporal.GroupByFunction | convert/src/temporal.rs:32-46 | Maps every known function with an executed, numbered block to the least such number, and no other name |
| Temporal.FunctionOrder | convert/src/temporal.rs:48-50 | Every such function once, in the order of these numbers |
| Temporal.ListedFunctionRan | convert/src/temporal.rs:32-46 | Whatever the index, a listed function has an executed block with the listed number that starts inside a symbol of that name |
| Temporal.ListedByScan | convert/src/temporal.rs:32-50 | If the index agrees with the scan, exactly those functions are listed, each with the least such number |
| Temporal.RunFunctionIsListed | convert/src/temporal.rs:32-46 | If the index agrees with the scan, every executed, numbered block puts its symbol's name on the list |
| Temporal.OrderIsDetermined | convert/src/temporal.rs:48-50 | The list is the same for every hash order if and only if no two functions share a first number |
| Temporal.Emit | convert/src/temporal.rs:52-72 | The file's fixed lines, announcing no trace without functions and otherwise one, whose comma-terminated fields are the sanitised names in order |
| Temporal.OnlyCommasChange | convert/src/temporal.rs:66-70 | Sanitising keeps the length and every byte but commas, which become underscores |
| Temporal.FieldsOfJoined | convert/src/temporal.rs:66-71 | Comma-free names joined into a line and split again are the same names |
| StartupOrder.FunctionListIsDetermined | convert/src/temporal.rs:48-50 | For every log of this plugin, any vCPUs and retranslations, first numbers are distinct and the function list is the same for every hash order |
| StartupOrder.FunctionsInExecutionOrder | convert/src/temporal.rs:32-50 | From guest to linker, at every tier and for any number of vCPUs: if numbers were drawn in the order of first entries, the functions listed from the parsed log are the known functions entered, in the order of their first entries |
| StartupOrder.SymbolsInExecutionOrder | convert/src/temporal.rs:32-50 | If the index agrees with the scan, they are the symbols a scan finds at the starts of the blocks entered, in the order of first entries |
| StartupOrder.OneVcpuExecutionOrder | convert/src/temporal.rs:32-50 | In particular on one vCPU without retranslation before first runs |

## Left out

- QEMU itself (plugin/src/ffi.rs): scoreboards are per-vCPU fields, callbacks are methods.
- Files, buffering and clocks: a log is a byte sequence; I/O errors do not occur.
- Tier 3 (resources, device accesses, discontinuities): only their log records are modelled, writer and parser.
- Symbol interning and the symbol records written at exit (plugin/src/lib.rs:257-263): their encoding is covered by the round trip, not when they are written. Their `sym_id` in a block's metadata is not modelled.
- `ensure_vcpu_state` inside the run: `Plugin` starts with all slots; growth is modelled in `VcpuStore`, one store at a time.
- The writer's lazy creation on the first translation (plugin/src/lib.rs:142-206): the writer exists from the start.
- BOLT, AutoFDO, GCC AutoFDO and call-graph emitters, argument parsing: formatting and simple sums.
- ELF reading (headers, string tables, build id, load address): the symbol index starts from a list of symbol entries.
- Debug builds: the source's `+` panics on overflow there; the model wraps as a release build does.
- DecoderConverse.IndirectIsJalr: the function bits of a JALR are not looked at, as in the source, so reserved encodings pass.
- DecoderConverse.IndirectIsCjr: register 0 is not excluded, as in the source, so C.EBREAK (0x9002) passes for a C.JALR.
- Hexagon's indirect class is the source's whole subclass 010100 of bits 31 to 26 (`DecoderConverse.IndirectIsHexRegister`); its 15 variants are not told apart.
- EdgeStorage.EdgeAccumulator.Record: the enum of two storage structs is one class with a mode flag.
- ProfileWriter.Writer.WriteBranchEdgeBatch: the four batch writers of 24-byte entries share one loop, which the source repeats.
- Plugin.PluginState.MakeDump: all lists are computed before the first is written, where the source alternates; nothing else changes in between.
- Plugin.PluginState.EnterTb: what concerns only the vCPU itself, its branch record included, is done at once, before its first-seen callback draws a number; no other vCPU can tell the difference.
