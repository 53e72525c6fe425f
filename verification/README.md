# Verified model of the neural inference pipeline, the granular delay and the compressor

The plugin processes audio in three stages that are hard to get right by testing. This project models them in
Dafny and proves what they promise, for every input, every run and every reachable state.

**The inference pipeline** (`source/dsp/onnx`). The host hands the audio thread a block. The thread pushes the block
into an input ring; when 16384 samples wait and the inference thread is idle, it hands them over. The inference
thread pushes 16384 results, sample by sample, into an output ring, from which the audio thread answers. A block that
finds too few results is silent and counted, and later blocks are thrown away one by one until the count is back to
zero.

- `Samples`, `Rings`: samples with a not-a-number value; the ring as an object and its exact meaning on values,
  overflow and underflow included.
- `SpscRing`: one producer and one consumer at the level of single memory accesses, under all interleavings;
  `RingRefinement` connects it with the atomic ring of the protocol.
- `Protocol`: both threads and the reload as a transition system. `Config` keeps the chunk length M, the allowance K and
  the ring capacity as parameters and makes the model any length-preserving function of the chunk and the inference
  number, so a session that fails and leaves an old tensor behind is covered.
- `TwoThreads`: both threads at the level of single accesses to the output ring, and the proof that the protocol is what they do.
- `Invariant`: the invariant of that system for block sizes that may vary: conservation, and the delay of every block.
- `Laps`: the same for every run, drained counts and an overrun output ring included, up to whole turns of the ring.
- `ConstantBlocks`, `Recovery`, `Deadline`, `Lateness`, `Reload`: what follows for a constant block size, how misses are repaid, how
  long the model may take, and when a reload brings the system back.
- `Latency`: the reported latency through its single-precision arithmetic.
- `OnnxObjects`: the two classes of the program; each method is proved equal to the function of `Protocol` it implements.

**The granular delay** (`modules/RnboExport`). `Bits` and `DelayLines` (power-of-two rounding, masks, a circular delay line
against an unbounded history), `ListBases` (the growable list and its in-place splice), `PairedQuickSort` (the start-up
order), `Transport` (the tempo timeline), `Grains` (launch counter, slot table, life of a grain), `Xoshiro` (the noise
generator).

**The compressor** (`source/dsp/compressor`, `source/dsp/utils`). `Envelopes` (the follower, block by block), `Numbers`
(floating-point special values) and `Compressors` (the gain curve, the gain stage and the two rolling windows).

`Arithmetic` holds a few shared facts. Run `dafny verify dfyconfig.toml` to check everything.

## What the proofs found

- The write position may equal the capacity for a moment. That moment is not harmless: when the consumer has just
  drained the ring, the next count is the capacity although nothing is unread (`SpscRing.DrainedCountHappens`). A count
  is safe if and only if the state is not drained (`SpscRing.CountLaw`). The other transient, two reads of the position on
  both sides of a wrap, only makes the count negative, so the block is treated as a miss.
- What a drained count does: the block is not counted as missed but plays what was heard one turn of the ring before
  (`Laps.DrainedAnswer`). The delay stays right and the rings claim a whole capacity too much until the writer has caught up
  (`Laps.ConservedUpToTurns`, `Laps.InvIff`). It needs an inference that is late (`Deadline.DeadlineIsTight`).
- The delay after a miss is repaid in samples only when the block thrown away is as long as the one missed
  (`Invariant.RepayRestoresDelay`); the counter counts blocks.
- When the ring capacity (the sample rate) does not exceed 16384 the model never runs and the plugin stays silent
  (`Recovery.SmallRingIsSilentForever`); one sample more and it can start.
- A torn count silences a block even when the model is on time (`Deadline.TornAnswerHappens`): all results of the inference
  that passes the end of the ring's memory come between the two reads. Lateness and torn counts are the only causes of a
  miss (`Deadline.DeadlineIsExact`, `Lateness.ExactForEveryThread`).
- A reload leaves the signal late for good if and only if the host delivers M + K samples or more between the preparation of
  the input side and the cleared counter (`Reload.ReloadRestoresTheLatency`, `Reload.ReloadIsLateForGood`).
- `splice` with a start beyond the list does not do what its documentation (`RNBO_List.h:295-296`) says: lines 332-345 use the
  start that was given, not the clamped one. The model follows the code; `ListBases.SpliceIsAsDocumentedIff` gives the exact
  condition.
- A delay-line read is the interpolated history exactly up to a delay of one less than the buffer
  (`DelayLines.ReadIsHistoryIff`). At 44.1 or 48 kHz the requested size is not a power of two, and the clamp to it keeps
  every read within the bound.
- Stopping the transport reads the beat after the running state is cleared, so the beat jumps back to that of the last change,
  and starting counts the pause (`Transport.StopIsContinuousIff`, `Transport.StartCountsThePause`); these jumps are the only
  errors of the beat over any run (`Transport.BeatOverAnyRun`).
- Reading the grain table returns 0 for every slot but the first, so only slot 0 is ever heard; its position comes from the
  launch in slot 99, because the position is written after the cursor has moved. So with constant parameters one grain in
  a hundred is heard, or fewer if it lasts longer (`Grains.HeardPeriodically`).
- The compressor's control voltage is not a number for exactly two families of inputs (`Compressors.SpoiledIff`): it divides
  zero by zero, or multiplies zero by infinity. With an attack time the envelope recovers from a bad sample at once; with
  attack time zero it never does.

## Model

| member | source | states |
|---|---|---|
| `Rings.PushMeaning` | source/dsp/onnx/RingBuffer.cpp:29-41 | a push appends the sample, NaN as 0; with one free slot left it empties the ring |
| `Rings.PushAllFits` | source/dsp/onnx/RingBuffer.cpp:29-41 | pushing any run that fits appends it in order |
| `Rings.PopManyMeaning` | source/dsp/onnx/RingBuffer.cpp:43-56 | popping returns the oldest unread samples in push order and leaves the rest |
| `Rings.PushPopRoundTrip` | source/dsp/onnx/RingBuffer.cpp:29-56 | what goes into an empty ring comes out the same and in order, not-a-number values as 0, and the ring is empty again |
| `Rings.RingBuffer.PushSample` | source/dsp/onnx/RingBuffer.cpp:29-41 | the object's new value is the pushed ring, in every state, overflow included |
| `Rings.RingBuffer.PopSample` | source/dsp/onnx/RingBuffer.cpp:43-56 | result and new value are those of the popped ring, underflow included |
| `Rings.RingBuffer.GetAvailableSamples` | source/dsp/onnx/RingBuffer.cpp:58-76 | both branches of the count give the number of unread samples |
| `Rings.RingBuffer.Initialise` | source/dsp/onnx/RingBuffer.cpp:9-19 | an empty ring of the given capacity with arbitrary memory |
| `Rings.RingBuffer.Reset` | source/dsp/onnx/RingBuffer.cpp:21-27 | an empty ring full of zeros |
| `SpscRing.PopsInPushOrder` | source/dsp/onnx/RingBuffer.cpp:29-76 | under every interleaving that completes no count in a drained state, what is popped is a prefix of what was pushed, and counted samples are fully written |
| `SpscRing.CountLaw` | source/dsp/onnx/RingBuffer.cpp:58-76 | the exact value of a two-read count: unread samples, short by the capacity if torn, long by it if drained; safe iff not drained |
| `SpscRing.TornCountHappens` | source/dsp/onnx/RingBuffer.cpp:36-40 | at every capacity of at least 2 a run reaches a count that is negative while samples are unread |
| `SpscRing.DrainedCountHappens` | source/dsp/onnx/RingBuffer.cpp:36-40 | at every capacity N of at least 2 a run reaches a count of N while nothing is unread |
| `RingRefinement.RunRefines` | source/dsp/onnx/RingBuffer.cpp:29-76 | every interleaved run without a drained count is a run of atomic pushes and pops on one ring, slot for slot |
| `RingRefinement.RunRefinesFromStart` | source/dsp/onnx/RingBuffer.cpp:9-76 | so is every such run from an initialised ring, whatever its memory holds |
| `RingRefinement.AnswerIsAtomic` | source/dsp/onnx/OnnxProcessor.cpp:61-84 | an answer whose pops interleave with pushes counts what the protocol's answer sees, torn or not, hands back the protocol's block, and leaves the protocol's output ring followed by those pushes |
| `RingRefinement.DrainedMeetsEmptyRing` | source/dsp/onnx/RingBuffer.cpp:36-40 | a drained state can only meet an empty output ring |
| `TwoThreads.ProgramRefinesProtocol` | source/dsp/onnx/OnnxProcessor.cpp:55-84 | from the prepared state, every run of both threads at the level of single accesses to the output ring, if no count is completed in a drained state, is a run of the protocol: it hands the host what that run emits and leaves its counter, gate and input ring |
| `TwoThreads.RunSimulates` | source/dsp/onnx/OnnxProcessor.cpp:55-84 | so does every such run from any pair of related states, event for event |
| `TwoThreads.InitialIsRelated` | source/dsp/onnx/OnnxProcessor.cpp:43-53 | the prepared program and the prepared protocol are related |
| `TwoThreads.TornMayTear` | source/dsp/onnx/RingBuffer.cpp:36-40 | whenever the program's count is torn the protocol's torn answer is enabled: the running inference has gone past the end of the memory since the block arrived |
| `TwoThreads.DrainedIsEnabled` | source/dsp/onnx/RingBuffer.cpp:36-40 | whenever it is drained the protocol's drained answer is enabled and sees the same count |
| `TwoThreads.ProducerIsNeverBlocked` | source/dsp/onnx/OnnxProcessor.cpp:9-14 | while blocks find room there is always a slot for the next result |
| `Protocol.RunAppend` | source/dsp/onnx/OnnxProcessor.cpp:55-59 | runs of the protocol compose |
| `Protocol.AnswerRule` | source/dsp/onnx/OnnxProcessor.cpp:61-84 | for every count that can be read and any number of counted misses: dry while the gate is closed; else silent and counted iff less than a block is counted, two blocks taken, the later one played and one miss paid back iff misses are counted and two blocks are there, otherwise one block played |
| `Invariant.StreamAt` | source/dsp/onnx/InferenceThread.cpp:75-90 | the reference signal: sample i of chunk j of the stream is the cleaned sample i of the model on input samples Mj to M(j+1) |
| `Invariant.StreamIsStable` | source/dsp/onnx/InferenceThread.cpp:33-40 | later input never changes the stream |
| `Invariant.SendPipe` | source/dsp/onnx/InferenceThread.cpp:26-42 | sending appends the block and hands over the oldest M samples iff the thread is idle, no model loads and M samples wait |
| `Invariant.OutputPipe` | source/dsp/onnx/OnnxProcessor.cpp:61-84 | what each of the four outcomes hands out, drops, counts and leaves, for any count that does not exceed what is unread, and for every count while the gate is closed |
| `Invariant.NextKeepsInv` | source/dsp/onnx/OnnxProcessor.cpp:55-84 | every event of either thread other than an answer behind the gate on a drained count keeps the invariant while blocks find room |
| `Invariant.RunKeepsInv` | source/dsp/onnx/OnnxProcessor.cpp:55-84 | so does every run of such events |
| `Invariant.InvFresh` | source/dsp/onnx/OnnxProcessor.cpp:43-53 | the state after `prepare` satisfies it, with the gate closed |
| `Invariant.GateOpensWithTheInput` | source/dsp/onnx/InferenceThread.cpp:28-41 | for blocks of any sizes the gate is open iff M + K samples have arrived |
| `Invariant.LoadEndKeepsInv` | source/dsp/onnx/InferenceThread.cpp:146 | lowering the loading flag keeps it |
| `Invariant.Conservation` | source/dsp/onnx/OnnxProcessor.cpp:61-84 | in every state reached by a run in which no answer behind the gate acts on a drained count, from a state that satisfies the invariant: input ring + in flight + output ring equals received less popped, stays below the capacity, and between blocks equals the delay, for varying block sizes |
| `Invariant.EndToEndDelay` | source/dsp/onnx/OnnxProcessor.cpp:55-84 | in every such state the next block, unless its own count is drained, is the dry input, or silent and counted, or the model's signal at exactly the current delay |
| `Invariant.RepayRestoresDelay` | source/dsp/onnx/OnnxProcessor.cpp:65-72 | repaying the last counted miss restores the start delay iff the dropped block is as long as the missed one |
| `Laps.LatestMeaning` | source/dsp/onnx/RingBuffer.cpp:29-41 | the index of the newest result in a slot: the only one of the last capacity results that lies whole turns away |
| `Laps.EveryAnswer` | source/dsp/onnx/OnnxProcessor.cpp:55-84 | in every run whose blocks fit into the input ring, drained counts and an overrun output ring included and with any of the three counts at any answer: the block is the dry input, or silent and counted, or each sample is the newest result in the slot of the promised delay, that is the signal at that delay up to whole turns of the ring |
| `Laps.ConservedUpToTurns` | source/dsp/onnx/OnnxProcessor.cpp:61-84 | in every such run input ring + in flight + output ring equals received less popped up to whole capacities, and exactly iff the reader is not past the writer and not a turn behind it |
| `Laps.InvIff` | source/dsp/onnx/RingBuffer.cpp:29-76 | once the reader is not past the writer and the unanswered samples fit, and only then, the invariant of `Invariant` holds, and with it every theorem there |
| `Laps.DrainedAnswer` | source/dsp/onnx/OnnxProcessor.cpp:61-84 | an answer behind the gate on a drained count plays samples that lie exactly one capacity earlier in the signal, as far as there are such, counts no miss, leaves the delay to the outcome as always, and from then on the rings claim one capacity more than there is |
| `Laps.AnyOrderOfOps` | source/dsp/onnx/RingBuffer.cpp:29-56 | however single pops fall between single pushes, overrun or drained, each popped sample is the newest result in its slot at some moment since the first |
| `Laps.CountIsOneOfThree` | source/dsp/onnx/RingBuffer.cpp:58-76 | whatever the two reads of the write position return, the count is the distance round the ring, or a capacity more or less |
| `Laps.LapFresh` | source/dsp/onnx/OnnxProcessor.cpp:43-53 | the state after `prepare` is one from which these results hold |
| `Laps.RoomyRunIsLapRun` | source/dsp/onnx/OnnxProcessor.cpp:55-84 | the runs of the theorems of `Invariant` are among them |
| `ConstantBlocks.GateMeaning` | source/dsp/onnx/InferenceThread.cpp:41 | the gate opens with the first block at which M + K samples have arrived |
| `ConstantBlocks.ConstFresh` | source/dsp/onnx/OnnxProcessor.cpp:43-53 | the state after `prepare` is one of the constant-block protocol, from which the results below hold |
| `ConstantBlocks.GateOpensAtTheLatency` | source/dsp/onnx/InferenceThread.cpp:28-41 | in every run without an answer behind the gate on a drained count, the gate is closed for exactly the blocks that start before the reported latency |
| `ConstantBlocks.SystemHoldsTheLatency` | source/dsp/onnx/OnnxProcessor.cpp:61-84 | in every such run, after every block behind the gate the system holds latency + n * counter samples; no overwrite while latency + n * (counter + 1) fits |
| `ConstantBlocks.DelayIsTheLatency` | source/dsp/onnx/OnnxProcessor.cpp:55-95 | in every such run every block from the latency on, unless its own count is drained, is silent and counted or the model's signal delayed by latency + n * counter; so by the reported latency when the counter is 0 |
| `Recovery.IdleSendIsQuiet` | source/dsp/onnx/InferenceThread.cpp:33-41 | a send that finds the thread idle and starts nothing leaves less than a chunk waiting |
| `Recovery.QuietBlockRepays` | source/dsp/onnx/OnnxProcessor.cpp:64-79 | with n at most K such a block is never a miss and takes one off a positive counter |
| `Recovery.BacklogIsRepaid` | source/dsp/onnx/OnnxProcessor.cpp:64-79 | over any run without an answer behind the gate on a drained count, C counted misses are gone after C such blocks, up to the misses that came in meanwhile |
| `Recovery.SmallRingIsSilentForever` | source/dsp/onnx/OnnxProcessor.cpp:44 | with a capacity of at most M no run ever starts the model, and every block behind the gate is silent |
| `Recovery.LargerRingCanStart` | source/dsp/onnx/InferenceThread.cpp:33-40 | with a larger capacity a run starts it |
| `Deadline.DeadlineFresh` | source/dsp/onnx/OnnxProcessor.cpp:43-53 | the state after `prepare` is one from which the deadline results hold |
| `Deadline.DeadlineIsExact` | source/dsp/onnx/InferenceThread.cpp:26-42 | n divides M and K, and the thread has returned when a chunk is full: then the counter stays 0 in every state and no drained count is acted on behind the gate, iff each answer behind the gate read a whole count and, at block launch + K/n + j of a running inference, found n * (j + 1) of its results; and then the whole output is latency dry samples followed by the model's signal |
| `Deadline.PunctualModelIsHeardWithoutAGap` | source/dsp/onnx/InferenceThread.cpp:26-42 | under two hypotheses, all results of an inference pushed by the answer to block launch + K/n and the thread returned when a chunk is full, the counter stays 0 iff no count behind the gate is torn; and then none is drained and the model is heard without a gap |
| `Deadline.TornAnswerHappens` | source/dsp/onnx/OnnxProcessor.cpp:61-84 | for every K below M a run that keeps both hypotheses reaches the block whose inference passes the end of the output ring's memory, and an answer there that a torn count makes silent although all results are pushed |
| `Deadline.LateResultsHappen` | source/dsp/onnx/OnnxProcessor.cpp:61-84 | for every K below M a faultless run reaches the first date with fewer than n results, and that block is silent |
| `Deadline.DeadlineIsTight` | source/dsp/onnx/OnnxProcessor.cpp:61-84 | after a prompt run without a bad answer the next block behind the gate is silent iff its count is torn, or whole with fewer results pushed than are due at it; a drained count occurs only when they are late, and is not silent |
| `Lateness.EveryDeadline` | source/dsp/onnx/OnnxProcessor.cpp:61-84 | for block sizes that vary and an inference thread that starts and returns at any time: the next block behind the gate is silent iff its count is torn, or whole while fewer results have been pushed in all than samples have arrived, less the delay; a drained count occurs only then |
| `Lateness.ExactForEveryThread` | source/dsp/onnx/InferenceThread.cpp:26-42 | for any block size n, dividing M and K or not, and any inference thread: the counter stays 0 and no drained count is acted on behind the gate, iff each answer there reads a whole count and finds all results up to the reported latency ago |
| `Reload.ReloadStartsFreshEpoch` | source/dsp/onnx/InferenceThread.cpp:106-147 | a reload begun idle re-establishes the invariant with nothing of the old model left, wherever host blocks of fewer than M + K samples, of any sizes, fall between its statements |
| `Reload.ReloadRestoresTheLatency` | source/dsp/onnx/InferenceThread.cpp:106-147 | with blocks of n samples and none open at the preparation it ends in a state of the constant-block protocol, so the delay is the reported latency again and misses are repaid |
| `Reload.ReloadRestoresTheDeadline` | source/dsp/onnx/InferenceThread.cpp:106-147 | if less than one chunk arrives until the loading flag falls, the reload ends where the deadline theorems begin |
| `Reload.ReloadIsAlignedIff` | source/dsp/onnx/OnnxProcessor.cpp:16-20 | at the cleared counter the system holds the promised delay iff fewer than M + K samples arrived in the window |
| `Reload.ReloadIsLateForGood` | source/dsp/onnx/OnnxProcessor.cpp:16-20 | otherwise, in every later run of n-sample blocks that fit and without an answer behind the gate on a drained count, the system holds the window's samples plus n per counted miss, and every block is heard that late: more than the reported latency even with the counter at 0 |
| `Latency.CalculateLatency` | source/dsp/onnx/OnnxProcessor.cpp:91-95 | for any rounding with the error bound of binary32 between 2^-24 and 2^24 the result is ceil(total / n) * n - n |
| `OnnxObjects.InferenceThread.SendAudio` | source/dsp/onnx/InferenceThread.cpp:26-42 | the object's new state is the protocol's, for any block and any ring state |
| `OnnxObjects.InferenceThread.Prepare` | source/dsp/onnx/InferenceThread.cpp:17-24 | a fresh input side; flags of loading and running untouched |
| `OnnxObjects.OnnxProcessor.ProcessOutput` | source/dsp/onnx/OnnxProcessor.cpp:61-84 | new state and answered block are the protocol's; the counter goes up, stays or goes down by the exact rule of lines 61-84, for any number of counted misses |
| `OnnxObjects.OnnxProcessor.ProcessBlock` | source/dsp/onnx/OnnxProcessor.cpp:55-59 | one host callback is the protocol's send followed by its output |
| `OnnxObjects.OnnxProcessor.Prepare` | source/dsp/onnx/OnnxProcessor.cpp:43-53 | the state the runs start from, and the reported latency |
| `OnnxObjects.OnnxProcessor.OnNewProcessedBuffer` | source/dsp/onnx/OnnxProcessor.cpp:9-14 | the callback pushes all results and touches nothing else |
| `OnnxObjects.OnnxProcessor.OnModelLoaded` | source/dsp/onnx/OnnxProcessor.cpp:16-20 | the output ring is cleared and the counter is 0 |
| `OnnxObjects.OnnxProcessor.LoadModel` | source/dsp/onnx/InferenceThread.cpp:106-147 | an uninterrupted reload ends in the fresh state |
| `OnnxObjects.CallbackIsPushEvents` | source/dsp/onnx/InferenceThread.cpp:86-90 | the delivery callback is the run of one push event per result |
| `Bits.MaskIsModulo` | modules/RnboExport/rnbo_granular.cpp:1457-1460 | masking with a power of two less one is the remainder |
| `Bits.CascadeStep` | modules/RnboExport/rnbo/common/RNBO_AudioSignal.h:144-149 | each line doubles the run of ones at the top of the value |
| `Bits.NextPowerOfTwo` | modules/RnboExport/rnbo/common/RNBO_AudioSignal.h:141-152 | the least power of two not below v, for v from 1 to 2^62 |
| `DelayLines.DelayLine.CalcSizeInSamples` | modules/RnboExport/rnbo_granular.cpp:1486-1500 | the line is as long as asked, at least 2, and the buffer is the least power of two that holds it |
| `DelayLines.DelayLine.constructor` | modules/RnboExport/rnbo_granular.cpp:1502-1508 | a silent line whose mask fits its buffer |
| `DelayLines.DelayLine.Reset` | modules/RnboExport/rnbo_granular.cpp:1514-1527 | a silent line of the new size in the least power of two that holds it; both positions stay if both fit and restart otherwise |
| `DelayLines.DelayLine.Step` | modules/RnboExport/rnbo_granular.cpp:1439-1444 | one tick of the history |
| `DelayLines.DelayLine.Write` | modules/RnboExport/rnbo_granular.cpp:1473-1476 | the current tick of the history takes the value |
| `DelayLines.DelayLine.Read` | modules/RnboExport/rnbo_granular.cpp:1446-1462 | the masked, interpolated read of the buffer is a read of the unbounded history at the clamped delay |
| `DelayLines.DelayLine.ClampedHears` | modules/RnboExport/rnbo_granular.cpp:1447 | the clamp in plain terms: too long a delay is the longest, a tick that the positions show as not written is never heard, every other delay is the one asked for |
| `DelayLines.ReadIsHistoryIff` | modules/RnboExport/rnbo_granular.cpp:1446-1462 | it is the linear interpolation of the history iff the delay is at most the buffer size less one, or the wrapped sample happens to be equal |
| `DelayLines.RampIsReadExactly` | modules/RnboExport/rnbo_granular.cpp:1446-1462 | a straight line in the past is read exactly at every fractional delay up to the bound |
| `DelayLines.DelayLine.Next` | modules/RnboExport/rnbo_granular.cpp:1478-1484 | the combined call, for every size, returns the history at the clamped size, -1 standing for the longest, and then advances it |
| `DelayLines.NextIsAPlainDelay` | modules/RnboExport/rnbo_granular.cpp:1478-1484 | over any calls the sample at delay d is the one given d calls ago |
| `ListBases.ListBase.Allocate` | modules/RnboExport/rnbo/common/RNBO_List.h:475-491 | the exact number of slots afterwards, contents kept when asked for |
| `ListBases.GrownIsNextChunk` | modules/RnboExport/rnbo/common/RNBO_List.h:475-491 | a list that must grow gets the next multiple of eight slots beyond what was asked for |
| `ListBases.ListBase.Push` | modules/RnboExport/rnbo/common/RNBO_List.h:177-182 | appends one item |
| `ListBases.ListBase.Splice` | modules/RnboExport/rnbo/common/RNBO_List.h:302-350 | contents and returned items for every start, negative and too large ones included, through growth and both overlapping moves |
| `ListBases.SpliceIsAsDocumentedIff` | modules/RnboExport/rnbo/common/RNBO_List.h:295-345 | the documented meaning holds for every memory iff the start is within the list or nothing is inserted |
| `ListBases.SpliceInverts` | modules/RnboExport/rnbo/common/RNBO_List.h:302-350 | a second splice with the returned items restores the list |
| `ListBases.RemovedIsLargest` | modules/RnboExport/rnbo/common/RNBO_List.h:305-312 | as many items go as are asked for and lie at or after the start |
| `ListBases.SplicedItems` | modules/RnboExport/rnbo/common/RNBO_List.h:314-350 | every item of the result, for a start within the list |
| `ListBases.SplicedPastTheEnd` | modules/RnboExport/rnbo/common/RNBO_List.h:332-345 | and past its end: the new items lie at the start that was given, memory shows between |
| `PairedQuickSort.Table.Partition` | modules/RnboExport/rnbo_granular.cpp:102-121 | both lists undergo one permutation inside l..h and the returned row splits the range |
| `PairedQuickSort.Table.QuickSort` | modules/RnboExport/rnbo_granular.cpp:94-100 | keys non-decreasing, or non-increasing when descending; rows permuted together, nothing moved outside, terminates; equal keys are left alone |
| `PairedQuickSort.HalvesMakeWhole` | modules/RnboExport/rnbo_granular.cpp:94-100 | sorting each side of a split range sorts the range |
| `PairedQuickSort.Table.ProcessParamInitEvents` | modules/RnboExport/rnbo_granular.cpp:916-932 | each parameter is scheduled exactly once, in order |
| `PairedQuickSort.Startup` | modules/RnboExport/rnbo_granular.cpp:1101-1121 | the four parameters are scheduled as 0, 1, 2, 3 |
| `Transport.PickIsLast` | modules/RnboExport/rnbo_granular.cpp:1662-1670 | in a sorted list the scan selects the last change at or before the query, or the first entry |
| `Transport.BeatAtEveryQuery` | modules/RnboExport/rnbo_granular.cpp:349-351 | at every query, between changes too: the beat of the entry in force plus, while the transport runs, the milliseconds since it times the present tempo over 60000 |
| `Transport.SignatureAtEveryQuery` | modules/RnboExport/rnbo_granular.cpp:1759-1772 | the signature of the entry in force |
| `Transport.OneBeat` | modules/RnboExport/rnbo_granular.cpp:349-351 | after the last change a running clock counts one beat in 60000 / tempo milliseconds, evenly |
| `Transport.CompactionKeepsBeat` | modules/RnboExport/rnbo_granular.cpp:1820-1828 | the end of a block leaves one entry and changes no beat at or after the last change |
| `Transport.CompactionKeepsSignature` | modules/RnboExport/rnbo_granular.cpp:1830-1842 | nor any time signature, and leaves one entry |
| `Transport.ChangeIsContinuous` | modules/RnboExport/rnbo_granular.cpp:1680-1702 | a tempo change leaves the beat at its instant and later beats run on at the new tempo |
| `Transport.BeatIsTempoIntegral` | modules/RnboExport/rnbo_granular.cpp:1662-1702 | over any tempo changes in time order and any ends of blocks, running or stopped, the beat advances by the integral of the tempo while the transport runs |
| `Transport.BeatOverAnyRun` | modules/RnboExport/rnbo_granular.cpp:1662-1732 | over any tempo changes, stops, starts and ends of blocks in time order it advances by that integral, less for each stop and plus for each start the beats since the last recorded change |
| `Transport.StopIsContinuousIff` | modules/RnboExport/rnbo_granular.cpp:1708-1726 | the beat is continuous across a stop iff no beat has passed since the last change |
| `Transport.StartCountsThePause` | modules/RnboExport/rnbo_granular.cpp:1708-1732 | across a start the beat jumps by the length of the pause since the last change |
| `Transport.Timeline.GetBeatTimeAtMsTime` | modules/RnboExport/rnbo_granular.cpp:1662-1678 | the loop over the flat list computes the beat of the selected entry |
| `Transport.Timeline.GetTimeSignatureAtMsTime` | modules/RnboExport/rnbo_granular.cpp:1759-1772 | the same for the list of stride 3 |
| `Transport.Timeline.SetTempo` | modules/RnboExport/rnbo_granular.cpp:1680-1702 | appends the current beat and time iff the tempo changes, and sets the tempo signal from the current sample on and nowhere before: the event of the runs above |
| `Transport.Timeline.SetState` | modules/RnboExport/rnbo_granular.cpp:1708-1732 | a stop records the beat of the already stopped transport; a start records nothing: the event of the runs above |
| `Transport.Timeline.SetTimeSignature` | modules/RnboExport/rnbo_granular.cpp:1783-1799 | the new signature holds from now on and no earlier query changes |
| `Transport.Timeline.Advance` | modules/RnboExport/rnbo_granular.cpp:1801-1845 | keeps the last entry of each list and resets the signal |
| `Grains.WrapIsModulo` | modules/RnboExport/rnbo_granular.cpp:235-266 | the result is in the half-open range and a whole number of ranges away, for bounds in either order |
| `Grains.CursorWraps` | modules/RnboExport/rnbo_granular.cpp:1203 | the cursor steps through 0..99 and back |
| `Grains.CountIsModulo` | modules/RnboExport/rnbo_granular.cpp:1543-1561 | for a positive limit the count is the step number modulo the limit rounded up |
| `Grains.LaunchSteps` | modules/RnboExport/rnbo_granular.cpp:1178-1182 | exactly when the launch condition holds, for every constant limit |
| `Grains.RunCounts` | modules/RnboExport/rnbo_granular.cpp:1178-1180 | in any run the counter follows that law |
| `Grains.RunKeepsInv` | modules/RnboExport/rnbo_granular.cpp:1179-1261 | in every run the cursor is a slot and the phase of slot 0 a whole number that never runs past its size |
| `Grains.SlotZeroUpdates` | modules/RnboExport/rnbo_granular.cpp:1182-1213 | slot 0 is relaunched only when idle; its position comes from the launch in slot 99 |
| `Grains.GrainLife` | modules/RnboExport/rnbo_granular.cpp:1220-1261 | a grain of size s is heard in exactly ceil(s) - 1 consecutive samples and then its slot is free |
| `Grains.GrainReads` | modules/RnboExport/rnbo_granular.cpp:1226-1252 | in its sample number j, from 0, a grain is heard at the stored position less j + 1 times the pitch it was launched with |
| `Grains.GrainSpeed` | modules/RnboExport/rnbo_granular.cpp:1243-1252 | from sample to sample its read point moves on by 1 + pitch, the ratio of the pitches, unless its position is replaced |
| `Grains.PositionIsFromSlot99` | modules/RnboExport/rnbo_granular.cpp:1203-1212 | the position of slot 0 is the one given at the last launch in slot 99 |
| `Grains.HeardPeriodically` | modules/RnboExport/rnbo_granular.cpp:1174-1261 | for constant parameters and a limit beyond 1 slot 0 is launched exactly every c * max(100, ceil(ceil(s) / c)) samples, where c is the limit rounded up (for s at most 1, every 100 * c), and in sample r of each period, while r < ceil(s) - 1, it is heard at the position less (r + 1) * pitch, the position being the given one from sample 99 * c on |
| `Grains.NeverAheadOfTheInput` | modules/RnboExport/rnbo_granular.cpp:1204-1212 | from there on no delay is negative, because the stored position includes size * pitch when that is positive |
| `Grains.Granulator.CounterNext` | modules/RnboExport/rnbo_granular.cpp:1543-1561 | one step of the counter, for limits that change too |
| `Grains.Granulator.Poke` | modules/RnboExport/rnbo_granular.cpp:317-339 | writes one cell, mixed with its old value when overdubbing, and nothing outside the table |
| `Grains.Granulator.Launch` | modules/RnboExport/rnbo_granular.cpp:1178-1214 | the writes of a launch on the whole table are the launch of slot 0, counter and cursor |
| `Grains.Granulator.Perform` | modules/RnboExport/rnbo_granular.cpp:1174-1261 | one sample: launch, then ageing of all slots; what is heard is slot 0 |
| `Xoshiro.NextIsInjective` | modules/RnboExport/rnbo/common/RNBO_AudioSignal.h:244-252 | no two states have the same successor |
| `Xoshiro.RunIsInjective` | modules/RnboExport/rnbo/common/RNBO_AudioSignal.h:244-252 | runs of one length from different states end in different states |
| `Xoshiro.SeededIsNotZero` | modules/RnboExport/rnbo/common/RNBO_AudioSignal.h:226-236 | no seed gives the all-zero state |
| `Xoshiro.SeededRunNeverZero` | modules/RnboExport/rnbo/common/RNBO_AudioSignal.h:226-252 | no run from any seed reaches it |
| `Xoshiro.ToSample` | modules/RnboExport/rnbo/common/RNBO_AudioSignal.h:253-255 | every output lies in [-1, 1) |
| `Xoshiro.SamplesAreEvenlySpaced` | modules/RnboExport/rnbo/common/RNBO_AudioSignal.h:253-255 | outputs are evenly spaced by the 53 high bits, from -1 to one step below 1 |
| `Xoshiro.NextInWords` | modules/RnboExport/rnbo/common/RNBO_AudioSignal.h:244-252 | the words after a step in terms of the words before it, whatever the order of the assignments |
| `Xoshiro.RotationMovesBits` | modules/RnboExport/rnbo/common/RNBO_AudioSignal.h:252 | the rotation moves bit i to bit i + 45 modulo 64 |
| `Xoshiro.SumOfWords` | modules/RnboExport/rnbo/common/RNBO_AudioSignal.h:245 | the sum is the union of disjoint words, doubles a word and wraps around |
| `Xoshiro.SeedVectors` | modules/RnboExport/rnbo/common/RNBO_AudioSignal.h:226-236 | the published splitmix64 outputs for two seeds, and the state for seed 0 |
| `Xoshiro.Generator.Reset` | modules/RnboExport/rnbo/common/RNBO_AudioSignal.h:233-236 | the seeded state, never all zero |
| `Xoshiro.Generator.NextSample` | modules/RnboExport/rnbo/common/RNBO_AudioSignal.h:244-256 | the six assignments make one step; the sample comes from the old first and last words |
| `Envelopes.CuttingDoesNotMatter` | source/dsp/utils/Envelope.cpp:27-48 | the envelope of a signal is the same for every way of cutting it into blocks |
| `Envelopes.EnvelopeStaysWithin` | source/dsp/utils/Envelope.cpp:27-48 | with coefficients in [0, 1] it lies between the least and the greatest of initial value and detector inputs |
| `Envelopes.RiseIsAttack` | source/dsp/utils/Envelope.cpp:38-47 | with an attack time the gap to a louder, constant detector after k samples is the first one times the k-th power of the attack coefficient |
| `Envelopes.FallIsRelease` | source/dsp/utils/Envelope.cpp:27-48 | the gap to a quieter one, of the release coefficient, with and without an attack time |
| `Envelopes.RiseWithoutAttack` | source/dsp/utils/Envelope.cpp:29-36 | without an attack time a rise is followed in one sample |
| `Envelopes.DetectorIsTheLouder` | source/dsp/utils/Envelope.cpp:32-41 | the detector of several channels is the louder of the first two without its sign, of one channel the sample itself; only a not-a-number value on the first channel shows |
| `Envelopes.RecoversAtOnce` | source/dsp/utils/Envelope.cpp:38-47 | with an attack time a value is not a number iff its own input is |
| `Envelopes.NeverRecoversWithoutAttack` | source/dsp/utils/Envelope.cpp:29-36 | without one it is iff any input so far, or the initial value, is |
| `Envelopes.Envelope.Track` | source/dsp/utils/Envelope.cpp:29-47 | the in-place step is the follower's recurrence |
| `Envelopes.Envelope.ProcessBlock` | source/dsp/utils/Envelope.cpp:27-48 | a block's envelope and the carried value are those of the whole-signal recurrence, mono and stereo |
| `Compressors.BranchesMeet` | source/dsp/compressor/Compressor.cpp:36-72 | the three branches agree at the edges of the knee |
| `Compressors.CurveIsGentle` | source/dsp/compressor/Compressor.cpp:35-72 | between any two levels, across branches and the range limit, the gain falls by at most 1 - 1/ratio of their distance, in both types |
| `Compressors.SpoiledIff` | source/dsp/compressor/Compressor.cpp:35-72 | for every level, not-a-number and the infinities included, the voltage is not a number iff the knee is 0 and the level is the threshold, or the ratio is 1 and the level lies infinitely far on the bent side |
| `Compressors.GainRange` | source/dsp/compressor/Compressor.cpp:35-72 | otherwise it is finite and lies in [-range, 0], or there is none |
| `Compressors.OutputLevelIsMonotone` | source/dsp/compressor/Compressor.cpp:35-72 | level plus gain never falls as the level rises; the gain falls in one type and rises in the other |
| `Compressors.TypesMirror` | source/dsp/compressor/Compressor.cpp:35-72 | the two types mirror each other around the threshold |
| `Compressors.AutoNeverAmplifies` | source/dsp/compressor/Compressor.cpp:33-74 | for any conversion that takes 0 dB to 1, sums to products and more to more: with automatic make-up no sample gets larger, and one is spoiled exactly when the voltage is |
| `Compressors.ManualIsAutoTimesMakeUp` | source/dsp/compressor/Compressor.cpp:33-74 | manual mode is automatic mode times the make-up gain, in every branch |
| `Compressors.BeyondTheKnee` | source/dsp/compressor/Compressor.cpp:36-41 | beyond the knee and inside the range a compressor puts a level at the threshold plus its excess over the ratio; the expander puts it twice its distance below the threshold, less that part |
| `Compressors.RatioMeaning` | source/dsp/compressor/Compressor.cpp:36-41 | so two levels d dB apart come out d / ratio apart |
| `Compressors.BeyondTheRange` | source/dsp/compressor/Compressor.cpp:36-41 | further out the range, and no more, is taken away |
| `Compressors.BelowTheKnee` | source/dsp/compressor/Compressor.cpp:50-52 | on the other side of the knee the level stays |
| `Compressors.KneeBends` | source/dsp/compressor/Compressor.cpp:43-49 | inside the knee the slope grows evenly from nothing to that of the line |
| `Compressors.WithoutALevel` | source/dsp/compressor/Compressor.cpp:33-74 | what happens to a sample under an envelope that is zero, negative or not a number |
| `Compressors.WindowHoldsTheLast` | source/dsp/compressor/Compressor.cpp:171-189 | after any number of blocks a window holds exactly the last BufferSize samples |
| `Compressors.SlotsBelongTogether` | source/dsp/compressor/Compressor.cpp:171-189 | with equal indices each slot holds input and output of the same moment |
| `Compressors.LevelOfWindow` | source/dsp/compressor/Compressor.cpp:30 | the level measured over the slots as they lie in memory is the level of the window |
| `Compressors.LevelOfConstant` | source/dsp/compressor/Compressor.cpp:30 | a constant signal has the level of its value, for any length |
| `Compressors.MakeUpRestoresTheLevel` | source/dsp/compressor/Compressor.cpp:80 | the make-up factor is at least 1, and 1 unless level was taken away; it gives back exactly the level that was taken away; it is infinite iff the output window is silent and the input window is not |
| `Compressors.Compressor.constructor` | source/dsp/compressor/Compressor.cpp:16-23 | windows of a whole number of blocks, at most one second and more than a second less one block, aligned |
| `Compressors.Compressor.Roll` | source/dsp/compressor/Compressor.cpp:172-188 | copying channels round the window leaves exactly the latest samples, oldest first |
| `Compressors.Compressor.CopyAutoMakeUpBuffer` | source/dsp/compressor/Compressor.cpp:171-189 | only the chosen window changes |
| `Compressors.Compressor.Shape` | source/dsp/compressor/Compressor.cpp:33-74 | every sample of every channel gets the gain of the envelope at its time |
| `Compressors.Compressor.Measure` | source/dsp/compressor/Compressor.cpp:28-31 | the chosen window takes the block and its level is that of its latest samples |
| `Compressors.Compressor.Compress` | source/dsp/compressor/Compressor.cpp:25-78 | block, both windows, their alignment and their levels after one call, for either state of the auto flag |

## Left out

- Rounding: samples and DSP parameters are reals; only the latency computation is rounded, and there block sizes up to 8,000,000 are covered and division by a block size of 0 is not.
- Infinities: samples are reals or not-a-number; an infinite sample is not modelled. Levels and voltages of the compressor have them.
- Memory model: interleavings are sequentially consistent; compiler reordering and the other races of the shared flags are not modelled.
- Answers on drained counts: the theorems of `Invariant` to `Reload` other than those of `Laps` name them as excluded, and `TwoThreads` follows runs up to the first one. `Laps` treats such an answer as one step; for results pushed while it pops only `Laps.AnyOrderOfOps` speaks.
- Dates of single inferences when the thread has not returned at a full chunk, or when n does not divide M and K: there `Lateness` gives the number of results due at each answer, not the block at which an inference starts.
- `TwoThreads` has no reload; its runs begin with the state after `prepare`.
- A reload while an inference runs (the wait at `InferenceThread.cpp:112` expects a stopped thread to run again) and `prepare` while one runs: both are taken to begin with the thread idle.
- The inference session, its creation, its input shape and its failures: any length-preserving function of the inference number and the chunk.
- The first load of a model before `prepare` (start-up flag), model selection by parameter, and the host's suspend and resume around a reload.
- Overflowing rings in the protocol theorems: they hold while every arriving block finds room. The ring itself, the object methods and, for the output ring, `Laps` cover overflow.
- The integer width of `init_samples`, of the counters and of positions: unbounded here.
- ListBases.ListBase.Splice: a start so far beyond the list that its slots lie outside even the grown allocation is excluded; there the program writes outside its memory.
- The other list operations (pop, shift, concat, fill, move and copy constructors), string lists, and the difference between raw memory and constructed items.
- PairedQuickSort: the lists are values in fields, since only their contents and lengths matter to the sort.
- Delay line: the second, uninterpolated read after the return at line 1455 cannot be reached; the right channel repeats the left.
- The bit operations of `Bits` are on naturals up to 2^62, where the signed 64-bit code does not overflow.
- Transport: the notify paths and engine events, `setBeatTime`, and the state signal array, for which one running flag stands.
- Grains: window shape, gain normalisation, noise on the position and the two audio taps themselves; what is heard is the delay of the tap. A grain's parameters may change from sample to sample.
- Xoshiro: the 32-bit float variant and the conversion of the seed to an integer.
- Compressor: the ramp of the make-up factor over the block and the factor's way back into the parameters; logarithm, power and square root are arbitrary functions. The auto flag does not change inside a block.
- Ratio below 1, negative knee and negative range: outside the plugin's parameter ranges.
- The exponential that turns times into envelope coefficients: the bounds assume coefficients in [0, 1].
- User interface, parameter tables, mixers, filters and the wiring of the processors.
