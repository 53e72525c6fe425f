/**
 Reloading a model while the host keeps calling (source/dsp/onnx/InferenceThread.cpp:106-147, OnnxProcessor.cpp:16-20).

 The reload starts with the inference thread idle. Its statements run on the message thread: raise the loading flag,
 prepare the input side, resume the host, clear the output ring, clear the counter, lower the flag. Audio
 blocks may fall between any two of them.
 */
module Reload {
  import opened Arithmetic
  import opened Samples
  import opened Rings
  import opened Protocol
  import opened Invariant
  import opened ConstantBlocks
  import opened Deadline

  /** What can happen between two statements of the reload: the host's blocks, which start no inference. */
  predicate HostOnly(es: seq<Event>) {
    forall i :: 0 <= i < |es| ==> es[i].Send? || es[i].Output?
  }

  /** Between the preparation and the cleared counter. */
  predicate InWindow(es: seq<Event>) {
    forall i :: 0 <= i < |es| ==> es[i].Send? || es[i].Output? || es[i].LoadResetRing? || es[i].LoadResetCounter?
  }

  function SampleCount(es: seq<Event>): nat {
    if es == [] then 0 else (if es[0].Send? then |es[0].block| else 0) + SampleCount(es[1..])
  }

  predicate Loading(c: Config, w: World) {
    w.p.Valid() && |w.p.inRing.slots| == |w.p.outRing.slots| == c.cap && w.p.loading && !w.p.running
  }

  lemma HostKeepsLoading(c: Config, w: World, e: Event)
    requires Loading(c, w) && Enabled(c, w, e) && (e.Send? || e.Output? || e.LoadResetRing? || e.LoadResetCounter?)
    ensures Loading(c, Next(c, w, e))
  {
  }

  lemma {:induction false} HostRunKeepsLoading(c: Config, w: World, es: seq<Event>)
    requires Loading(c, w) && IsRun(c, w, es) && HostOnly(es)
    ensures Loading(c, RunFrom(c, w, es))
    decreases |es|
  {
    if es != [] {
      HostKeepsLoading(c, w, es[0]);
      HostRunKeepsLoading(c, Next(c, w, es[0]), es[1..]);
    }
  }

  /** The epoch that begins with the preparation, before its first inference. What the output ring and the counter still
      hold from before does not matter while the gate is closed. */
  ghost predicate WindowInv(c: Config, w: World) {
    && Loading(c, w)
    && w.launches == 0 && w.stream == [] && w.fed == CleanAll(w.raw) && |w.fed| < c.cap
    && w.p.inRing.Unread() == w.fed
    && (w.p.init ==>
          && w.p.initSamples == |w.fed| < c.M + c.K
          && w.served == w.missed == w.dropped == w.popped == 0)
    && (!w.p.init ==> |w.fed| == w.openStart + w.served + (if w.mid then |w.block| else 0))
  }

  lemma SendKeepsWindow(c: Config, w: World, block: seq<Sample>)
    requires c.M > 0 && WindowInv(c, w) && !w.mid && |w.fed| + |block| < c.cap
    ensures WindowInv(c, SendStep(c, w, block))
    ensures w.p.init && |w.fed| + |block| < c.M + c.K ==> SendStep(c, w, block).p.init
  {
    SendPipe(c.M, c.K, w.p, block);
    CleanAllAppend(w.raw, block);
    assert |w.p.inRing.Unread()| == w.p.inRing.count;
  }

  lemma WindowStep(c: Config, w: World, e: Event)
    requires c.M > 0 && WindowInv(c, w) && Enabled(c, w, e)
    requires e.Send? || e.Output? || e.LoadResetRing? || e.LoadResetCounter?
    requires e.Send? ==> |w.fed| + |e.block| < c.cap
    ensures WindowInv(c, Next(c, w, e))
    ensures |Next(c, w, e).fed| == |w.fed| + (if e.Send? then |e.block| else 0)
    ensures w.p.init && |Next(c, w, e).fed| < c.M + c.K ==> Next(c, w, e).p.init
  {
    if e.Send? {
      SendKeepsWindow(c, w, e.block);
    }
  }

  lemma {:induction false} WindowRun(c: Config, w: World, es: seq<Event>)
    requires c.M > 0 && WindowInv(c, w) && IsRun(c, w, es) && InWindow(es)
    requires |w.fed| + SampleCount(es) < c.cap
    ensures WindowInv(c, RunFrom(c, w, es))
    ensures |RunFrom(c, w, es).fed| == |w.fed| + SampleCount(es)
    ensures w.p.init && |w.fed| + SampleCount(es) < c.M + c.K ==> RunFrom(c, w, es).p.init
    decreases |es|
  {
    if es != [] {
      WindowStep(c, w, es[0]);
      assert InWindow(es[1..]);
      WindowRun(c, Next(c, w, es[0]), es[1..]);
    }
  }

  // ---- the whole reload ----

  /** The host's events in the gaps between the statements, and the memory the input ring is given. */
  datatype Gaps = Gaps(
    beforePrepare: seq<Event>, memory: seq<Sample>, beforeRing: seq<Event>, beforeCounter: seq<Event>)

  predicate HostGaps(g: Gaps) {
    HostOnly(g.beforePrepare) && HostOnly(g.beforeRing) && HostOnly(g.beforeCounter)
  }

  function UpToPrepare(g: Gaps): seq<Event> {
    [LoadBegin] + g.beforePrepare + [LoadPrepare(g.memory)]
  }

  function UpToCounter(g: Gaps): seq<Event> {
    g.beforeRing + [LoadResetRing] + g.beforeCounter + [LoadResetCounter]
  }

  /** Samples the host delivers between the preparation and the cleared counter. */
  function WindowSamples(g: Gaps): nat {
    SampleCount(g.beforeRing) + SampleCount(g.beforeCounter)
  }

  lemma {:induction false} PreparedWindow(c: Config, w0: World, g: Gaps)
    requires c.M + c.K > 0 && c.cap > 0 && HostGaps(g) && IsRun(c, w0, UpToPrepare(g))
    requires |w0.p.inRing.slots| == |w0.p.outRing.slots| == c.cap
    ensures var w := RunFrom(c, w0, UpToPrepare(g)); WindowInv(c, w) && w.fed == [] && w.p.init
  {
    var begin := [LoadBegin] + g.beforePrepare;
    RunPrefix(c, w0, begin, [LoadPrepare(g.memory)]);
    RunAppend(c, w0, begin, [LoadPrepare(g.memory)]);
    var w1 := Next(c, w0, LoadBegin);
    assert begin[1..] == g.beforePrepare;
    HostRunKeepsLoading(c, w1, g.beforePrepare);
    var w2 := RunFrom(c, w0, begin);
    assert RunFrom(c, w2, [LoadPrepare(g.memory)]) == RunFrom(c, Next(c, w2, LoadPrepare(g.memory)), []);
  }

  lemma {:induction false} RunPrefix(c: Config, w: World, es: seq<Event>, fs: seq<Event>)
    requires IsRun(c, w, es + fs)
    ensures IsRun(c, w, es)
    decreases |es|
  {
    if es != [] {
      assert (es + fs)[1..] == es[1..] + fs;
      RunPrefix(c, Next(c, w, es[0]), es[1..], fs);
    }
  }

  /** No inference runs, so nothing fills the output ring once it is cleared. */
  lemma {:induction false} EmptyRingStaysEmpty(c: Config, w: World, es: seq<Event>)
    requires Loading(c, w) && IsRun(c, w, es) && HostOnly(es) && w.p.outRing.count == 0
    ensures RunFrom(c, w, es).p.outRing.count == 0
    decreases |es|
  {
    if es != [] {
      HostKeepsLoading(c, w, es[0]);
      EmptyRingStep(c, w, es[0]);
      EmptyRingStaysEmpty(c, Next(c, w, es[0]), es[1..]);
    }
  }

  lemma EmptyRingStep(c: Config, w: World, e: Event)
    requires Loading(c, w) && Enabled(c, w, e) && (e.Send? || e.Output?) && w.p.outRing.count == 0
    ensures Next(c, w, e).p.outRing.count == 0
  {
    if e.Output? && Seen(w, e.read) >= |w.block| {
      assert |w.block| == 0;
    }
  }

  lemma {:induction false} ClearedWindow(c: Config, w: World, g: Gaps)
    requires Loading(c, w) && HostGaps(g) && IsRun(c, w, UpToCounter(g))
    ensures var w' := RunFrom(c, w, UpToCounter(g)); w'.p.outRing.count == 0 == w'.p.counter
  {
    var first, rest := g.beforeRing, [LoadResetRing] + g.beforeCounter + [LoadResetCounter];
    assert UpToCounter(g) == first + rest;
    RunPrefix(c, w, first, rest);
    RunAppend(c, w, first, rest);
    HostRunKeepsLoading(c, w, first);
    var w1 := RunFrom(c, w, first);
    var w2 := Next(c, w1, LoadResetRing);
    assert rest[1..] == g.beforeCounter + [LoadResetCounter];
    RunPrefix(c, w2, g.beforeCounter, [LoadResetCounter]);
    RunAppend(c, w2, g.beforeCounter, [LoadResetCounter]);
    EmptyRingStaysEmpty(c, w2, g.beforeCounter);
    var w3 := RunFrom(c, w2, g.beforeCounter);
    assert RunFrom(c, w3, [LoadResetCounter]) == RunFrom(c, Next(c, w3, LoadResetCounter), []);
  }

  lemma {:induction false} CountAppend(es: seq<Event>, fs: seq<Event>)
    ensures SampleCount(es + fs) == SampleCount(es) + SampleCount(fs)
  {
    if es == [] {
      assert es + fs == fs;
    } else {
      assert (es + fs)[1..] == es[1..] + fs;
      CountAppend(es[1..], fs);
    }
  }

  lemma CountWindow(g: Gaps)
    ensures SampleCount(UpToCounter(g)) == WindowSamples(g)
  {
    CountAppend(g.beforeRing + [LoadResetRing] + g.beforeCounter, [LoadResetCounter]);
    CountAppend(g.beforeRing + [LoadResetRing], g.beforeCounter);
    CountAppend(g.beforeRing, [LoadResetRing]);
  }

  lemma {:induction false} WindowEnds(c: Config, w0: World, g: Gaps)
    requires c.M > 0 && c.cap > 0 && HostGaps(g)
    requires IsRun(c, w0, UpToPrepare(g)) && IsRun(c, RunFrom(c, w0, UpToPrepare(g)), UpToCounter(g))
    requires |w0.p.inRing.slots| == |w0.p.outRing.slots| == c.cap
    requires WindowSamples(g) < c.cap
    ensures var w := RunFrom(c, RunFrom(c, w0, UpToPrepare(g)), UpToCounter(g));
      && WindowInv(c, w) && w.p.outRing.count == 0 == w.p.counter && |w.fed| == WindowSamples(g)
      && (WindowSamples(g) < c.M + c.K ==> w.p.init)
  {
    PreparedWindow(c, w0, g);
    var w1 := RunFrom(c, w0, UpToPrepare(g));
    CountWindow(g);
    WindowRun(c, w1, UpToCounter(g));
    ClearedWindow(c, w1, g);
  }

  /**
   A reload begun with the inference thread idle starts a fresh epoch, wherever the host's blocks fall, if fewer
   than M + K samples arrive between the preparation and the cleared counter: they start nothing and pop nothing,
   and the invariant of the protocol holds again, with the counter at 0 and nothing of the old model left.
   */
  lemma {:induction false} ReloadStartsFreshEpoch(c: Config, w0: World, g: Gaps)
    requires ValidConfig(c) && HostGaps(g)
    requires IsRun(c, w0, UpToPrepare(g)) && IsRun(c, RunFrom(c, w0, UpToPrepare(g)), UpToCounter(g))
    requires |w0.p.inRing.slots| == |w0.p.outRing.slots| == c.cap
    requires WindowSamples(g) < c.M + c.K <= c.cap
    ensures var w := RunFrom(c, RunFrom(c, w0, UpToPrepare(g)), UpToCounter(g));
      Inv(c, w) && w.p.counter == 0 == w.launches == w.popped && w.p.init && |w.fed| == WindowSamples(g)
  {
    WindowEnds(c, w0, g);
    var w := RunFrom(c, RunFrom(c, w0, UpToPrepare(g)), UpToCounter(g));
    assert c.M * w.launches == 0;
    assert w.fed[0..] == w.fed;
  }

  // ---- constant block size ----

  predicate BlocksOf(n: nat, es: seq<Event>) {
    forall i :: 0 <= i < |es| && es[i].Send? ==> |es[i].block| == n
  }

  predicate GapsOf(n: nat, g: Gaps) {
    BlocksOf(n, g.beforeRing) && BlocksOf(n, g.beforeCounter)
  }

  /** What blocks of n samples leave in the new epoch: whole blocks, all answered dry while the gate is closed. */
  predicate WindowFacts(n: nat, w: World) {
    && |w.raw| == |w.fed| == n * w.blocks
    && (w.mid ==> w.blocks > 0 && |w.block| == n <= |w.raw| && w.block == w.raw[|w.raw| - n..])
    && (w.p.init ==>
          && |w.emitted| + (if w.mid then n else 0) == |w.raw|
          && w.emitted == w.raw[..|w.emitted|])
  }

  lemma WindowFactsSend(c: Config, n: nat, w: World, block: seq<Sample>)
    requires WindowFacts(n, w) && w.p.Valid() && !w.mid && |block| == n
    ensures WindowFacts(n, SendStep(c, w, block))
  {
    assert n * (w.blocks + 1) == n * w.blocks + n;
    assert (w.raw + block)[|w.raw|..] == block;
    assert w.p.init ==> (w.raw + block)[..|w.emitted|] == w.raw[..|w.emitted|];
  }

  lemma WindowFactsOutput(n: nat, w: World, read: Reading)
    requires WindowFacts(n, w) && w.p.Valid() && w.mid
    ensures WindowFacts(n, OutputStep(w, read))
  {
    OutputKeepsGate(w, read);
    assert w.p.init ==> w.raw[..|w.emitted|] + w.block == w.raw;
  }

  lemma WindowFactsStep(c: Config, n: nat, w: World, e: Event)
    requires WindowFacts(n, w) && Enabled(c, w, e)
    requires e.Send? || e.Output? || e.LoadResetRing? || e.LoadResetCounter?
    requires e.Send? ==> |e.block| == n
    ensures WindowFacts(n, Next(c, w, e))
  {
    if e.Send? {
      WindowFactsSend(c, n, w, e.block);
    } else if e.Output? {
      WindowFactsOutput(n, w, e.read);
    }
  }

  lemma {:induction false} WindowFactsRun(c: Config, n: nat, w: World, es: seq<Event>)
    requires WindowFacts(n, w) && IsRun(c, w, es) && InWindow(es) && BlocksOf(n, es)
    ensures WindowFacts(n, RunFrom(c, w, es))
    decreases |es|
  {
    if es != [] {
      WindowFactsStep(c, n, w, es[0]);
      assert InWindow(es[1..]) && BlocksOf(n, es[1..]);
      WindowFactsRun(c, n, Next(c, w, es[0]), es[1..]);
    }
  }

  /** The new epoch before its gate is a state of the constant-block protocol. */
  lemma WindowIsConst(c: Config, n: nat, w: World)
    requires ValidConfig(c) && n > 0 && WindowInv(c, w) && WindowFacts(n, w) && w.p.init
    requires w.p.outRing.count == 0 == w.p.counter
    ensures ConstInv(c, n, w)
  {
    assert c.M * w.launches == 0;
    assert w.fed[0..] == w.fed;
    GateMeaning(c, n, w.blocks);
  }

  /**
   With blocks of n samples and none open at the preparation the reload ends in a state of the constant-block protocol:
   from there the delay is the reported latency again, misses are repaid, and the gate opens at the latency.
   */
  lemma {:induction false} ReloadRestoresTheLatency(c: Config, n: nat, w0: World, g: Gaps)
    requires ValidConfig(c) && n > 0 && HostGaps(g) && GapsOf(n, g)
    requires IsRun(c, w0, UpToPrepare(g)) && IsRun(c, RunFrom(c, w0, UpToPrepare(g)), UpToCounter(g))
    requires |w0.p.inRing.slots| == |w0.p.outRing.slots| == c.cap
    requires !RunFrom(c, w0, UpToPrepare(g)).mid
    requires WindowSamples(g) < c.M + c.K <= c.cap
    ensures ConstInv(c, n, RunFrom(c, RunFrom(c, w0, UpToPrepare(g)), UpToCounter(g)))
  {
    WindowEnds(c, w0, g);
    WindowFactsEnd(c, n, w0, g);
    WindowIsConst(c, n, RunFrom(c, RunFrom(c, w0, UpToPrepare(g)), UpToCounter(g)));
  }

  lemma {:induction false} WindowFactsEnd(c: Config, n: nat, w0: World, g: Gaps)
    requires c.M + c.K > 0 && c.cap > 0 && HostGaps(g) && GapsOf(n, g)
    requires IsRun(c, w0, UpToPrepare(g)) && IsRun(c, RunFrom(c, w0, UpToPrepare(g)), UpToCounter(g))
    requires |w0.p.inRing.slots| == |w0.p.outRing.slots| == c.cap
    requires !RunFrom(c, w0, UpToPrepare(g)).mid
    ensures WindowFacts(n, RunFrom(c, RunFrom(c, w0, UpToPrepare(g)), UpToCounter(g)))
  {
    PreparedIsEmpty(c, w0, g);
    WindowFactsRun(c, n, RunFrom(c, w0, UpToPrepare(g)), UpToCounter(g));
  }

  lemma {:induction false} PreparedIsEmpty(c: Config, w0: World, g: Gaps)
    requires IsRun(c, w0, UpToPrepare(g))
    ensures var w := RunFrom(c, w0, UpToPrepare(g)); w == Prepared(w.p, w.mid, w.block, w.readPos, w.sentCount)
  {
    var begin, last := [LoadBegin] + g.beforePrepare, LoadPrepare(g.memory);
    RunPrefix(c, w0, begin, [last]);
    RunAppend(c, w0, begin, [last]);
    var w1 := RunFrom(c, w0, begin);
    assert RunFrom(c, w1, [last]) == RunFrom(c, Next(c, w1, last), []);
  }

  /**
   If the host delivers less than one chunk until the loading flag falls, the reload ends where the deadline theorems
   begin: the new model has the same dates as after a preparation.
   */
  lemma {:induction false} ReloadRestoresTheDeadline(c: Config, n: nat, w0: World, g: Gaps, beforeEnd: seq<Event>)
    requires ValidConfig(c) && n > 0 && Divides(c, n) && HostGaps(g) && GapsOf(n, g)
    requires HostOnly(beforeEnd) && BlocksOf(n, beforeEnd)
    requires IsRun(c, w0, UpToPrepare(g)) && IsRun(c, RunFrom(c, w0, UpToPrepare(g)), UpToCounter(g))
    requires IsRun(c, RunFrom(c, RunFrom(c, w0, UpToPrepare(g)), UpToCounter(g)), beforeEnd)
    requires |w0.p.inRing.slots| == |w0.p.outRing.slots| == c.cap
    requires !RunFrom(c, w0, UpToPrepare(g)).mid
    requires WindowSamples(g) + SampleCount(beforeEnd) < c.M < c.cap
    ensures var w := RunFrom(c, RunFrom(c, RunFrom(c, w0, UpToPrepare(g)), UpToCounter(g)), beforeEnd);
      Enabled(c, w, LoadEnd) && DeadlineInv(c, n, Next(c, w, LoadEnd))
  {
    WindowEnds(c, w0, g);
    WindowFactsEnd(c, n, w0, g);
    var w1 := RunFrom(c, RunFrom(c, w0, UpToPrepare(g)), UpToCounter(g));
    WindowRun(c, w1, beforeEnd);
    WindowFactsRun(c, n, w1, beforeEnd);
    EmptyRingStaysEmpty(c, w1, beforeEnd);
    ClosedGateKeepsCounter(c, w1, beforeEnd);
    WindowMeetsDeadlineInv(c, n, RunFrom(c, w1, beforeEnd));
  }

  lemma {:induction false} ClosedGateKeepsCounter(c: Config, w: World, es: seq<Event>)
    requires w.p.Valid() && IsRun(c, w, es) && HostOnly(es) && RunFrom(c, w, es).p.init
    ensures w.p.init && RunFrom(c, w, es).p.counter == w.p.counter
    decreases |es|
  {
    if es != [] {
      assert HostOnly(es[1..]);
      ClosedGateKeepsCounter(c, Next(c, w, es[0]), es[1..]);
    }
  }

  lemma WindowMeetsDeadlineInv(c: Config, n: nat, w: World)
    requires ValidConfig(c) && n > 0 && Divides(c, n) && WindowInv(c, w) && WindowFacts(n, w)
    requires w.p.outRing.count == 0 == w.p.counter && w.p.init && |w.fed| < c.M
    ensures Enabled(c, w, LoadEnd) && DeadlineInv(c, n, Next(c, w, LoadEnd))
  {
    WindowIsConst(c, n, w);
    InBlocks(c, n);
    MulOrder(n, w.blocks, PerChunk(c, n));
    BeforeGate(c, n, w.blocks);
    assert SignalFrom(Latency(c, n), w.raw, [], w.emitted);
  }

  // ---- the bound is exact ----

  predicate Nonempty(es: seq<Event>) {
    forall i :: 0 <= i < |es| && es[i].Send? ==> |es[i].block| > 0
  }

  lemma OpenedStep(c: Config, w: World, e: Event)
    requires Enabled(c, w, e) && (e.Send? || e.Output? || e.LoadResetRing? || e.LoadResetCounter?)
    requires e.Send? ==> |e.block| > 0
    requires !w.p.init ==> |w.fed| > w.openStart
    ensures !Next(c, w, e).p.init ==> |Next(c, w, e).fed| > Next(c, w, e).openStart
  {
  }

  lemma {:induction false} OpenedRun(c: Config, w: World, es: seq<Event>)
    requires IsRun(c, w, es) && InWindow(es) && Nonempty(es)
    requires !w.p.init ==> |w.fed| > w.openStart
    ensures !RunFrom(c, w, es).p.init ==> |RunFrom(c, w, es).fed| > RunFrom(c, w, es).openStart
    decreases |es|
  {
    if es != [] {
      OpenedStep(c, w, es[0]);
      assert InWindow(es[1..]) && Nonempty(es[1..]);
      OpenedRun(c, Next(c, w, es[0]), es[1..]);
    }
  }

  /** With the counter at 0 the promised delay is the start of the gate; the system must hold exactly that much. */
  predicate HoldsThePromise(c: Config, w: World) {
    w.p.init || w.p.inRing.count + InFlight(c, w) + w.p.outRing.count == w.openStart
  }

  /**
   The bound M + K is exact. When the host's blocks in the window reach it, blocks are answered through the open
   gate and then forgotten by the cleared counter: the system holds more than the counter says.
   */
  lemma {:induction false} ReloadIsAlignedIff(c: Config, w0: World, g: Gaps)
    requires ValidConfig(c) && HostGaps(g) && Nonempty(g.beforeRing) && Nonempty(g.beforeCounter)
    requires IsRun(c, w0, UpToPrepare(g)) && IsRun(c, RunFrom(c, w0, UpToPrepare(g)), UpToCounter(g))
    requires |w0.p.inRing.slots| == |w0.p.outRing.slots| == c.cap
    requires WindowSamples(g) < c.cap
    requires !RunFrom(c, RunFrom(c, w0, UpToPrepare(g)), UpToCounter(g)).mid
    ensures HoldsThePromise(c, RunFrom(c, RunFrom(c, w0, UpToPrepare(g)), UpToCounter(g)))
       <==> WindowSamples(g) < c.M + c.K
  {
    WindowEnds(c, w0, g);
    PreparedWindow(c, w0, g);
    var w1 := RunFrom(c, w0, UpToPrepare(g));
    OpenedRun(c, w1, UpToCounter(g));
    var w := RunFrom(c, w1, UpToCounter(g));
    assert w.p.inRing.count == |w.p.inRing.Unread()|;
  }

  // ---- late for good ----

  /** The same state with the ledger opened anew: what was popped, missed and dropped before does not count. */
  function Restarted(w: World): World {
    w.(popped := 0, served := 0, missed := 0, dropped := 0, openStart := |w.fed|)
  }

  predicate SameButLedger(w: World, w': World) {
    w' == w.(popped := w'.popped, served := w'.served, missed := w'.missed, dropped := w'.dropped,
             openStart := w'.openStart)
  }

  /** The ledger is history: it does not influence a run or what is heard. */
  lemma {:induction false} RunIgnoresLedger(c: Config, w: World, w': World, es: seq<Event>)
    requires SameButLedger(w, w') && IsRun(c, w, es)
    ensures IsRun(c, w', es) && SameButLedger(RunFrom(c, w, es), RunFrom(c, w', es))
    decreases |es|
  {
    if es != [] {
      StepIgnoresLedger(c, w, w', es[0]);
      RunIgnoresLedger(c, Next(c, w, es[0]), Next(c, w', es[0]), es[1..]);
    }
  }

  lemma SendIgnoresLedger(c: Config, w: World, w': World, block: seq<Sample>)
    requires SameButLedger(w, w') && w.p.Valid()
    ensures SameButLedger(SendStep(c, w, block), SendStep(c, w', block))
  {
  }

  lemma OutputIgnoresLedger(w: World, w': World, read: Reading)
    requires SameButLedger(w, w') && w.p.Valid()
    ensures SameButLedger(OutputStep(w, read), OutputStep(w', read))
  {
  }

  lemma EnabledIgnoresLedger(c: Config, w: World, w': World, e: Event)
    requires SameButLedger(w, w') && Enabled(c, w, e)
    ensures Enabled(c, w', e) && DrainedWhileOpen(w', e) == DrainedWhileOpen(w, e)
  {
  }

  lemma StepIgnoresLedger(c: Config, w: World, w': World, e: Event)
    requires SameButLedger(w, w') && Enabled(c, w, e)
    ensures Enabled(c, w', e) && SameButLedger(Next(c, w, e), Next(c, w', e))
    ensures DrainedWhileOpen(w', e) == DrainedWhileOpen(w, e)
  {
    EnabledIgnoresLedger(c, w, w', e);
    match e
    case Send(block) => SendIgnoresLedger(c, w, w', block);
    case Output(read) => OutputIgnoresLedger(w, w', read);
    case _ =>
  }

  /** An open gate at an offset: the delay is `offset` plus n per counted miss. */
  ghost predicate OffsetInv(c: Config, n: nat, offset: nat, w: World)
    requires ValidConfig(c)
  {
    && Inv(c, w) && !w.p.init && w.openStart == offset
    && w.missed == w.dropped + n * w.p.counter
    && (w.mid ==> |w.block| == n)
  }

  /** Samples in the input ring, in the running inference and in the output ring. */
  function Held(c: Config, w: World): int {
    w.p.inRing.count + InFlight(c, w) + w.p.outRing.count
  }

  /** A run with blocks of n samples in which every block fits beside what the system holds. */
  predicate HeldRun(c: Config, n: nat, w: World, es: seq<Event>)
    decreases |es|
  {
    es == [] ||
    (RunningEvent(w, es[0]) && Enabled(c, w, es[0])
     && (es[0].Send? ==> |es[0].block| == n && Held(c, w) + n < c.cap)
     && HeldRun(c, n, Next(c, w, es[0]), es[1..]))
  }

  lemma OffsetStep(c: Config, n: nat, offset: nat, w: World, e: Event)
    requires ValidConfig(c) && OffsetInv(c, n, offset, w) && RunningEvent(w, e) && Enabled(c, w, e)
    requires e.Send? ==> |e.block| == n && Held(c, w) + n < c.cap
    ensures OffsetInv(c, n, offset, Next(c, w, e))
  {
    SystemTotal(c, w);
    NextKeepsInv(c, w, e);
    if e.Output? {
      OffsetAnswer(c, n, offset, w, e.read);
    }
  }

  lemma OffsetAnswer(c: Config, n: nat, offset: nat, w: World, read: Reading)
    requires ValidConfig(c) && OffsetInv(c, n, offset, w) && w.mid && !read.Drained?
    ensures var w' := OutputStep(w, read); w'.missed == w'.dropped + n * w'.p.counter && !w'.mid
    ensures !OutputStep(w, read).p.init && OutputStep(w, read).openStart == offset
  {
    OutputPipe(w.p, w.block, Seen(w, read));
    assert n * (w.p.counter + 1) == n * w.p.counter + n;
    assert n * (w.p.counter - 1) == n * w.p.counter - n;
  }

  lemma {:induction false} OffsetRun(c: Config, n: nat, offset: nat, w: World, es: seq<Event>)
    requires ValidConfig(c) && OffsetInv(c, n, offset, w) && HeldRun(c, n, w, es)
    ensures IsRun(c, w, es) && OffsetInv(c, n, offset, RunFrom(c, w, es))
    decreases |es|
  {
    if es != [] {
      OffsetStep(c, n, offset, w, es[0]);
      OffsetRun(c, n, offset, Next(c, w, es[0]), es[1..]);
    }
  }

  /** The next block is silent and counted, or the model's signal late by `offset` plus n per counted miss. */
  ghost predicate HeardLate(c: Config, n: nat, offset: nat, w: World, read: Reading)
    requires ValidConfig(c) && w.p.Valid()
  {
    var w', out := OutputStep(w, read), Heard(w, read);
    && c.M * w.launches <= |w.fed|
    && ((w'.p.counter == w.p.counter + 1 && out == Silence(n))
        || (|out| == n && IsStream(c, w, |w.fed| - n - offset - n * w'.p.counter, out)))
  }

  lemma OffsetIsHeard(c: Config, n: nat, offset: nat, w: World, read: Reading)
    requires ValidConfig(c) && OffsetInv(c, n, offset, w) && w.mid && !read.Drained?
    ensures HeardLate(c, n, offset, w, read)
  {
    InvAnswersAsPromised(c, w, read);
    OffsetAnswer(c, n, offset, w, read);
    assert Delay(OutputStep(w, read)) == offset + n * OutputStep(w, read).p.counter;
  }

  lemma LateWindowIsOffset(c: Config, n: nat, w: World)
    requires ValidConfig(c) && WindowInv(c, w) && w.p.outRing.count == 0 == w.p.counter
    requires !w.p.init && !w.mid
    ensures OffsetInv(c, n, |w.fed|, Restarted(w))
  {
    assert c.M * w.launches == 0;
    assert w.fed[0..] == w.fed;
  }

  lemma OpenWhenLate(c: Config, n: nat, w: World)
    requires n > 0 && WindowInv(c, w) && |w.fed| >= c.M + c.K
    ensures !w.p.init && |w.fed| > Latency(c, n)
  {
    GateMeaning(c, n, 0);
  }

  /** What the late system shows: between blocks it holds `offset` plus n per counted miss, and every block is heard
      that late. */
  ghost predicate ShowsLate(c: Config, n: nat, offset: nat, w: World, read: Reading)
    requires ValidConfig(c)
  {
    && (!w.mid ==> Held(c, w) == offset + n * w.p.counter)
    && (Enabled(c, w, Output(read)) && !read.Drained? ==> HeardLate(c, n, offset, w, read))
  }

  lemma OffsetShows(c: Config, n: nat, offset: nat, w: World, w': World, read: Reading)
    requires ValidConfig(c) && OffsetInv(c, n, offset, w) && SameButLedger(w', w)
    ensures ShowsLate(c, n, offset, w', read)
  {
    SystemTotal(c, w);
    if w.mid && !read.Drained? {
      OffsetIsHeard(c, n, offset, w, read);
      HeardIgnoresLedger(c, n, offset, w, w', read);
    }
  }

  lemma AnswerIgnoresLedger(w: World, w': World, read: Reading)
    requires w.p.Valid() && SameButLedger(w', w)
    ensures Heard(w', read) == Heard(w, read) && OutputStep(w', read).p == OutputStep(w, read).p
  {
  }

  lemma HeardIgnoresLedger(c: Config, n: nat, offset: nat, w: World, w': World, read: Reading)
    requires ValidConfig(c) && w.p.Valid() && SameButLedger(w', w) && HeardLate(c, n, offset, w, read)
    ensures HeardLate(c, n, offset, w', read)
  {
    AnswerIgnoresLedger(w, w', read);
    StreamIgnoresLedger(c, w, w', |w.fed| - n - offset - n * OutputStep(w, read).p.counter, Heard(w, read));
  }

  lemma StreamIgnoresLedger(c: Config, w: World, w': World, from: int, out: seq<Sample>)
    requires ValidConfig(c) && c.M * w.launches <= |w.fed| && SameButLedger(w', w)
    ensures IsStream(c, w', from, out) == IsStream(c, w, from, out)
  {
  }

  lemma {:induction false} HeldRunIgnoresLedger(c: Config, n: nat, w: World, w': World, es: seq<Event>)
    requires SameButLedger(w, w') && HeldRun(c, n, w, es)
    ensures HeldRun(c, n, w', es) && IsRun(c, w, es)
    decreases |es|
  {
    if es != [] {
      StepIgnoresLedger(c, w, w', es[0]);
      HeldRunIgnoresLedger(c, n, Next(c, w, es[0]), Next(c, w', es[0]), es[1..]);
    }
  }

  /**
   Late for good. When the host delivers M + K samples or more in the window, then in every later run of the threads,
   however long, the system holds the window's samples plus n per counted miss, and every block is heard that late: by
   more than the reported latency even when the counter is 0.
   */
  lemma {:induction false} ReloadIsLateForGood(c: Config, n: nat, w0: World, g: Gaps, es: seq<Event>, read: Reading)
    requires ValidConfig(c) && n > 0 && HostGaps(g)
    requires IsRun(c, w0, UpToPrepare(g)) && IsRun(c, RunFrom(c, w0, UpToPrepare(g)), UpToCounter(g))
    requires |w0.p.inRing.slots| == |w0.p.outRing.slots| == c.cap
    requires c.M + c.K <= WindowSamples(g) < c.cap
    requires !RunFrom(c, RunFrom(c, w0, UpToPrepare(g)), UpToCounter(g)).mid
    requires HeldRun(c, n, RunFrom(c, RunFrom(c, w0, UpToPrepare(g)), UpToCounter(g)), es)
    ensures var w := RunFrom(c, RunFrom(c, w0, UpToPrepare(g)), UpToCounter(g));
      IsRun(c, w, es) && ShowsLate(c, n, WindowSamples(g), RunFrom(c, w, es), read)
    ensures WindowSamples(g) > Latency(c, n)
  {
    WindowEnds(c, w0, g);
    var w := RunFrom(c, RunFrom(c, w0, UpToPrepare(g)), UpToCounter(g));
    OpenWhenLate(c, n, w);
    LateWindowIsOffset(c, n, w);
    HeldRunIgnoresLedger(c, n, w, Restarted(w), es);
    OffsetRun(c, n, WindowSamples(g), Restarted(w), es);
    RunIgnoresLedger(c, w, Restarted(w), es);
    OffsetShows(c, n, WindowSamples(g), RunFrom(c, Restarted(w), es), RunFrom(c, w, es), read);
  }
}
