/**
 The deadline of the model. With a block size n that divides M and K, an inference launched in block s has n * (j + 1)
 results due at the answer to block s + K/n + j; a model that keeps those dates is heard without a gap at exactly the
 reported latency, unless a count is torn.
 */
module Deadline {
  import opened Arithmetic
  import opened Samples
  import opened Rings
  import opened Protocol
  import opened Invariant
  import opened ConstantBlocks

  /** What a run must keep besides the deadline: blocks of n samples, and a thread that has returned when a chunk is
      full. */
  predicate Prompt(c: Config, n: nat, w: World, e: Event) {
    match e
    case Send(block) => |block| == n && (w.p.running ==> w.p.inRing.count + n < c.M)
    case _ => ThreadEvent(e)
  }

  predicate PromptRun(c: Config, n: nat, w: World, es: seq<Event>)
    decreases |es|
  {
    es == [] || (Enabled(c, w, es[0]) && Prompt(c, n, w, es[0]) && PromptRun(c, n, Next(c, w, es[0]), es[1..]))
  }

  /** Blocks answered since the first date of the running inference; negative before it. */
  function Overdue(c: Config, n: nat, w: World): int
    requires n > 0
  {
    w.blocks - 1 - w.launchBlock - c.K / n
  }

  /** The results due at this answer have been pushed. */
  predicate OnTime(c: Config, n: nat, w: World)
    requires n > 0
  {
    w.p.running && Overdue(c, n, w) >= 0 ==> w.pos >= n * (Overdue(c, n, w) + 1)
  }

  /** An answer that can be heard: with the gate open the count is whole and the results are on time. */
  predicate GoodAnswer(c: Config, n: nat, w: World, e: Event)
    requires n > 0
  {
    e.Output? && !w.p.init ==> e.read.Whole? && OnTime(c, n, w)
  }

  predicate GoodAnswers(c: Config, n: nat, w: World, es: seq<Event>)
    requires n > 0 && IsRun(c, w, es)
    decreases |es|
  {
    es == [] || (GoodAnswer(c, n, w, es[0]) && GoodAnswers(c, n, Next(c, w, es[0]), es[1..]))
  }

  predicate NeverDrainedWhileOpen(c: Config, w: World, es: seq<Event>)
    requires IsRun(c, w, es)
    decreases |es|
  {
    es == [] || (!DrainedWhileOpen(w, es[0]) && NeverDrainedWhileOpen(c, Next(c, w, es[0]), es[1..]))
  }

  /** No block of the run is ever counted as a miss. */
  predicate CounterStaysZero(c: Config, w: World, es: seq<Event>)
    requires IsRun(c, w, es)
    decreases |es|
  {
    w.p.counter == 0 && (es == [] || CounterStaysZero(c, Next(c, w, es[0]), es[1..]))
  }

  lemma {:induction false} PromptRunIsRun(c: Config, n: nat, w: World, es: seq<Event>)
    requires PromptRun(c, n, w, es)
    ensures IsRun(c, w, es)
    decreases |es|
  {
    if es != [] {
      PromptRunIsRun(c, n, Next(c, w, es[0]), es[1..]);
    }
  }

  predicate Divides(c: Config, n: nat)
    requires n > 0
  {
    c.M % n == 0 && c.K % n == 0
  }

  /** Blocks per chunk. */
  function PerChunk(c: Config, n: nat): nat
    requires n > 0
  {
    c.M / n
  }

  lemma InBlocks(c: Config, n: nat)
    requires n > 0 && Divides(c, n)
    ensures c.M == n * PerChunk(c, n) && c.K == n * (c.K / n)
    ensures Gate(c, n) == PerChunk(c, n) + c.K / n
  {
    var q, k, g := c.M / n, c.K / n, Gate(c, n);
    assert c.M + c.K == n * (q + k);
    GateMeaning(c, n, q + k);
    if q + k > 0 {
      GateMeaning(c, n, q + k - 1);
      assert n * (q + k - 1) == n * (q + k) - n;
    }
  }

  /** Launches happen every PerChunk blocks, nothing is missed or dropped. */
  predicate Steady(c: Config, n: nat, w: World)
    requires n > 0
  {
    var q := PerChunk(c, n);
    && !w.p.loading && w.p.counter == 0 && w.dropped == 0
    && q * w.launches <= w.blocks < q * w.launches + q
    && (w.launches > 0 ==> w.launchBlock + 1 == q * w.launches)
  }

  /** An output that is the dry input up to `start`, and from there the model's signal from its first sample. */
  predicate SignalFrom(start: int, raw: seq<Sample>, stream: seq<Sample>, out: seq<Sample>) {
    && |out| <= |raw| && |out| - start <= |stream|
    && forall i :: 0 <= i < |out| ==> out[i] == if i < start then raw[i] else stream[i - start]
  }

  predicate Signal(c: Config, n: nat, w: World)
    requires n > 0
  {
    && |w.emitted| + (if w.mid then n else 0) == |w.fed| == |w.raw|
    && SignalFrom(Latency(c, n), w.raw, w.stream, w.emitted)
  }

  lemma SignalGrows(start: int, raw: seq<Sample>, stream: seq<Sample>, out: seq<Sample>,
                    moreRaw: seq<Sample>, moreStream: seq<Sample>)
    requires SignalFrom(start, raw, stream, out)
    ensures SignalFrom(start, raw + moreRaw, stream + moreStream, out)
  {
  }

  lemma SignalTakesDry(start: int, raw: seq<Sample>, stream: seq<Sample>, out: seq<Sample>, block: seq<Sample>)
    requires SignalFrom(start, raw, stream, out)
    requires |out| + |block| <= |raw| && |out| + |block| <= start && block == raw[|out|..|out| + |block|]
    ensures SignalFrom(start, raw, stream, out + block)
  {
    assert forall i :: |out| <= i < |out| + |block| ==> (out + block)[i] == block[i - |out|] == raw[i];
  }

  lemma SignalTakesStream(start: nat, raw: seq<Sample>, stream: seq<Sample>, out: seq<Sample>, block: seq<Sample>)
    requires SignalFrom(start, raw, stream, out)
    requires start <= |out| && |out| + |block| <= |raw| && |out| - start + |block| <= |stream|
    requires block == stream[|out| - start..|out| - start + |block|]
    ensures SignalFrom(start, raw, stream, out + block)
  {
    assert forall i :: |out| <= i < |out| + |block| ==> (out + block)[i] == block[i - |out|] == stream[i - start];
  }

  ghost predicate DeadlineInv(c: Config, n: nat, w: World)
    requires ValidConfig(c) && n > 0
  {
    ConstInv(c, n, w) && SteadySignal(c, n, w)
  }

  predicate SteadySignal(c: Config, n: nat, w: World)
    requires n > 0
  {
    && Steady(c, n, w) && Signal(c, n, w)
    && (w.mid ==> |w.raw| >= n && w.block == w.raw[|w.raw| - n..])
  }

  lemma DeadlineFresh(c: Config, n: nat, w: World)
    requires ValidConfig(c) && n > 0 && c.M + c.K > 0 && Divides(c, n) && Fresh(c, w)
    ensures DeadlineInv(c, n, w)
  {
    ConstFresh(c, n, w);
    InBlocks(c, n);
    GateMeaning(c, n, 0);
  }

  // ---- sending ----

  /** A punctual send launches exactly when it completes a chunk. */
  lemma LaunchArithmetic(n: nat, q: nat, blocks: nat, launches: nat)
    requires n > 0 && q * launches <= blocks < q * launches + q
    ensures n * blocks + n >= n * q * launches + n * q <==> blocks + 1 == q * (launches + 1)
    ensures q * (launches + 1) == q * launches + q
  {
    MulAssociates(n, q, launches);
    var d := blocks + 1 - q * launches;
    MulSplits(n, blocks + 1, q * launches);
    if d < q {
      MulGap(n, q, d);
    }
  }

  lemma SentSteady(c: Config, n: nat, w: World, block: seq<Sample>)
    requires ValidConfig(c) && n > 0 && Divides(c, n) && DeadlineInv(c, n, w)
    requires Enabled(c, w, Send(block)) && Prompt(c, n, w, Send(block)) && Backlog(w) + n < c.cap
    ensures Steady(c, n, SendStep(c, w, block))
  {
    InBlocks(c, n);
    SendKeepsInv(c, w, block);
    LaunchArithmetic(n, PerChunk(c, n), w.blocks, w.launches);
    assert w.p.inRing.count == |w.fed| - c.M * w.launches;
    SentFields(c, w, block);
  }

  lemma SentFields(c: Config, w: World, block: seq<Sample>)
    requires w.p.Valid()
    ensures var w', launch := SendStep(c, w, block), Launches(c.M, w.p, block);
      && w'.p.loading == w.p.loading && w'.p.counter == w.p.counter && w'.dropped == w.dropped
      && w'.blocks == w.blocks + 1 && w'.launches == w.launches + (if launch then 1 else 0)
      && w'.launchBlock == (if launch then w.blocks else w.launchBlock)
      && w'.emitted == w.emitted && w'.stream == w.stream && w'.raw == w.raw + block && w'.mid && w'.block == block
      && |w'.fed| == |w.fed| + |block|
  {
  }

  lemma SentSignal(c: Config, n: nat, w: World, block: seq<Sample>)
    requires w.p.Valid() && n > 0 && Signal(c, n, w) && !w.mid && |block| == n
    ensures Signal(c, n, SendStep(c, w, block))
    ensures var w' := SendStep(c, w, block); w'.block == w'.raw[|w'.raw| - n..]
  {
    SentFields(c, w, block);
    SignalGrows(Latency(c, n), w.raw, w.stream, w.emitted, block, []);
    assert w.stream + [] == w.stream;
  }

  // ---- answering ----

  /** What is left of the stream at an answer, in terms of the running inference's results. */
  lemma StreamIsAhead(n: nat, q: nat, k: nat, blocks: nat, launches: nat, pos: nat)
    requires n > 0 && q + k <= blocks && q * launches <= blocks < q * launches + q
    ensures n * q * launches - n * (blocks - q - k) >= n
    ensures var j := blocks - q * launches - k;
      && n * q * launches - n * q + pos - n * (blocks - q - k) == pos - n * j
      && (j < 0 ==> -(n * j) >= n)
  {
    MulAssociates(n, q, launches);
    var sent, taken := q * launches, blocks - q - k;
    MulGap(n, sent, taken);
    var j := blocks - sent - k;
    MulSplits(n, sent, q);
    MulSplits(n, sent - q, taken);
    if j < 0 {
      MulGap(n, -j, 0);
    }
  }

  /** In a steady run nothing has been thrown away, so what is popped is what the gate let through. */
  lemma SteadyPopped(c: Config, n: nat, w: World)
    requires n > 0 && Divides(c, n) && ConstFacts(c, n, w) && Ledger(c, w)
    requires Steady(c, n, w) && w.mid && !w.p.init
    ensures w.blocks >= PerChunk(c, n) + c.K / n
    ensures w.popped == n * (w.blocks - PerChunk(c, n) - c.K / n)
  {
    InBlocks(c, n);
    var g := Gate(c, n);
    assert n * (w.blocks - g) == n * w.blocks - n * g;
    assert n * w.p.counter == 0;
  }

  lemma OutputCount(c: Config, w: World)
    requires ValidConfig(c) && Inv(c, w)
    ensures w.p.outRing.count == PushedCount(c, w) - w.popped
  {
    StreamLength(c, w);
    assert w.p.outRing.count == |w.p.outRing.Unread()|;
  }

  /** The count at an answer with the gate open: at least a block unless the running inference is late. */
  lemma AnswerCount(c: Config, n: nat, w: World)
    requires ValidConfig(c) && n > 0 && Divides(c, n) && DeadlineInv(c, n, w) && w.mid && !w.p.init
    ensures w.p.outRing.count >= n <==> OnTime(c, n, w)
  {
    SteadyPopped(c, n, w);
    OutputCount(c, w);
    InBlocks(c, n);
    var q, k := PerChunk(c, n), c.K / n;
    StreamIsAhead(n, q, k, w.blocks, w.launches, w.pos);
    if w.p.running {
      RunningCount(c, n, w);
      var j := Overdue(c, n, w);
      MulSplits(n, j, -1);
    }
  }

  lemma RunningCount(c: Config, n: nat, w: World)
    requires ValidConfig(c) && n > 0 && Divides(c, n) && DeadlineInv(c, n, w) && w.p.running
    ensures w.launches > 0 && PushedCount(c, w) == c.M * w.launches - c.M + w.pos
    ensures Overdue(c, n, w) == w.blocks - PerChunk(c, n) * w.launches - c.K / n
  {
    MulSplits(c.M, w.launches, 1);
  }

  /** What becomes of an answer behind the gate: on a whole count it is played iff the results are on time; on a torn
      count it is a miss; and a drained count needs late results, which it plays for heard. */
  lemma GoodAnswerPlays(c: Config, n: nat, w: World, read: Reading)
    requires ValidConfig(c) && n > 0 && Divides(c, n) && DeadlineInv(c, n, w)
    requires Enabled(c, w, Output(read)) && !w.p.init
    ensures read.Whole? ==> Decide(w.p, n, Seen(w, read)) == if OnTime(c, n, w) then Play else Miss
    ensures read.Torn? ==> Decide(w.p, n, Seen(w, read)) == Miss
    ensures read.Drained? ==> !OnTime(c, n, w) && (n <= c.cap ==> Decide(w.p, n, Seen(w, read)) == Play)
  {
    AnswerCount(c, n, w);
  }

  lemma AnsweredSteady(c: Config, n: nat, w: World)
    requires ValidConfig(c) && n > 0 && Divides(c, n) && DeadlineInv(c, n, w) && w.mid
    requires !w.p.init ==> OnTime(c, n, w)
    ensures Steady(c, n, OutputStep(w, Whole))
  {
    if !w.p.init {
      GoodAnswerPlays(c, n, w, Whole);
    }
  }

  lemma AnsweredSignal(c: Config, n: nat, w: World, p': Pipe, out: seq<Sample>)
    requires ValidConfig(c) && n > 0 && Divides(c, n) && DeadlineInv(c, n, w) && w.mid
    requires c.M + c.K > 0
    requires OutputRelation(w.p, w.block, if w.p.init then PassThrough else Play, p', out)
    ensures Signal(c, n, Answered(w, p', out, if w.p.init then PassThrough else Play))
  {
    var len, start := |w.emitted|, Latency(c, n);
    if w.p.init {
      BeforeGate(c, n, w.blocks);
      SignalTakesDry(start, w.raw, w.stream, w.emitted, out);
    } else {
      SteadyPopped(c, n, w);
      InBlocks(c, n);
      assert w.popped == len - start;
      SliceOfDrop(w.stream, w.popped, n);
      SignalTakesStream(start, w.raw, w.stream, w.emitted, out);
    }
  }

  lemma AnsweredPunctually(c: Config, n: nat, w: World)
    requires ValidConfig(c) && n > 0 && Divides(c, n) && c.M + c.K > 0 && DeadlineInv(c, n, w) && w.mid
    requires !w.p.init ==> OnTime(c, n, w)
    ensures Signal(c, n, OutputStep(w, Whole))
  {
    var (p', out) := ProcessOutput(w.p, w.block, Seen(w, Whole));
    OutputPipe(w.p, w.block, Seen(w, Whole));
    if !w.p.init {
      GoodAnswerPlays(c, n, w, Whole);
    }
    AnsweredSignal(c, n, w, p', out);
  }

  lemma PushedSignal(c: Config, n: nat, w: World, x: Sample, ring: Ring)
    requires n > 0 && Signal(c, n, w)
    ensures Signal(c, n, PushedOne(w, x, ring))
  {
    SignalGrows(Latency(c, n), w.raw, w.stream, w.emitted, [], [x]);
    assert w.raw + [] == w.raw;
  }

  lemma SendSteadySignal(c: Config, n: nat, w: World, block: seq<Sample>)
    requires ValidConfig(c) && n > 0 && Divides(c, n) && Latency(c, n) + n < c.cap
    requires DeadlineInv(c, n, w) && Enabled(c, w, Send(block)) && Prompt(c, n, w, Send(block))
    ensures SteadySignal(c, n, Next(c, w, Send(block)))
  {
    BacklogBound(c, n, w);
    SentSteady(c, n, w, block);
    SentSignal(c, n, w, block);
  }

  lemma OutputSteadySignal(c: Config, n: nat, w: World)
    requires ValidConfig(c) && n > 0 && Divides(c, n) && c.M + c.K > 0
    requires DeadlineInv(c, n, w) && w.mid && (!w.p.init ==> OnTime(c, n, w))
    ensures SteadySignal(c, n, OutputStep(w, Whole))
  {
    AnsweredSteady(c, n, w);
    AnsweredPunctually(c, n, w);
  }

  lemma PushSteadySignal(c: Config, n: nat, w: World)
    requires ValidConfig(c) && n > 0 && DeadlineInv(c, n, w) && Enabled(c, w, PushResult)
    ensures SteadySignal(c, n, Next(c, w, PushResult))
  {
    PushedSignal(c, n, w, Clean(Result(c, w)[w.pos]), Push(w.p.outRing, Result(c, w)[w.pos]));
  }

  lemma NextKeepsDeadlineInv(c: Config, n: nat, w: World, e: Event)
    requires ValidConfig(c) && n > 0 && Divides(c, n) && c.M + c.K > 0 && Latency(c, n) + n < c.cap
    requires DeadlineInv(c, n, w) && Enabled(c, w, e) && Prompt(c, n, w, e) && GoodAnswer(c, n, w, e)
    ensures DeadlineInv(c, n, Next(c, w, e))
  {
    PromptEventFits(c, n, w, e);
    NextKeepsConstInv(c, n, w, e);
    match e
    case Send(block) => SendSteadySignal(c, n, w, block);
    case Output(read) =>
      if w.p.init {
        PassingIgnoresTheCount(w, read);
      }
      OutputSteadySignal(c, n, w);
    case PushResult => PushSteadySignal(c, n, w);
    case Finish =>
    case LoadEnd =>
  }

  /** While the gate is closed the count does not matter. */
  lemma PassingIgnoresTheCount(w: World, read: Reading)
    requires w.p.Valid() && w.p.init
    ensures OutputStep(w, read) == OutputStep(w, Whole)
  {
  }

  lemma PromptEventFits(c: Config, n: nat, w: World, e: Event)
    requires n > 0 && Latency(c, n) + n < c.cap && Steady(c, n, w) && Prompt(c, n, w, e) && GoodAnswer(c, n, w, e)
    ensures RunningEvent(w, e) && Fits(c, n, w, e)
  {
    assert n * (w.p.counter + 1) == n;
  }

  lemma {:induction false} RunKeepsDeadlineInv(c: Config, n: nat, w: World, es: seq<Event>)
    requires ValidConfig(c) && n > 0 && Divides(c, n) && c.M + c.K > 0 && Latency(c, n) + n < c.cap
    requires DeadlineInv(c, n, w) && PromptRun(c, n, w, es) && IsRun(c, w, es) && GoodAnswers(c, n, w, es)
    ensures DeadlineInv(c, n, RunFrom(c, w, es))
    decreases |es|
  {
    if es != [] {
      NextKeepsDeadlineInv(c, n, w, es[0]);
      RunKeepsDeadlineInv(c, n, Next(c, w, es[0]), es[1..]);
    }
  }

  lemma BadAnswerCounts(c: Config, n: nat, w: World, e: Event)
    requires ValidConfig(c) && n > 0 && Divides(c, n) && DeadlineInv(c, n, w)
    requires Enabled(c, w, e) && !GoodAnswer(c, n, w, e) && !DrainedWhileOpen(w, e)
    ensures Next(c, w, e).p.counter == 1 && Heard(w, e.read) == Silence(n)
  {
    GoodAnswerPlays(c, n, w, e.read);
  }

  lemma {:induction false} CounterStaysZeroIff(c: Config, n: nat, w: World, es: seq<Event>)
    requires ValidConfig(c) && n > 0 && Divides(c, n) && c.M + c.K > 0 && Latency(c, n) + n < c.cap
    requires DeadlineInv(c, n, w) && PromptRun(c, n, w, es)
    ensures IsRun(c, w, es)
    ensures CounterStaysZero(c, w, es) && NeverDrainedWhileOpen(c, w, es) <==> GoodAnswers(c, n, w, es)
    decreases |es|
  {
    PromptRunIsRun(c, n, w, es);
    if es != [] {
      var w1 := Next(c, w, es[0]);
      if GoodAnswer(c, n, w, es[0]) {
        NextKeepsDeadlineInv(c, n, w, es[0]);
        CounterStaysZeroIff(c, n, w1, es[1..]);
      } else if !DrainedWhileOpen(w, es[0]) {
        BadAnswerCounts(c, n, w, es[0]);
        assert !CounterStaysZero(c, w1, es[1..]);
      }
    }
  }

  /** Nothing was missed; the output is the dry input for latency samples and then the model's results on the
      consecutive chunks of the input. */
  ghost predicate HeardWithoutAGap(c: Config, n: nat, w: World)
    requires ValidConfig(c) && n > 0
  {
    && w.missed == 0
    && c.M * w.launches <= |w.fed| && w.fed == CleanAll(w.raw)
    && SignalFrom(Latency(c, n), w.raw, ModelStream(c, w.fed, w.launches), w.emitted)
    && |w.emitted| == |w.raw| - (if w.mid then n else 0)
  }

  /**
   Deadline theorem, exact. The counter stays 0 in every state of a prompt run and no drained count is acted on, if
   and only if every answer with the gate open found its results on time and read a whole count; and then the model
   is heard without a gap.
   */
  lemma {:induction false} DeadlineIsExact(c: Config, n: nat, w0: World, es: seq<Event>)
    requires ValidConfig(c) && n > 0 && Divides(c, n) && c.M + c.K > 0 && Latency(c, n) + n < c.cap
    requires DeadlineInv(c, n, w0) && PromptRun(c, n, w0, es)
    ensures IsRun(c, w0, es)
    ensures CounterStaysZero(c, w0, es) && NeverDrainedWhileOpen(c, w0, es) <==> GoodAnswers(c, n, w0, es)
    ensures GoodAnswers(c, n, w0, es) ==> HeardWithoutAGap(c, n, RunFrom(c, w0, es))
  {
    CounterStaysZeroIff(c, n, w0, es);
    if GoodAnswers(c, n, w0, es) {
      RunKeepsDeadlineInv(c, n, w0, es);
      StreamExtends(c, n, RunFrom(c, w0, es));
    }
  }

  /**
   The dates are tight. After a prompt run whose answers were all good, the next block behind the gate is silent if
   and only if its count is torn, or whole and the inference has pushed fewer results than are due; a drained count
   is read only when they are late, and hides it.
   */
  lemma {:induction false} DeadlineIsTight(c: Config, n: nat, w0: World, es: seq<Event>, read: Reading)
    requires ValidConfig(c) && n > 0 && Divides(c, n) && c.M + c.K > 0 && Latency(c, n) + n < c.cap
    requires DeadlineInv(c, n, w0) && PromptRun(c, n, w0, es) && IsRun(c, w0, es) && GoodAnswers(c, n, w0, es)
    ensures var w := RunFrom(c, w0, es);
      Enabled(c, w, Output(read)) && !w.p.init ==>
        && (Decide(w.p, n, Seen(w, read)).Miss? <==> read.Torn? || (read.Whole? && !OnTime(c, n, w)))
        && (read.Drained? ==> !OnTime(c, n, w))
  {
    RunKeepsDeadlineInv(c, n, w0, es);
    var w := RunFrom(c, w0, es);
    if Enabled(c, w, Output(read)) && !w.p.init {
      LatencyIsNonNegative(c, n);
      GoodAnswerPlays(c, n, w, read);
    }
  }

  lemma LatencyIsNonNegative(c: Config, n: nat)
    requires n > 0 && c.M + c.K > 0
    ensures Latency(c, n) >= 0
  {
    BeforeGate(c, n, 0);
    GateMeaning(c, n, 0);
  }

  // ---- one deadline per inference ----

  /** The simple obligation: at block launchBlock + K/n or later all results are pushed. */
  predicate Punctual(c: Config, n: nat, w: World, e: Event)
    requires n > 0
  {
    Prompt(c, n, w, e) && (e.Output? && !w.p.init && w.p.running && Overdue(c, n, w) >= 0 ==> w.pos >= c.M)
  }

  predicate PunctualRun(c: Config, n: nat, w: World, es: seq<Event>)
    requires n > 0
    decreases |es|
  {
    es == [] || (Enabled(c, w, es[0]) && Punctual(c, n, w, es[0]) && PunctualRun(c, n, Next(c, w, es[0]), es[1..]))
  }

  predicate TornWhileOpen(w: World, e: Event) {
    e.Output? && e.read.Torn? && !w.p.init
  }

  predicate NeverTornWhileOpen(c: Config, w: World, es: seq<Event>)
    requires IsRun(c, w, es)
    decreases |es|
  {
    es == [] || (!TornWhileOpen(w, es[0]) && NeverTornWhileOpen(c, Next(c, w, es[0]), es[1..]))
  }

  lemma {:induction false} PunctualRunIsPrompt(c: Config, n: nat, w: World, es: seq<Event>)
    requires n > 0 && PunctualRun(c, n, w, es)
    ensures PromptRun(c, n, w, es) && IsRun(c, w, es)
    decreases |es|
  {
    if es != [] {
      PunctualRunIsPrompt(c, n, Next(c, w, es[0]), es[1..]);
    }
  }

  lemma PunctualIsOnTime(c: Config, n: nat, w: World, e: Event)
    requires ValidConfig(c) && n > 0 && Divides(c, n) && DeadlineInv(c, n, w)
    requires Enabled(c, w, e) && Punctual(c, n, w, e)
    ensures GoodAnswer(c, n, w, e) <==> !TornWhileOpen(w, e)
    ensures !DrainedWhileOpen(w, e)
  {
    if e.Output? && !w.p.init {
      if w.p.running && Overdue(c, n, w) >= 0 {
        RunningCount(c, n, w);
        InBlocks(c, n);
        MulOrder(n, Overdue(c, n, w), PerChunk(c, n));
        MulSplits(n, Overdue(c, n, w), -1);
      }
      AnswerCount(c, n, w);
    }
  }

  /** An answer on time is never drained, so with a punctual model only torn counts are left. */
  lemma {:induction false} PunctualAnswersAreGood(c: Config, n: nat, w: World, es: seq<Event>)
    requires ValidConfig(c) && n > 0 && Divides(c, n) && c.M + c.K > 0 && Latency(c, n) + n < c.cap
    requires DeadlineInv(c, n, w) && PunctualRun(c, n, w, es) && IsRun(c, w, es)
    ensures GoodAnswers(c, n, w, es) <==> NeverTornWhileOpen(c, w, es)
    ensures CounterStaysZero(c, w, es) <==> NeverTornWhileOpen(c, w, es)
    decreases |es|
  {
    if es != [] {
      PunctualIsOnTime(c, n, w, es[0]);
      if GoodAnswer(c, n, w, es[0]) {
        NextKeepsDeadlineInv(c, n, w, es[0]);
        PunctualAnswersAreGood(c, n, Next(c, w, es[0]), es[1..]);
      } else {
        BadAnswerCounts(c, n, w, es[0]);
        assert !CounterStaysZero(c, Next(c, w, es[0]), es[1..]);
      }
    }
  }

  /**
   With a model that is done by block launchBlock + K/n, the counter stays 0 if and only if no answer with the gate open
   read a torn count; and then none read a drained one and the model is heard without a gap.
   */
  lemma {:induction false} PunctualModelIsHeardWithoutAGap(c: Config, n: nat, w0: World, es: seq<Event>)
    requires ValidConfig(c) && n > 0 && Divides(c, n) && c.M + c.K > 0 && Latency(c, n) + n < c.cap
    requires DeadlineInv(c, n, w0) && PunctualRun(c, n, w0, es)
    ensures IsRun(c, w0, es)
    ensures CounterStaysZero(c, w0, es) <==> NeverTornWhileOpen(c, w0, es)
    ensures CounterStaysZero(c, w0, es) ==> NeverDrainedWhileOpen(c, w0, es)
    ensures CounterStaysZero(c, w0, es) ==> HeardWithoutAGap(c, n, RunFrom(c, w0, es))
  {
    PunctualRunIsPrompt(c, n, w0, es);
    DeadlineIsExact(c, n, w0, es);
    PunctualAnswersAreGood(c, n, w0, es);
  }

  lemma StreamExtends(c: Config, n: nat, w: World)
    requires ValidConfig(c) && n > 0 && DeadlineInv(c, n, w)
    ensures SignalFrom(Latency(c, n), w.raw, ModelStream(c, w.fed, w.launches), w.emitted)
  {
    var all := ModelStream(c, w.fed, w.launches);
    SignalGrows(Latency(c, n), w.raw, w.stream, w.emitted, [], all[|w.stream|..]);
    assert w.stream + all[|w.stream|..] == all;
    assert w.raw + [] == w.raw;
  }

  // ---- both failures happen ----

  /** A run so far without a fault. */
  predicate FaultlessRun(c: Config, n: nat, w: World, es: seq<Event>)
    requires n > 0
  {
    PunctualRun(c, n, w, es) && IsRun(c, w, es) && NeverTornWhileOpen(c, w, es)
  }

  lemma {:induction false} FaultlessRunExtends(c: Config, n: nat, w: World, es: seq<Event>, e: Event)
    requires n > 0 && FaultlessRun(c, n, w, es)
    requires var w' := RunFrom(c, w, es); Enabled(c, w', e) && Punctual(c, n, w', e) && !TornWhileOpen(w', e)
    ensures FaultlessRun(c, n, w, es + [e])
    ensures RunFrom(c, w, es + [e]) == Next(c, RunFrom(c, w, es), e)
    decreases |es|
  {
    if es == [] {
      var w' := Next(c, w, e);
      assert [] + [e] == [e] && [e][1..] == [];
      assert PunctualRun(c, n, w', []) && IsRun(c, w', []) && NeverTornWhileOpen(c, w', []);
      assert RunFrom(c, w', []) == w';
    } else {
      assert (es + [e])[1..] == es[1..] + [e];
      FaultlessRunExtends(c, n, Next(c, w, es[0]), es[1..], e);
    }
  }

  lemma FaultlessRunKeepsInv(c: Config, n: nat, w: World, es: seq<Event>)
    requires ValidConfig(c) && n > 0 && Divides(c, n) && c.M + c.K > 0 && Latency(c, n) + n < c.cap
    requires DeadlineInv(c, n, w) && FaultlessRun(c, n, w, es)
    ensures DeadlineInv(c, n, RunFrom(c, w, es))
  {
    PunctualRunIsPrompt(c, n, w, es);
    PunctualAnswersAreGood(c, n, w, es);
    RunKeepsDeadlineInv(c, n, w, es);
  }

  /** Between blocks in the first two chunks: the first inference has pushed nothing yet. */
  predicate Waiting(w: World) {
    w.pos == 0 && (w.p.running <==> w.launches > 0)
  }

  lemma SecondChunkOpen(n: nat, q: nat, blocks: nat, launches: nat)
    requires n > 0 && q * launches <= blocks && blocks + 1 < 2 * q
    ensures launches < 2 && n * blocks + n < 2 * (n * q)
  {
    if launches >= 2 {
      MulMonotone(q, 2, launches);
    }
    MulOrder(n, blocks + 1, 2 * q);
    MulSplits(n, blocks, -1);
    MulAssociates(2, n, q);
    assert n * (2 * q) == 2 * n * q;
  }

  lemma WaitingIsPrompt(c: Config, n: nat, w: World)
    requires ValidConfig(c) && n > 0 && Divides(c, n)
    requires DeadlineInv(c, n, w) && Waiting(w) && w.blocks + 1 < 2 * PerChunk(c, n)
    ensures w.p.running ==> w.p.inRing.count + n < c.M
  {
    InBlocks(c, n);
    SecondChunkOpen(n, PerChunk(c, n), w.blocks, w.launches);
    assert w.p.inRing.count == |w.p.inRing.Unread()| == |w.fed| - c.M * w.launches;
  }

  lemma SendKeepsWaiting(c: Config, w: World, block: seq<Sample>)
    requires w.p.Valid() && Waiting(w)
    ensures Waiting(SendStep(c, w, block))
  {
  }

  lemma WaitingSend(c: Config, n: nat, w: World)
    requires ValidConfig(c) && n > 0 && Divides(c, n)
    requires DeadlineInv(c, n, w) && Waiting(w) && !w.mid && w.blocks + 1 < 2 * PerChunk(c, n)
    ensures var e := Send(Silence(n)); Enabled(c, w, e) && Punctual(c, n, w, e) && Waiting(Next(c, w, e))
  {
    WaitingIsPrompt(c, n, w);
    SendKeepsWaiting(c, w, Silence(n));
  }

  /** m silent blocks, all before the gate. */
  lemma {:induction false} ClosedRounds(c: Config, n: nat, w0: World, m: nat) returns (es: seq<Event>)
    requires ValidConfig(c) && n > 0 && Divides(c, n) && c.K < c.M && Latency(c, n) + n < c.cap
    requires Fresh(c, w0) && m < Gate(c, n)
    ensures FaultlessRun(c, n, w0, es)
    ensures var w := RunFrom(c, w0, es); DeadlineInv(c, n, w) && Waiting(w) && !w.mid && w.blocks == m
    decreases m
  {
    DeadlineFresh(c, n, w0);
    if m == 0 {
      es := [];
    } else {
      var before := ClosedRounds(c, n, w0, m - 1);
      var w := RunFrom(c, w0, before);
      GateBelowTwoChunks(c, n);
      WaitingSend(c, n, w);
      var e := Send(Silence(n));
      FaultlessRunExtends(c, n, w0, before, e);
      FaultlessRunKeepsInv(c, n, w0, before + [e]);
      var w1 := Next(c, w, e);
      PassingAnswer(c, n, w1);
      FaultlessRunExtends(c, n, w0, before + [e], Output(Whole));
      es := before + [e] + [Output(Whole)];
      FaultlessRunKeepsInv(c, n, w0, es);
    }
  }

  lemma PassingAnswer(c: Config, n: nat, w: World)
    requires ValidConfig(c) && n > 0 && DeadlineInv(c, n, w) && w.mid && w.blocks < Gate(c, n) && Waiting(w)
    ensures Enabled(c, w, Output(Whole)) && Punctual(c, n, w, Output(Whole)) && !TornWhileOpen(w, Output(Whole))
    ensures var w' := OutputStep(w, Whole); !w'.mid && Waiting(w') && w'.blocks == w.blocks
  {
  }

  lemma GateBelowTwoChunks(c: Config, n: nat)
    requires n > 0 && Divides(c, n) && c.K < c.M
    ensures PerChunk(c, n) <= Gate(c, n) < 2 * PerChunk(c, n)
  {
    InBlocks(c, n);
    MulOrder(n, c.K / n, PerChunk(c, n));
  }

  /** The first block behind the gate, with the first inference due and nothing pushed. */
  lemma ReachFirstDate(c: Config, n: nat, w0: World) returns (es: seq<Event>)
    requires ValidConfig(c) && n > 0 && Divides(c, n) && c.K < c.M && Latency(c, n) + n < c.cap && Fresh(c, w0)
    ensures FaultlessRun(c, n, w0, es)
    ensures var w := RunFrom(c, w0, es);
      DeadlineInv(c, n, w) && w.mid && !w.p.init && w.p.running && w.launches > 0 && w.pos == 0 && Overdue(c, n, w) == 0
  {
    DeadlineFresh(c, n, w0);
    GateBelowTwoChunks(c, n);
    var before := ClosedRounds(c, n, w0, Gate(c, n) - 1);
    var w, e := RunFrom(c, w0, before), Send(Silence(n));
    WaitingSend(c, n, w);
    FaultlessRunExtends(c, n, w0, before, e);
    es := before + [e];
    FaultlessRunKeepsInv(c, n, w0, es);
    FirstDate(c, n, RunFrom(c, w0, es));
  }

  lemma OneLaunch(q: nat, k: nat, launches: nat)
    requires k < q && q * launches <= q + k < q * launches + q
    ensures launches == 1
  {
    if launches >= 2 {
      MulMonotone(q, 2, launches);
    }
  }

  lemma FirstDate(c: Config, n: nat, w: World)
    requires ValidConfig(c) && n > 0 && Divides(c, n) && c.K < c.M && Steady(c, n, w)
    requires w.blocks == Gate(c, n) && Waiting(w)
    ensures w.p.running && w.launches == 1 && Overdue(c, n, w) == 0
  {
    InBlocks(c, n);
    MulOrder(n, c.K / n, PerChunk(c, n));
    OneLaunch(PerChunk(c, n), c.K / n, w.launches);
  }

  /** Results that come too late do happen: for every K below M there is a faultless run whose next block is silent
      because the inference has pushed fewer than n results. */
  lemma LateResultsHappen(c: Config, n: nat, w0: World) returns (es: seq<Event>)
    requires ValidConfig(c) && n > 0 && Divides(c, n) && c.K < c.M && Latency(c, n) + n < c.cap && Fresh(c, w0)
    ensures FaultlessRun(c, n, w0, es)
    ensures var w := RunFrom(c, w0, es);
      && Enabled(c, w, Output(Whole)) && !w.p.init && w.p.running && w.pos < n
      && Heard(w, Whole) == Silence(n) && OutputStep(w, Whole).p.counter == 1
  {
    es := ReachFirstDate(c, n, w0);
    LateAnswer(c, n, RunFrom(c, w0, es));
  }

  lemma LateAnswer(c: Config, n: nat, w: World)
    requires ValidConfig(c) && n > 0 && Divides(c, n) && DeadlineInv(c, n, w)
    requires w.mid && !w.p.init && w.p.running && w.pos == 0 && Overdue(c, n, w) == 0
    ensures Enabled(c, w, Output(Whole)) && Heard(w, Whole) == Silence(n) && OutputStep(w, Whole).p.counter == 1
  {
    BadAnswerCounts(c, n, w, Output(Whole));
  }

  /** A state that differs only by results that were pushed. */
  predicate OnlyPushed(w: World, w': World) {
    w' == w.(p := w.p.(outRing := w'.p.outRing), pos := w'.pos, stream := w'.stream)
  }

  /** All results of the inference that this block started. */
  lemma {:induction false} PushSome(c: Config, n: nat, w0: World, before: seq<Event>, j: nat) returns (es: seq<Event>)
    requires ValidConfig(c) && n > 0 && Divides(c, n) && c.M + c.K > 0 && Latency(c, n) + n < c.cap
    requires DeadlineInv(c, n, w0) && FaultlessRun(c, n, w0, before) && j <= c.M
    requires var w := RunFrom(c, w0, before); w.p.running && w.launches > 0 && w.pos == 0
    ensures FaultlessRun(c, n, w0, es) && DeadlineInv(c, n, RunFrom(c, w0, es))
    ensures OnlyPushed(RunFrom(c, w0, before), RunFrom(c, w0, es)) && RunFrom(c, w0, es).pos == j
    decreases j
  {
    if j == 0 {
      es := before;
    } else {
      var fewer := PushSome(c, n, w0, before, j - 1);
      FaultlessRunExtends(c, n, w0, fewer, PushResult);
      es := fewer + [PushResult];
    }
    FaultlessRunKeepsInv(c, n, w0, es);
  }

  /** Between blocks, with the thread idle and the read position in its first lap. */
  predicate Resting(w: World) {
    !w.mid && !w.p.running && w.readPos == w.popped
  }

  lemma RestingSend(c: Config, n: nat, w: World)
    requires ValidConfig(c) && n > 0 && Resting(w) && DeadlineInv(c, n, w)
    ensures var e := Send(Silence(n)); Enabled(c, w, e) && Punctual(c, n, w, e)
    ensures var w' := SendStep(c, w, Silence(n));
      && w'.mid && w'.blocks == w.blocks + 1 && w'.popped == w'.readPos == w.popped && w'.active == w'.p.running
      && w'.sentCount == w.p.outRing.count && w'.stream == w.stream && w'.p.outRing == w.p.outRing
      && (w'.p.running ==> w'.pos == 0 && w'.launches == w.launches + 1)
      && (!w'.p.running ==> w'.launches == w.launches)
  {
  }

  lemma PlayMovesOn(w: World, read: Reading)
    requires w.p.Valid() && Decide(w.p, |w.block|, Seen(w, read)).Play?
    ensures var w' := OutputStep(w, read);
      && w'.popped == w.popped + |w.block| && w'.readPos == Advanced(w, |w.block|)
      && !w'.mid && w'.p.running == w.p.running && w'.blocks == w.blocks
  {
  }

  lemma FirstLap(w: World, k: nat)
    requires w.readPos + k < |w.p.outRing.slots|
    ensures Advanced(w, k) == w.readPos + k
  {
    DivModUnique(w.readPos + k, |w.p.outRing.slots|, 0, w.readPos + k);
  }

  lemma IdleOutputFits(c: Config, n: nat, w: World)
    requires ValidConfig(c) && n > 0 && Divides(c, n) && DeadlineInv(c, n, w) && w.mid && !w.p.running && !w.p.init
    requires c.M * w.launches < c.cap
    ensures OnTime(c, n, w) && w.popped + n < c.cap
  {
    AnswerCount(c, n, w);
    OutputCount(c, w);
  }

  /** The answer with the thread idle. */
  lemma RestingAnswer(c: Config, n: nat, w: World)
    requires ValidConfig(c) && n > 0 && Divides(c, n) && DeadlineInv(c, n, w) && w.mid && !w.p.running
    requires w.readPos == w.popped && c.M * w.launches < c.cap
    ensures var e := Output(Whole); Enabled(c, w, e) && Punctual(c, n, w, e) && !TornWhileOpen(w, e)
    ensures var w' := OutputStep(w, Whole); Resting(w') && w'.blocks == w.blocks
  {
    if !w.p.init {
      IdleOutputFits(c, n, w);
      GoodAnswerPlays(c, n, w, Whole);
      PlayMovesOn(w, Whole);
      FirstLap(w, n);
    }
  }

  lemma FewLaunches(q: nat, blocks: nat, launches: nat, most: nat, m: nat)
    requires q * launches <= blocks < q * most && most > 0
    ensures launches < most && m * launches <= m * (most - 1)
  {
    if launches >= most {
      MulMonotone(q, most, launches);
    }
    MulMonotone(m, launches, most - 1);
  }

  /** m silent blocks with a model that is done at once, while the output ring has not gone round. */
  lemma {:induction false} FastRounds(c: Config, n: nat, w0: World, m: nat, most: nat) returns (es: seq<Event>)
    requires ValidConfig(c) && n > 0 && Divides(c, n) && c.M + c.K > 0 && Latency(c, n) + n < c.cap && Fresh(c, w0)
    requires most > 0 && m < PerChunk(c, n) * most && c.M * (most - 1) < c.cap
    ensures FaultlessRun(c, n, w0, es)
    ensures var w := RunFrom(c, w0, es); DeadlineInv(c, n, w) && Resting(w) && w.blocks == m
    decreases m
  {
    DeadlineFresh(c, n, w0);
    if m == 0 {
      es := [];
    } else {
      var before := FastRounds(c, n, w0, m - 1, most);
      es := FastRound(c, n, w0, before);
      var w := RunFrom(c, w0, es);
      FewLaunches(PerChunk(c, n), m, w.launches, most, c.M);
      RestingAnswer(c, n, w);
      FaultlessRunExtends(c, n, w0, es, Output(Whole));
      es := es + [Output(Whole)];
      FaultlessRunKeepsInv(c, n, w0, es);
    }
  }

  /** A block, and the whole inference if it starts one. */
  lemma FastRound(c: Config, n: nat, w0: World, before: seq<Event>) returns (es: seq<Event>)
    requires ValidConfig(c) && n > 0 && Divides(c, n) && c.M + c.K > 0 && Latency(c, n) + n < c.cap
    requires DeadlineInv(c, n, w0) && FaultlessRun(c, n, w0, before)
    requires Resting(RunFrom(c, w0, before))
    ensures FaultlessRun(c, n, w0, es)
    ensures var w := RunFrom(c, w0, es);
      && DeadlineInv(c, n, w) && w.mid && !w.p.running && w.readPos == w.popped
      && w.blocks == RunFrom(c, w0, before).blocks + 1
  {
    var w, e := RunFrom(c, w0, before), Send(Silence(n));
    FaultlessRunKeepsInv(c, n, w0, before);
    RestingSend(c, n, w);
    FaultlessRunExtends(c, n, w0, before, e);
    es := before + [e];
    FaultlessRunKeepsInv(c, n, w0, es);
    if RunFrom(c, w0, es).p.running {
      es := PushSome(c, n, w0, es, c.M);
      FaultlessRunExtends(c, n, w0, es, Finish);
      es := es + [Finish];
      FaultlessRunKeepsInv(c, n, w0, es);
    }
  }

  /** The inference whose results pass the end of the ring's memory. */
  lemma PassingInference(c: Config, n: nat) returns (most: nat)
    requires ValidConfig(c) && n > 0 && Divides(c, n) && c.K < c.M && Latency(c, n) + n < c.cap
    ensures most >= 2 && c.M * (most - 1) < c.cap <= c.M * most
    ensures PerChunk(c, n) * most > Gate(c, n) && PerChunk(c, n) > 0
  {
    most := CeilDiv(c.cap, c.M);
    CeilingMeaning(c.cap, c.M, 1);
    MulSplits(c.M, most, 1);
    GateMeaning(c, n, 0);
    GateBelowTwoChunks(c, n);
    MulMonotone(PerChunk(c, n), 2, most);
  }

  /** The block that starts that inference, with all its results pushed before the second read of the write position. */
  lemma PassingBlockTears(c: Config, n: nat, w: World, w1: World, w2: World, most: nat)
    requires ValidConfig(c) && n > 0 && Divides(c, n) && DeadlineInv(c, n, w) && Resting(w)
    requires most > 0 && w.launches == most - 1 && c.M * (most - 1) < c.cap <= c.M * most
    requires w1 == SendStep(c, w, Silence(n)) && w1.p.running && w1.launches == most
    requires OnlyPushed(w1, w2) && w2.pos == c.M && DeadlineInv(c, n, w2)
    ensures MayTear(w2)
  {
    RestingSend(c, n, w);
    OutputCount(c, w);
    OutputCount(c, w2);
    MulSplits(c.M, most, 1);
  }

  lemma ChunkBlockLaunches(c: Config, n: nat, w: World, most: nat)
    requires ValidConfig(c) && n > 0 && Divides(c, n) && most > 0 && PerChunk(c, n) > 0
    requires Latency(c, n) + n < c.cap && DeadlineInv(c, n, w) && Resting(w)
    requires w.blocks + 1 == PerChunk(c, n) * most
    ensures var w1 := SendStep(c, w, Silence(n)); w.launches == most - 1 && w1.p.running && w1.launches == most
  {
    var q := PerChunk(c, n);
    BacklogBound(c, n, w);
    SentSteady(c, n, w, Silence(n));
    RestingSend(c, n, w);
    ExactLaunches(q, w.blocks, w.launches, most);
    ExactLaunches(q, w.blocks + 1, SendStep(c, w, Silence(n)).launches, most + 1);
  }

  lemma ExactLaunches(q: nat, blocks: nat, launches: nat, next: nat)
    requires q > 0 && next > 0 && q * launches <= blocks < q * launches + q
    requires q * (next - 1) <= blocks < q * next
    ensures launches == next - 1
  {
    if launches >= next {
      MulMonotone(q, next, launches);
    } else if launches + 1 <= next - 1 {
      MulMonotone(q, launches + 1, next - 1);
      MulSplits(q, launches, -1);
    }
  }

  /** A torn count does harm a punctual model: for every K below M there is a faultless run up to the block that
      starts the inference whose results pass the end of the output ring's memory. When all of them are pushed
      between the two reads of the write position, the count is torn and the block is silent although nothing is
      late. */
  lemma TornAnswerHappens(c: Config, n: nat, w0: World) returns (es: seq<Event>)
    requires ValidConfig(c) && n > 0 && Divides(c, n) && c.K < c.M && Latency(c, n) + n < c.cap && Fresh(c, w0)
    ensures FaultlessRun(c, n, w0, es)
    ensures var w := RunFrom(c, w0, es);
      && Enabled(c, w, Output(Torn)) && Punctual(c, n, w, Output(Torn)) && !w.p.init && w.pos == c.M
      && Heard(w, Torn) == Silence(n) && OutputStep(w, Torn).p.counter == 1
  {
    DeadlineFresh(c, n, w0);
    var most := PassingInference(c, n);
    var before := FastRounds(c, n, w0, PerChunk(c, n) * most - 1, most);
    var w, e := RunFrom(c, w0, before), Send(Silence(n));
    RestingSend(c, n, w);
    ChunkBlockLaunches(c, n, w, most);
    FaultlessRunExtends(c, n, w0, before, e);
    FaultlessRunKeepsInv(c, n, w0, before + [e]);
    es := PushSome(c, n, w0, before + [e], c.M);
    PassingBlockTears(c, n, w, RunFrom(c, w0, before + [e]), RunFrom(c, w0, es), most);
    TornAnswer(c, n, RunFrom(c, w0, es));
  }

  lemma TornAnswer(c: Config, n: nat, w: World)
    requires ValidConfig(c) && n > 0 && Divides(c, n) && DeadlineInv(c, n, w)
    requires w.mid && MayTear(w) && w.blocks >= Gate(c, n) && w.pos == c.M
    ensures Enabled(c, w, Output(Torn)) && Punctual(c, n, w, Output(Torn)) && !w.p.init
    ensures Heard(w, Torn) == Silence(n) && OutputStep(w, Torn).p.counter == 1
  {
    BadAnswerCounts(c, n, w, Output(Torn));
  }
}
