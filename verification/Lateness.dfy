/**
 The exact deadline of every block, however late the inference thread starts or returns and whatever the block size
 (source/dsp/onnx/InferenceThread.cpp:26-42, OnnxProcessor.cpp:61-84): an answer behind the gate needs as many results,
 counted from the first, as samples have arrived, less the delay.
 */
module Lateness {
  import opened Samples
  import opened Rings
  import opened Protocol
  import opened Invariant
  import opened ConstantBlocks
  import opened Deadline

  /** The inferences that were started have pushed what an answer now needs at a delay of `delay` samples. */
  predicate Enough(c: Config, w: World, delay: int) {
    PushedCount(c, w) >= |w.fed| - delay
  }

  lemma {:induction false} UnreadAreEnough(c: Config, w: World)
    requires ValidConfig(c) && Inv(c, w) && w.mid && !w.p.init
    ensures w.p.outRing.count >= |w.block| <==> Enough(c, w, Delay(w))
  {
    StreamLength(c, w);
    PoppedBehindBlock(c, w);
    assert w.p.outRing.count == |w.p.outRing.Unread()|;
  }

  /** An answer is silent if and only if its count is torn, or whole with too few results. A drained count means too few
      and hides it, unless the block is longer than the ring. */
  predicate SilentIff(w: World, read: Reading, enough: bool)
    requires w.p.Valid()
  {
    && (Decide(w.p, |w.block|, Seen(w, read)).Miss? <==>
          read.Torn? || (read.Whole? && !enough) || (read.Drained? && |w.block| > |w.p.outRing.slots|))
    && (read.Drained? && |w.block| > 0 ==> !enough)
  }

  lemma InvSilentIff(c: Config, w: World, read: Reading)
    requires ValidConfig(c) && Inv(c, w) && !w.p.init && Enabled(c, w, Output(read))
    ensures SilentIff(w, read, Enough(c, w, Delay(w)))
  {
    UnreadAreEnough(c, w);
  }

  /** The deadline for block sizes that vary: the delay is the one the run has come to. */
  lemma {:induction false} EveryDeadline(c: Config, w0: World, es: seq<Event>, read: Reading)
    requires ValidConfig(c) && Inv(c, w0) && RoomyRun(c, w0, es)
    ensures IsRun(c, w0, es)
    ensures var w := RunFrom(c, w0, es);
      Enabled(c, w, Output(read)) && !w.p.init ==> SilentIff(w, read, Enough(c, w, Delay(w)))
  {
    RunKeepsInv(c, w0, es);
    var w := RunFrom(c, w0, es);
    if Enabled(c, w, Output(read)) && !w.p.init {
      InvSilentIff(c, w, read);
    }
  }

  // ---- blocks of one size ----

  /** Blocks of n samples; nothing is asked of the inference thread. */
  predicate BlockRun(c: Config, n: nat, w: World, es: seq<Event>)
    decreases |es|
  {
    es == [] ||
    (&& Enabled(c, w, es[0]) && ThreadEvent(es[0]) && (es[0].Send? ==> |es[0].block| == n)
     && BlockRun(c, n, Next(c, w, es[0]), es[1..]))
  }

  /** With the gate open the count is whole, and the results up to the reported latency ago are there. */
  predicate Served(c: Config, n: nat, w: World, e: Event)
    requires n > 0
  {
    e.Output? && !w.p.init ==> e.read.Whole? && Enough(c, w, Latency(c, n))
  }

  predicate AllServed(c: Config, n: nat, w: World, es: seq<Event>)
    requires n > 0 && IsRun(c, w, es)
    decreases |es|
  {
    es == [] || (Served(c, n, w, es[0]) && AllServed(c, n, Next(c, w, es[0]), es[1..]))
  }

  lemma ServedOrNot(c: Config, n: nat, w: World, e: Event)
    requires ValidConfig(c) && n > 0 && ConstInv(c, n, w) && w.p.counter == 0
    requires Enabled(c, w, e) && ThreadEvent(e) && !DrainedWhileOpen(w, e)
    ensures Next(c, w, e).p.counter == if Served(c, n, w, e) then 0 else 1
  {
    if e.Output? {
      AnswerIs(w, e.read);
      if !w.p.init {
        assert Delay(w) == Latency(c, n);
        InvSilentIff(c, w, e.read);
      }
    }
  }

  lemma ServedIsNotDrained(c: Config, n: nat, w: World, e: Event)
    requires n > 0 && Served(c, n, w, e)
    ensures !DrainedWhileOpen(w, e)
  {
  }

  lemma {:induction false} BlockRunIsRun(c: Config, n: nat, w: World, es: seq<Event>)
    requires BlockRun(c, n, w, es)
    ensures IsRun(c, w, es)
    decreases |es|
  {
    if es != [] {
      BlockRunIsRun(c, n, Next(c, w, es[0]), es[1..]);
    }
  }

  /**
   The exact deadline for any block size and any inference thread. No block of a run is missed and no drained count is
   acted on, if and only if every answer behind the gate reads a whole count and finds all results up to the reported
   latency ago; what is heard is then the model's signal at that latency (ConstantBlocks.DelayIsTheLatency).
   */
  lemma {:induction false} ExactForEveryThread(c: Config, n: nat, w: World, es: seq<Event>)
    requires ValidConfig(c) && n > 0 && Latency(c, n) + n < c.cap && c.M + c.K > 0
    requires ConstInv(c, n, w) && w.p.counter == 0 && BlockRun(c, n, w, es)
    ensures IsRun(c, w, es)
    ensures CounterStaysZero(c, w, es) && NeverDrainedWhileOpen(c, w, es) <==> AllServed(c, n, w, es)
    decreases |es|
  {
    BlockRunIsRun(c, n, w, es);
    LatencyIsNonNegative(c, n);
    if es != [] && !DrainedWhileOpen(w, es[0]) {
      ServedOrNot(c, n, w, es[0]);
      var w1 := Next(c, w, es[0]);
      if w1.p.counter == 0 {
        assert n * (w.p.counter + 1) == n;
        NextKeepsConstInv(c, n, w, es[0]);
        ExactForEveryThread(c, n, w1, es[1..]);
      } else {
        assert !CounterStaysZero(c, w1, es[1..]);
      }
    }
  }
}
