/**
 The protocol under a constant block size n: the delay becomes the reported latency plus one block per counted miss,
 the room condition becomes a condition on the counter, misses are repaid, and a punctual model never misses.
 */
module ConstantBlocks {
  import opened Arithmetic
  import Reporting = Latency
  import opened Samples
  import opened Rings
  import opened Protocol
  import opened Invariant

  /** ceil((M + K) / n): the block, counted from one, that opens the gate. */
  function Gate(c: Config, n: nat): (g: nat)
    requires n > 0
  {
    CeilDiv(c.M + c.K, n)
  }

  /** What the program reports to the host. */
  function Latency(c: Config, n: nat): int
    requires n > 0
  {
    Reporting.Reported(c.M + c.K, n)
  }

  lemma GateMeaning(c: Config, n: nat, blocks: nat)
    requires n > 0
    ensures n * blocks < c.M + c.K <==> blocks < Gate(c, n)
    ensures n * Gate(c, n) >= c.M + c.K > n * Gate(c, n) - n
  {
    CeilingMeaning(c.M + c.K, n, blocks);
  }

  /** Every block has n samples, and one arrives only while the counter leaves room for it. */
  predicate Fits(c: Config, n: nat, w: World, e: Event)
    requires n > 0
  {
    e.Send? ==> |e.block| == n && Latency(c, n) + n * (w.p.counter + 1) < c.cap
  }

  predicate ConstRun(c: Config, n: nat, w: World, es: seq<Event>)
    requires n > 0
    decreases |es|
  {
    es == [] ||
    (&& RunningEvent(w, es[0]) && Enabled(c, w, es[0]) && Fits(c, n, w, es[0])
     && ConstRun(c, n, Next(c, w, es[0]), es[1..]))
  }

  predicate ConstFacts(c: Config, n: nat, w: World)
    requires n > 0
  {
    && |w.fed| == n * w.blocks
    && (w.mid ==> |w.block| == n && w.blocks > 0)
    && (w.p.init <==> w.blocks < Gate(c, n))
    && (!w.p.init ==> w.openStart == Latency(c, n))
    && w.missed == w.dropped + n * w.p.counter
  }

  ghost predicate ConstInv(c: Config, n: nat, w: World)
    requires ValidConfig(c) && n > 0
  {
    Inv(c, w) && ConstFacts(c, n, w)
  }

  lemma ConstFresh(c: Config, n: nat, w: World)
    requires ValidConfig(c) && n > 0 && c.M + c.K > 0 && Fresh(c, w)
    ensures ConstInv(c, n, w)
  {
    InvFresh(c, w);
    GateMeaning(c, n, 0);
  }

  /** Between blocks the system holds at most the latency plus the counted blocks, so `Fits` implies room. */
  lemma BacklogBound(c: Config, n: nat, w: World)
    requires n > 0 && ConstFacts(c, n, w) && Ledger(c, w) && !w.mid
    ensures Backlog(w) <= Latency(c, n) + n * w.p.counter
    ensures !w.p.init ==> Backlog(w) == Latency(c, n) + n * w.p.counter
  {
    if w.p.init {
      BeforeGate(c, n, w.blocks);
    }
  }

  lemma BeforeGate(c: Config, n: nat, blocks: nat)
    requires n > 0
    ensures blocks < Gate(c, n) <==> n * blocks <= Latency(c, n)
  {
    MulOrder(n, blocks, Gate(c, n));
  }

  lemma SentFacts(c: Config, n: nat, w: World, block: seq<Sample>, p': Pipe, launch: bool)
    requires n > 0 && ConstFacts(c, n, w) && |block| == n
    requires p'.counter == w.p.counter
    requires p'.init <==> w.p.init && |w.fed| + n < c.M + c.K
    ensures ConstFacts(c, n, Sent(w, block, p', launch))
  {
    var b := w.blocks;
    assert n * (b + 1) == n * b + n;
    GateMeaning(c, n, b + 1);
    if b < Gate(c, n) <= b + 1 {
      assert n * b == n * Gate(c, n) - n;
    }
  }

  lemma SendFacts(c: Config, n: nat, w: World, block: seq<Sample>)
    requires n > 0 && ConstFacts(c, n, w) && Ledger(c, w) && w.p.Valid() && |block| == n
    ensures ConstFacts(c, n, SendStep(c, w, block))
  {
    SentFacts(c, n, w, block, SendAudio(c.M, c.K, w.p, block), Launches(c.M, w.p, block));
  }

  lemma AnsweredFacts(c: Config, n: nat, w: World, outcome: Outcome, p': Pipe, out: seq<Sample>)
    requires n > 0 && ConstFacts(c, n, w) && w.mid && w.p.Valid()
    requires OutputRelation(w.p, w.block, outcome, p', out)
    ensures ConstFacts(c, n, Answered(w, p', out, outcome))
  {
    assert n * (w.p.counter + 1) == n * w.p.counter + n;
    assert n * (w.p.counter - 1) == n * w.p.counter - n;
  }

  lemma OutputFacts(c: Config, n: nat, w: World, read: Reading)
    requires ValidConfig(c) && n > 0 && ConstInv(c, n, w) && w.mid && !DrainedWhileOpen(w, Output(read))
    ensures ConstFacts(c, n, OutputStep(w, read))
  {
    OutputPipe(w.p, w.block, Seen(w, read));
    var (p', out) := ProcessOutput(w.p, w.block, Seen(w, read));
    AnsweredFacts(c, n, w, Decide(w.p, |w.block|, Seen(w, read)), p', out);
  }

  lemma RoomForEvent(c: Config, n: nat, w: World, e: Event)
    requires n > 0 && ConstFacts(c, n, w) && Ledger(c, w)
    requires Enabled(c, w, e) && Fits(c, n, w, e)
    ensures HasRoom(c, w, e)
  {
    if e.Send? {
      BacklogBound(c, n, w);
      assert n * (w.p.counter + 1) == n * w.p.counter + n;
    }
  }

  lemma NextKeepsFacts(c: Config, n: nat, w: World, e: Event)
    requires ValidConfig(c) && n > 0 && ConstInv(c, n, w)
    requires RunningEvent(w, e) && Enabled(c, w, e) && Fits(c, n, w, e)
    ensures ConstFacts(c, n, Next(c, w, e))
  {
    match e
    case Send(block) => SendFacts(c, n, w, block);
    case Output(read) => OutputFacts(c, n, w, read);
    case PushResult =>
    case Finish =>
    case LoadEnd =>
  }

  lemma NextKeepsConstInv(c: Config, n: nat, w: World, e: Event)
    requires ValidConfig(c) && n > 0 && ConstInv(c, n, w)
    requires RunningEvent(w, e) && Enabled(c, w, e) && Fits(c, n, w, e)
    ensures HasRoom(c, w, e) && ConstInv(c, n, Next(c, w, e))
  {
    RoomForEvent(c, n, w, e);
    NextKeepsFacts(c, n, w, e);
    NextKeepsInv(c, w, e);
  }

  lemma {:induction false} RunKeepsConstInv(c: Config, n: nat, w: World, es: seq<Event>)
    requires ValidConfig(c) && n > 0 && ConstInv(c, n, w) && ConstRun(c, n, w, es)
    ensures IsRun(c, w, es) && ConstInv(c, n, RunFrom(c, w, es))
    decreases |es|
  {
    if es != [] {
      NextKeepsConstInv(c, n, w, es[0]);
      RunKeepsConstInv(c, n, Next(c, w, es[0]), es[1..]);
    }
  }

  /** Conservation: after every block handled with the gate open the system holds latency + n * counter samples. So no
      unread sample is ever overwritten while latency + n * (counter + 1) stays below the capacity. */
  lemma {:induction false} SystemHoldsTheLatency(c: Config, n: nat, w0: World, es: seq<Event>)
    requires ValidConfig(c) && n > 0 && ConstInv(c, n, w0) && ConstRun(c, n, w0, es)
    ensures IsRun(c, w0, es)
    ensures var w := RunFrom(c, w0, es);
      !w.p.init && !w.mid ==>
        w.p.inRing.count + InFlight(c, w) + w.p.outRing.count == Latency(c, n) + n * w.p.counter
  {
    RunKeepsConstInv(c, n, w0, es);
    var w := RunFrom(c, w0, es);
    SystemTotal(c, w);
    if !w.mid {
      BacklogBound(c, n, w);
    }
  }

  /** The signal a host sees in the block starting at t. */
  ghost predicate BlockAt(c: Config, n: nat, w: World, t: int, w': World, out: seq<Sample>)
    requires ValidConfig(c) && n > 0 && c.M * w.launches <= |w.fed|
  {
    if t < Latency(c, n) then out == w.block
    else
      || (w'.p.counter == w.p.counter + 1 && out == Silence(n))
      || (|out| == n && IsStream(c, w, t - Latency(c, n) - n * w'.p.counter, out))
  }

  ghost predicate AnswersWithLatency(c: Config, n: nat, w: World, read: Reading)
    requires ValidConfig(c) && n > 0 && w.p.Valid()
  {
    c.M * w.launches <= |w.fed| && BlockAt(c, n, w, |w.fed| - n, OutputStep(w, read), Heard(w, read))
  }

  /**
   End-to-end delay for a constant block size. The block starting at time t is the dry input when t is before the
   reported latency. Afterwards it is silent and counted, or it is the model's signal delayed by the latency plus
   n per counted miss; so with the counter at 0 the delay is the reported one.
   */
  lemma {:induction false} DelayIsTheLatency(c: Config, n: nat, w0: World, es: seq<Event>, read: Reading)
    requires ValidConfig(c) && n > 0 && ConstInv(c, n, w0) && ConstRun(c, n, w0, es)
    ensures IsRun(c, w0, es)
    ensures var w := RunFrom(c, w0, es);
      Enabled(c, w, Output(read)) && !DrainedWhileOpen(w, Output(read)) ==> AnswersWithLatency(c, n, w, read)
  {
    RunKeepsConstInv(c, n, w0, es);
    if RunFrom(c, w0, es).mid && !DrainedWhileOpen(RunFrom(c, w0, es), Output(read)) {
      ConstInvBlockAt(c, n, RunFrom(c, w0, es), read);
    }
  }

  lemma ConstInvBlockAt(c: Config, n: nat, w: World, read: Reading)
    requires ValidConfig(c) && n > 0 && ConstInv(c, n, w) && w.mid && !DrainedWhileOpen(w, Output(read))
    ensures AnswersWithLatency(c, n, w, read)
  {
    InvAnswersAsPromised(c, w, read);
    OutputFacts(c, n, w, read);
    OutputKeepsGate(w, read);
    BlockIsBlockAt(c, n, w, Decide(w.p, n, Seen(w, read)), OutputStep(w, read), Heard(w, read));
  }

  lemma OutputKeepsGate(w: World, read: Reading)
    requires w.p.Valid()
    ensures OutputStep(w, read).p.init == w.p.init && OutputStep(w, read).openStart == w.openStart
  {
  }

  /** The gate is still closed for a block exactly when it starts before the latency. */
  lemma GateInTime(c: Config, n: nat, w: World)
    requires n > 0 && ConstFacts(c, n, w)
    ensures w.p.init <==> |w.fed| - n < Latency(c, n)
  {
    MulOrder(n, w.blocks, Gate(c, n));
  }

  /** The gate is closed for exactly the blocks that start before the latency computed for the host. */
  predicate GateFollowsTime(c: Config, n: nat, w: World)
    requires n > 0
  {
    w.mid ==> (w.p.init <==> |w.fed| - |w.block| < Latency(c, n))
  }

  lemma GateFollowsTimeFromFacts(c: Config, n: nat, w: World)
    requires n > 0 && ConstFacts(c, n, w)
    ensures GateFollowsTime(c, n, w)
  {
    GateInTime(c, n, w);
  }

  /** In every run the gate opens with the block that starts at the reported latency. */
  lemma {:induction false} GateOpensAtTheLatency(c: Config, n: nat, w0: World, es: seq<Event>)
    requires ValidConfig(c) && n > 0 && ConstInv(c, n, w0) && ConstRun(c, n, w0, es)
    ensures IsRun(c, w0, es) && GateFollowsTime(c, n, RunFrom(c, w0, es))
  {
    RunKeepsConstInv(c, n, w0, es);
    GateFollowsTimeFromFacts(c, n, RunFrom(c, w0, es));
  }

  lemma BlockIsBlockAt(c: Config, n: nat, w: World, outcome: Outcome, w': World, out: seq<Sample>)
    requires ValidConfig(c) && n > 0 && c.M * w.launches <= |w.fed|
    requires ConstFacts(c, n, w) && ConstFacts(c, n, w') && w.mid
    requires w'.p.init == w.p.init && w'.openStart == w.openStart
    requires outcome.PassThrough? <==> w.p.init
    requires BlockIs(c, w, outcome, w', out)
    ensures BlockAt(c, n, w, |w.fed| - n, w', out)
  {
    GateInTime(c, n, w);
    if !w.p.init {
      assert Delay(w') == Latency(c, n) + n * w'.p.counter;
    }
  }
}
