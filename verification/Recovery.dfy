/** How misses are repaid (source/dsp/onnx/OnnxProcessor.cpp:61-84, InferenceThread.cpp:33-41), and when the model
    never runs. */
module Recovery {
  import opened Samples
  import opened Rings
  import opened Protocol
  import opened Invariant
  import opened ConstantBlocks

  /** The audio thread is about to answer a block, the gate is open, no inference ran since it was sent and no full
      chunk waits. */
  predicate QuietAt(c: Config, w: World) {
    w.mid && !w.p.init && !w.p.running && !w.active && w.p.inRing.count < c.M
  }

  /** That is how SendAudio leaves things when it finds the thread idle and no load in progress, and starts nothing. */
  lemma IdleSendIsQuiet(c: Config, w: World, block: seq<Sample>)
    requires w.p.Valid() && !w.p.running && !w.p.loading
    requires var w' := SendStep(c, w, block); !w'.p.running && !w'.p.init
    ensures QuietAt(c, SendStep(c, w, block))
  {
  }

  predicate IsMiss(w: World, read: Reading) {
    Decide(w.p, |w.block|, Seen(w, read)).Miss?
  }

  /** With blocks no longer than K, a quiet block is never a miss and takes one off a positive counter. */
  lemma QuietBlockRepays(c: Config, n: nat, w: World)
    requires ValidConfig(c) && n > 0 && n <= c.K && ConstInv(c, n, w) && QuietAt(c, w)
    ensures !IsMiss(w, Whole)
    ensures OutputStep(w, Whole).p.counter == if w.p.counter > 0 then w.p.counter - 1 else 0
  {
    SystemTotal(c, w);
    GateMeaning(c, n, 0);
    assert Backlog(w) == Latency(c, n) + n * w.p.counter + n;
    if w.p.counter > 0 {
      assert n * w.p.counter >= n;
    }
  }

  function Missed(w: World, e: Event): nat {
    if e.Output? && IsMiss(w, e.read) then 1 else 0
  }

  function Quiet(c: Config, w: World, e: Event): nat {
    if e.Output? && QuietAt(c, w) then 1 else 0
  }

  function Misses(c: Config, w: World, es: seq<Event>): nat
    requires IsRun(c, w, es)
    decreases |es|
  {
    if es == [] then 0 else Missed(w, es[0]) + Misses(c, Next(c, w, es[0]), es[1..])
  }

  function QuietBlocks(c: Config, w: World, es: seq<Event>): nat
    requires IsRun(c, w, es)
    decreases |es|
  {
    if es == [] then 0 else Quiet(c, w, es[0]) + QuietBlocks(c, Next(c, w, es[0]), es[1..])
  }

  function Floor0(x: int): nat {
    if x < 0 then 0 else x
  }

  lemma AnswerMovesCounter(w: World, read: Reading)
    requires w.p.Valid()
    ensures var counter := OutputStep(w, read).p.counter;
      if IsMiss(w, read) then counter == w.p.counter + 1 else counter <= w.p.counter
  {
  }

  lemma CounterStep(c: Config, n: nat, w: World, e: Event)
    requires ValidConfig(c) && 0 < n <= c.K && ConstInv(c, n, w)
    requires RunningEvent(w, e) && Enabled(c, w, e)
    ensures Next(c, w, e).p.counter <= Floor0(w.p.counter - Quiet(c, w, e)) + Missed(w, e)
  {
    if e.Output? {
      AnswerMovesCounter(w, e.read);
      if QuietAt(c, w) {
        QuietBlockRepays(c, n, w);
      }
    }
  }

  lemma CountsUnfold(c: Config, w: World, es: seq<Event>)
    requires IsRun(c, w, es) && es != []
    ensures var w1 := Next(c, w, es[0]);
      && IsRun(c, w1, es[1..]) && RunFrom(c, w, es) == RunFrom(c, w1, es[1..])
      && Misses(c, w, es) == Missed(w, es[0]) + Misses(c, w1, es[1..])
      && QuietBlocks(c, w, es) == Quiet(c, w, es[0]) + QuietBlocks(c, w1, es[1..])
  {
  }

  /** Bounds of two consecutive stretches combine. */
  lemma BoundsCombine(c0: nat, q1: nat, m1: nat, c1: nat, q2: nat, m2: nat, c2: nat)
    requires c1 <= Floor0(c0 - q1) + m1 && c2 <= Floor0(c1 - q2) + m2
    ensures c2 <= Floor0(c0 - (q1 + q2)) + (m1 + m2)
  {
  }

  /** In every step of the run the counter obeys the bound of a single step. */
  predicate StepsBounded(c: Config, w: World, es: seq<Event>)
    requires IsRun(c, w, es)
    decreases |es|
  {
    es == [] ||
    var w1 := Next(c, w, es[0]);
    w1.p.counter <= Floor0(w.p.counter - Quiet(c, w, es[0])) + Missed(w, es[0]) && StepsBounded(c, w1, es[1..])
  }

  lemma {:induction false} ConstRunIsBounded(c: Config, n: nat, w: World, es: seq<Event>)
    requires ValidConfig(c) && 0 < n <= c.K && ConstInv(c, n, w) && ConstRun(c, n, w, es)
    ensures IsRun(c, w, es) && StepsBounded(c, w, es)
    decreases |es|
  {
    if es != [] {
      NextKeepsConstInv(c, n, w, es[0]);
      CounterStep(c, n, w, es[0]);
      ConstRunIsBounded(c, n, Next(c, w, es[0]), es[1..]);
    }
  }

  lemma {:induction false} BoundedRunRepays(c: Config, w: World, es: seq<Event>)
    requires IsRun(c, w, es) && StepsBounded(c, w, es)
    ensures RunFrom(c, w, es).p.counter <= Floor0(w.p.counter - QuietBlocks(c, w, es)) + Misses(c, w, es)
    decreases |es|
  {
    if es != [] {
      var w1 := Next(c, w, es[0]);
      BoundedRunRepays(c, w1, es[1..]);
      CountsUnfold(c, w, es);
      BoundsCombine(w.p.counter, Quiet(c, w, es[0]), Missed(w, es[0]), w1.p.counter,
                    QuietBlocks(c, w1, es[1..]), Misses(c, w1, es[1..]), RunFrom(c, w, es).p.counter);
    }
  }

  /** Over any run from a state of the protocol: a backlog of C misses is gone after C quiet blocks, up to the
      misses that came in meanwhile. */
  lemma {:induction false} BacklogIsRepaid(c: Config, n: nat, w: World, es: seq<Event>)
    requires ValidConfig(c) && 0 < n <= c.K && ConstInv(c, n, w) && ConstRun(c, n, w, es)
    ensures IsRun(c, w, es)
    ensures RunFrom(c, w, es).p.counter <= Floor0(w.p.counter - QuietBlocks(c, w, es)) + Misses(c, w, es)
  {
    ConstRunIsBounded(c, n, w, es);
    BoundedRunRepays(c, w, es);
  }

  // ---- rings too small for one chunk ----

  predicate NeverStarted(c: Config, w: World) {
    && w.p.Valid() && |w.p.inRing.slots| == |w.p.outRing.slots| == c.cap
    && w.launches == 0 && !w.p.running && w.p.outRing.count == 0 && w.stream == []
  }

  lemma {:induction false} SmallRingStep(c: Config, w: World, e: Event)
    requires 0 < c.cap <= c.M && NeverStarted(c, w) && Enabled(c, w, e)
    requires w.mid ==> |w.block| > 0
    requires e.Send? ==> |e.block| > 0
    ensures NeverStarted(c, Next(c, w, e))
    ensures Next(c, w, e).mid ==> |Next(c, w, e).block| > 0
  {
  }

  predicate NonemptyBlocks(es: seq<Event>) {
    forall i :: 0 <= i < |es| && es[i].Send? ==> |es[i].block| > 0
  }

  lemma {:induction false} SmallRingRun(c: Config, w: World, es: seq<Event>)
    requires 0 < c.cap <= c.M && NeverStarted(c, w) && IsRun(c, w, es) && NonemptyBlocks(es)
    requires w.mid ==> |w.block| > 0
    ensures NeverStarted(c, RunFrom(c, w, es))
    ensures RunFrom(c, w, es).mid ==> |RunFrom(c, w, es).block| > 0
    decreases |es|
  {
    if es != [] {
      SmallRingStep(c, w, es[0]);
      assert NonemptyBlocks(es[1..]);
      SmallRingRun(c, Next(c, w, es[0]), es[1..]);
    }
  }

  /**
   The ring capacity is the sample rate. When it does not exceed the chunk length the model is never run, in any run
   of any events, and every block after the gate is silent. One sample more and a run that starts the model exists.
   */
  lemma {:induction false} SmallRingIsSilentForever(c: Config, w0: World, es: seq<Event>, read: Reading)
    requires 0 < c.cap <= c.M && Fresh(c, w0)
    requires IsRun(c, w0, es) && NonemptyBlocks(es)
    ensures var w := RunFrom(c, w0, es);
      && w.launches == 0 && w.stream == []
      && (Enabled(c, w, Output(read)) && !w.p.init ==> Heard(w, read) == Silence(|w.block|))
  {
    SmallRingRun(c, w0, es);
  }

  lemma OneEventRun(c: Config, w: World, e: Event)
    requires Enabled(c, w, e)
    ensures IsRun(c, w, [e]) && RunFrom(c, w, [e]) == Next(c, w, e)
  {
    var rest := [e][1..];
    assert rest == [] && IsRun(c, Next(c, w, e), rest);
    assert RunFrom(c, w, [e]) == RunFrom(c, Next(c, w, e), rest);
  }

  lemma {:induction false} LargerRingCanStart(c: Config, w0: World)
    requires ValidConfig(c) && c.cap > c.M && Fresh(c, w0)
    ensures exists es :: IsRun(c, w0, es) && RunFrom(c, w0, es).launches > 0
  {
    var e := Send(Silence(c.M));
    SendPipe(c.M, c.K, w0.p, Silence(c.M));
    OneEventRun(c, w0, e);
    assert RunFrom(c, w0, [e]).launches > 0;
  }
}
