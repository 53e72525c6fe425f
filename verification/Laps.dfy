/**
 Every run, full and overrun rings and drained counts included (source/dsp/onnx/RingBuffer.cpp:29-76).

 Module Invariant needs that the reader never passes the writer and the writer never laps the reader. Neither is
 needed here: a slot of the output ring always holds the latest result that was written to it, and the count is the
 distance of the two positions round the ring. So every answer hands out the signal at the promised delay, up to
 whole turns of the ring.
 */
module Laps {
  import opened Arithmetic
  import opened Samples
  import opened Rings
  import opened Protocol
  import opened Invariant

  /** The newest of the first `len` results that shares a slot with result i; negative if that slot was not written. */
  function Latest(i: int, len: nat, cap: nat): int
    requires cap > 0
  {
    len - 1 - (len - 1 - i) % cap
  }

  lemma ModStep(a: int, n: nat)
    requires n > 0
    ensures (a + 1) % n == if a % n + 1 == n then 0 else a % n + 1
  {
    IntMod(a + 1, n, if a % n + 1 == n then a / n + 1 else a / n, if a % n + 1 == n then 0 else a % n + 1);
  }

  lemma ModTurn(a: int, n: nat)
    requires n > 0
    ensures (a + n) % n == (a - n) % n == a % n
  {
    IntMod(a + n, n, a / n + 1, a % n);
    IntMod(a - n, n, a / n - 1, a % n);
  }

  lemma IntMod(a: int, n: nat, q: int, r: nat)
    requires n > 0 && a == n * q + r && r < n
    ensures a % n == r
  {
    var q', r' := a / n, a % n;
    assert a == n * q' + r';
    if q' > q {
      MulGap(n, q', q);
    } else if q > q' {
      MulGap(n, q, q');
    }
  }

  /** It is the one index among the last `cap` that lies whole turns away from i. */
  lemma LatestMeaning(i: int, len: nat, cap: nat)
    requires cap > 0
    ensures len - cap <= Latest(i, len, cap) < len
    ensures (Latest(i, len, cap) - i) % cap == 0
    ensures Latest(i, len, cap) == i <==> len - cap <= i < len
  {
    var a := len - 1 - i;
    IntMod(a - a % cap, cap, a / cap, 0);
    if 0 <= a < cap {
      IntMod(a, cap, 0, a);
    }
  }

  /** A new result changes the latest index of its own slot only. */
  lemma LatestAfterPush(i: int, len: nat, cap: nat)
    requires cap > 0
    ensures Latest(i, len + 1, cap) == if (len - i) % cap == 0 then len else Latest(i, len, cap)
  {
    ModStep(len - 1 - i, cap);
  }

  lemma LatestTurn(i: int, len: nat, cap: nat)
    requires cap > 0
    ensures Latest(i - cap, len, cap) == Latest(i, len, cap)
  {
    ModTurn(len - 1 - i, cap);
  }

  // ---- the output ring ----

  /** The slots of a ring from which `popped` samples were taken, after the results in `stream` were written to it. */
  ghost predicate MemoryHolds(slots: seq<Sample>, popped: nat, stream: seq<Sample>)
    requires |slots| > 0
  {
    forall k :: 0 <= k < |slots| ==> SlotHolds(slots[k], stream, Latest(popped + k, |stream|, |slots|))
  }

  predicate SlotHolds(slot: Sample, stream: seq<Sample>, j: int)
    requires j < |stream|
  {
    j >= 0 ==> slot == stream[j]
  }

  /** The meaning of the output ring in every run. */
  ghost predicate RingHolds(r: Ring, popped: nat, stream: seq<Sample>) {
    && r.Valid()
    && r.count == (|stream| - popped) % |r.slots|
    && MemoryHolds(r.slots, popped, stream)
  }

  lemma {:induction false} PushHolds(r: Ring, popped: nat, stream: seq<Sample>, x: Sample)
    requires RingHolds(r, popped, stream)
    ensures RingHolds(Push(r, x), popped, stream + [Clean(x)])
  {
    var cap, len := |r.slots|, |stream|;
    ModStep(len - popped, cap);
    forall k | 0 <= k < cap
      ensures SlotHolds(Push(r, x).slots[k], stream + [Clean(x)], Latest(popped + k, len + 1, cap))
    {
      LatestAfterPush(popped + k, len, cap);
      SameSlot(len - popped, k, cap);
      assert SlotHolds(r.slots[k], stream, Latest(popped + k, len, cap));
    }
  }

  lemma SameSlot(a: int, k: nat, n: nat)
    requires k < n
    ensures (a - k) % n == 0 <==> a % n == k
  {
    if (a - k) % n == 0 {
      IntMod(a, n, (a - k) / n, k);
    }
    if a % n == k {
      IntMod(a - k, n, a / n, 0);
    }
  }

  lemma {:induction false} OnePop(r: Ring, popped: nat, stream: seq<Sample>)
    requires RingHolds(r, popped, stream) && AllClean(stream)
    ensures RingHolds(Pop(r).1, popped + 1, stream)
    ensures SlotHolds(Pop(r).0, stream, Latest(popped, |stream|, |r.slots|))
  {
    var ring, cap, len := Pop(r).1, |r.slots|, |stream|;
    ModStep(len - popped - 1, cap);
    assert SlotHolds(r.slots[0], stream, Latest(popped + 0, len, cap));
    forall i | 0 <= i < cap
      ensures SlotHolds(ring.slots[i], stream, Latest(popped + 1 + i, len, cap))
    {
      var at := if i + 1 < cap then i + 1 else 0;
      LatestTurn(popped + cap, len, cap);
      assert SlotHolds(r.slots[at], stream, Latest(popped + at, len, cap));
    }
  }

  /** What pops hand out: the latest result in each slot they pass. */
  ghost predicate HandsOut(out: seq<Sample>, from: int, stream: seq<Sample>, cap: nat)
    requires cap > 0
  {
    forall i :: 0 <= i < |out| ==> SlotHolds(out[i], stream, Latest(from + i, |stream|, cap))
  }

  lemma {:induction false} PopsHandOut(r: Ring, popped: nat, stream: seq<Sample>, k: nat)
    requires RingHolds(r, popped, stream) && AllClean(stream)
    ensures RingHolds(PopMany(r, k).1, popped + k, stream)
    ensures HandsOut(PopMany(r, k).0, popped, stream, |r.slots|)
  {
    if k > 0 {
      PopsHandOut(r, popped, stream, k - 1);
      OnePop(PopMany(r, k - 1).1, popped + (k - 1), stream);
    }
  }

  lemma HandsOutRest(out: seq<Sample>, from: int, stream: seq<Sample>, cap: nat, n: nat)
    requires cap > 0 && n <= |out| && HandsOut(out, from, stream, cap)
    ensures HandsOut(out[n..], from + n, stream, cap)
  {
    forall i | 0 <= i < |out| - n
      ensures SlotHolds(out[n..][i], stream, Latest(from + n + i, |stream|, cap))
    {
      assert SlotHolds(out[n + i], stream, Latest(from + (n + i), |stream|, cap));
    }
  }

  // ---- pops between the pushes of the other thread ----

  datatype RingOp = Put(x: Sample) | Take

  function AfterOps(r: Ring, ops: seq<RingOp>): (r': Ring)
    requires r.Valid()
    ensures r'.Valid() && |r'.slots| == |r.slots|
    decreases |ops|
  {
    if ops == [] then r else
      var before := AfterOps(r, ops[..|ops| - 1]);
      match ops[|ops| - 1]
      case Put(x) => Push(before, x)
      case Take => Pop(before).1
  }

  function TakenBy(r: Ring, ops: seq<RingOp>): seq<Sample>
    requires r.Valid()
    decreases |ops|
  {
    if ops == [] then [] else
      var front := ops[..|ops| - 1];
      TakenBy(r, front) + (if ops[|ops| - 1].Take? then [Pop(AfterOps(r, front)).0] else [])
  }

  function WrittenBy(ops: seq<RingOp>): (r: seq<Sample>)
    ensures AllClean(r)
    decreases |ops|
  {
    if ops == [] then [] else
      WrittenBy(ops[..|ops| - 1]) + (if ops[|ops| - 1].Put? then [Clean(ops[|ops| - 1].x)] else [])
  }

  /** This sample was the latest in the slot of index i when the stream had at least `len` results. */
  ghost predicate LatestSince(sample: Sample, i: int, len: nat, stream: seq<Sample>, cap: nat)
    requires cap > 0
  {
    exists now :: LatestAt(sample, i, now, stream, cap) && len <= now
  }

  ghost predicate LatestAt(sample: Sample, i: int, now: nat, stream: seq<Sample>, cap: nat)
    requires cap > 0
  {
    now <= |stream| && SlotHolds(sample, stream[..now], Latest(i, now, cap))
  }

  ghost predicate AllLatest(taken: seq<Sample>, popped: nat, len: nat, stream: seq<Sample>, cap: nat)
    requires cap > 0
  {
    forall i :: 0 <= i < |taken| ==> LatestSince(taken[i], popped + i, len, stream, cap)
  }

  /** The memory and every sample handed out, however the pops of one thread fall between the pushes of the other. */
  lemma {:induction false} AnyOrderOfOps(r: Ring, popped: nat, stream: seq<Sample>, ops: seq<RingOp>)
    requires RingHolds(r, popped, stream) && AllClean(stream)
    ensures RingHolds(AfterOps(r, ops), popped + |TakenBy(r, ops)|, stream + WrittenBy(ops))
    ensures AllLatest(TakenBy(r, ops), popped, |stream|, stream + WrittenBy(ops), |r.slots|)
    decreases |ops|
  {
    if ops == [] {
      assert stream + WrittenBy(ops) == stream;
    } else {
      var front := ops[..|ops| - 1];
      AnyOrderOfOps(r, popped, stream, front);
      var before, taken, now := AfterOps(r, front), TakenBy(r, front), stream + WrittenBy(front);
      match ops[|ops| - 1]
      case Put(x) =>
        PushHolds(before, popped + |taken|, now, x);
        StillLatest(taken, popped, |stream|, now, Clean(x), |r.slots|);
        assert stream + WrittenBy(ops) == now + [Clean(x)];
        assert TakenBy(r, ops) == taken;
      case Take =>
        OnePop(before, popped + |taken|, now);
        OneMoreLatest(taken, popped, |stream|, now, Pop(before).0, |r.slots|);
        assert stream + WrittenBy(ops) == now;
    }
  }

  lemma {:induction false} StillLatest(
    taken: seq<Sample>, popped: nat, len: nat, stream: seq<Sample>, x: Sample, cap: nat)
    requires cap > 0 && AllLatest(taken, popped, len, stream, cap)
    ensures AllLatest(taken, popped, len, stream + [x], cap)
  {
    forall i | 0 <= i < |taken|
      ensures LatestSince(taken[i], popped + i, len, stream + [x], cap)
    {
      var now: nat :| LatestAt(taken[i], popped + i, now, stream, cap) && len <= now;
      assert (stream + [x])[..now] == stream[..now];
      assert LatestAt(taken[i], popped + i, now, stream + [x], cap);
    }
  }

  lemma {:induction false} OneMoreLatest(
    taken: seq<Sample>, popped: nat, len: nat, stream: seq<Sample>, sample: Sample, cap: nat)
    requires cap > 0 && AllLatest(taken, popped, len, stream, cap) && len <= |stream|
    requires SlotHolds(sample, stream, Latest(popped + |taken|, |stream|, cap))
    ensures AllLatest(taken + [sample], popped, len, stream, cap)
  {
    assert stream[..|stream|] == stream;
    assert LatestAt(sample, popped + |taken|, |stream|, stream, cap);
    assert LatestSince(sample, popped + |taken|, len, stream, cap);
  }

  // ---- the system ----

  ghost predicate StreamSide(c: Config, w: World)
    requires ValidConfig(c) && InputSide(c, w)
  {
    0 <= PushedCount(c, w) <= c.M * w.launches && w.stream == ModelStream(c, w.fed, w.launches)[..PushedCount(c, w)]
  }

  predicate LapLedger(c: Config, w: World) {
    && w.popped + w.missed == w.served + w.dropped
    && (w.p.init ==>
          && w.p.initSamples == |w.fed| < c.M + c.K
          && w.served == w.missed == w.dropped == 0 && w.p.counter == 0)
    && (!w.p.init ==> |w.fed| == w.openStart + w.served + (if w.mid then |w.block| else 0))
  }

  /** The part of the invariant that asks nothing of the output ring's fill. */
  ghost predicate LapInv(c: Config, w: World)
    requires ValidConfig(c)
  {
    && InputSide(c, w) && StreamSide(c, w) && LapLedger(c, w)
    && |w.p.outRing.slots| == c.cap && RingHolds(w.p.outRing, w.popped, w.stream)
  }

  lemma LapFresh(c: Config, w: World)
    requires ValidConfig(c) && Fresh(c, w) && c.M + c.K > 0
    ensures LapInv(c, w)
  {
    IntMod(0, c.cap, 0, 0);
  }

  /** The invariant of module Invariant is this one plus two bounds: the reader not past the writer, room for all
      there is. */
  lemma InvIff(c: Config, w: World)
    requires ValidConfig(c) && LapInv(c, w)
    ensures Inv(c, w) <==> w.popped <= |w.stream| && Backlog(w) < c.cap
  {
    if w.popped <= |w.stream| && Backlog(w) < c.cap {
      var unread := |w.stream| - w.popped;
      IntMod(unread, c.cap, 0, unread);
      forall k | 0 <= k < unread
        ensures w.p.outRing.slots[k] == w.stream[w.popped + k]
      {
        LatestMeaning(w.popped + k, |w.stream|, c.cap);
        assert SlotHolds(w.p.outRing.slots[k], w.stream, Latest(w.popped + k, |w.stream|, c.cap));
      }
      assert w.p.outRing.Unread() == w.stream[w.popped..];
    }
  }

  lemma LapSend(c: Config, w: World, block: seq<Sample>)
    requires ValidConfig(c) && LapInv(c, w) && !w.mid && w.p.inRing.count + |block| < c.cap
    ensures LapInv(c, SendStep(c, w, block))
  {
    SendPipe(c.M, c.K, w.p, block);
    var p', launch := SendAudio(c.M, c.K, w.p, block), Launches(c.M, w.p, block);
    SentInput(c, w, block, p', launch);
    LapSentStream(c, w, block, p', launch);
  }

  lemma LapSentStream(c: Config, w: World, block: seq<Sample>, p': Pipe, launch: bool)
    requires ValidConfig(c) && LapInv(c, w)
    requires SendRelation(c.M, w.p, block, p', launch) && InputSide(c, Sent(w, block, p', launch))
    ensures StreamSide(c, Sent(w, block, p', launch))
  {
    StreamIsStable(c, w.fed, CleanAll(block), w.launches);
    if launch {
      StreamGrows(c, w.fed + CleanAll(block), w.launches + 1);
    }
  }

  lemma LapPushStream(c: Config, w: World)
    requires ValidConfig(c) && LapInv(c, w) && Enabled(c, w, PushResult)
    ensures InputSide(c, Next(c, w, PushResult)) && StreamSide(c, Next(c, w, PushResult))
  {
    var x := Result(c, w)[w.pos];
    StreamAt(c, w.fed, w.launches, w.launches - 1, w.pos);
    PushedOneStream(c, w, Clean(x), Push(w.p.outRing, x));
  }

  lemma PushedOneStream(c: Config, w: World, x: Sample, ring: Ring)
    requires ValidConfig(c) && InputSide(c, w) && StreamSide(c, w) && w.p.running && w.pos < c.M
    requires x == ModelStream(c, w.fed, w.launches)[PushedCount(c, w)]
    ensures InputSide(c, PushedOne(w, x, ring)) && StreamSide(c, PushedOne(w, x, ring))
  {
    TakeOneMore(ModelStream(c, w.fed, w.launches), PushedCount(c, w));
  }

  lemma LapPush(c: Config, w: World)
    requires ValidConfig(c) && LapInv(c, w) && Enabled(c, w, PushResult)
    ensures LapInv(c, Next(c, w, PushResult))
  {
    LapPushStream(c, w);
    PushHolds(w.p.outRing, w.popped, w.stream, Result(c, w)[w.pos]);
  }

  /** The block handed out: dry while the gate is closed, silent and counted, or the model's signal delayed by Delay
      up to whole turns. */
  ghost predicate HeardIs(c: Config, w: World, outcome: Outcome, w': World, out: seq<Sample>)
    requires c.cap > 0
  {
    var n, t := |w.block|, |w.fed| - |w.block|;
    && |out| == n
    && match outcome
       case PassThrough => out == w.block
       case Miss => out == Silence(n) && Delay(w') == Delay(w) + n && w'.p.counter == w.p.counter + 1
       case Play =>
         Delay(w') == Delay(w) && w'.p.counter == w.p.counter && HandsOut(out, t - Delay(w'), w.stream, c.cap)
       case DropAndPlay =>
         && Delay(w') == Delay(w) - n && w'.p.counter == w.p.counter - 1
         && HandsOut(out, t - Delay(w'), w.stream, c.cap)
  }

  /** The block made of what was popped starts at the promised delay, whatever was thrown away before it. */
  lemma BlockHandsOut(c: Config, w: World, outcome: Outcome, taken: seq<Sample>)
    requires ValidConfig(c) && |taken| == Demand(outcome, |w.block|)
    requires HandsOut(taken, w.popped, w.stream, c.cap)
    ensures var skip := if outcome.DropAndPlay? then |w.block| else 0;
      outcome.Play? || outcome.DropAndPlay? ==>
        HandsOut(BlockOf(outcome, w.block, taken), w.popped + skip, w.stream, c.cap)
  {
    if outcome.DropAndPlay? {
      HandsOutRest(taken, w.popped, w.stream, c.cap, |w.block|);
    }
  }

  lemma LapHeard(c: Config, w: World, read: Reading)
    requires ValidConfig(c) && LapInv(c, w) && w.mid
    ensures HeardIs(c, w, Decide(w.p, |w.block|, Seen(w, read)), OutputStep(w, read), Heard(w, read))
  {
    var outcome := Decide(w.p, |w.block|, Seen(w, read));
    AnswerIs(w, read);
    PopsHandOut(w.p.outRing, w.popped, w.stream, Demand(outcome, |w.block|));
    BlockHandsOut(c, w, outcome, PopMany(w.p.outRing, Demand(outcome, |w.block|)).0);
  }

  lemma AnsweredInputSide(c: Config, w: World, p': Pipe, out: seq<Sample>, outcome: Outcome)
    requires ValidConfig(c) && InputSide(c, w) && StreamSide(c, w)
    requires p' == w.p.(outRing := p'.outRing, counter := p'.counter)
    ensures InputSide(c, Answered(w, p', out, outcome)) && StreamSide(c, Answered(w, p', out, outcome))
  {
  }

  lemma AnsweredLapLedger(c: Config, w: World, p': Pipe, out: seq<Sample>, outcome: Outcome)
    requires LapLedger(c, w) && w.mid && (outcome.PassThrough? <==> w.p.init)
    requires p' == w.p.(outRing := p'.outRing, counter := p'.counter) && p'.counter == Recount(outcome, w.p.counter)
    ensures LapLedger(c, Answered(w, p', out, outcome))
    ensures Answered(w, p', out, outcome).popped == w.popped + Demand(outcome, |w.block|)
  {
  }

  lemma LapOutput(c: Config, w: World, read: Reading)
    requires ValidConfig(c) && LapInv(c, w) && w.mid
    ensures LapInv(c, OutputStep(w, read))
    ensures OutputStep(w, read).popped == w.popped + Demand(Decide(w.p, |w.block|, Seen(w, read)), |w.block|)
  {
    var outcome := Decide(w.p, |w.block|, Seen(w, read));
    var (p', out) := ProcessOutput(w.p, w.block, Seen(w, read));
    AnswerIs(w, read);
    PopsHandOut(w.p.outRing, w.popped, w.stream, Demand(outcome, |w.block|));
    AnsweredInputSide(c, w, p', out, outcome);
    AnsweredLapLedger(c, w, p', out, outcome);
  }

  // ---- runs ----

  /** A count is what is there, or a capacity off, wherever the positions stand and however far they move between
      the reads. */
  lemma CountIsOneOfThree(end: nat, readPos: nat, first: nat, second: nat)
    requires readPos < end && second <= end
    ensures var counted, there := (if readPos <= first then second - readPos else second + end - readPos),
        (second - readPos) % end;
      counted == there || counted == there - end || counted == there + end
  {
    var a := second - readPos;
    if a < 0 {
      IntMod(a, end, -1, a + end);
    } else if a < end {
      IntMod(a, end, 0, a);
    } else {
      IntMod(a, end, 1, 0);
    }
  }

  /** The events of the two threads, with any of the three counts wherever one is taken, for blocks that fit into
      the input ring. Nothing is asked of the output ring. */
  predicate LapEnabled(c: Config, w: World, e: Event) {
    && w.p.Valid() && ThreadEvent(e)
    && if e.Output? then w.mid else Enabled(c, w, e) && (e.Send? ==> w.p.inRing.count + |e.block| < c.cap)
  }

  function LapNext(c: Config, w: World, e: Event): World
    requires LapEnabled(c, w, e)
  {
    if e.Output? then OutputStep(w, e.read) else Next(c, w, e)
  }

  predicate IsLapRun(c: Config, w: World, es: seq<Event>)
    decreases |es|
  {
    es == [] || (LapEnabled(c, w, es[0]) && IsLapRun(c, LapNext(c, w, es[0]), es[1..]))
  }

  function LapFrom(c: Config, w: World, es: seq<Event>): World
    requires IsLapRun(c, w, es)
    decreases |es|
  {
    if es == [] then w else LapFrom(c, LapNext(c, w, es[0]), es[1..])
  }

  lemma LapNextKeepsInv(c: Config, w: World, e: Event)
    requires ValidConfig(c) && LapInv(c, w) && LapEnabled(c, w, e)
    ensures LapInv(c, LapNext(c, w, e))
  {
    match e
    case Send(block) => LapSend(c, w, block);
    case Output(read) => LapOutput(c, w, read);
    case PushResult => LapPush(c, w);
    case Finish =>
    case LoadEnd =>
  }

  lemma {:induction false} RunKeepsLapInv(c: Config, w: World, es: seq<Event>)
    requires ValidConfig(c) && LapInv(c, w) && IsLapRun(c, w, es)
    ensures LapInv(c, LapFrom(c, w, es))
    decreases |es|
  {
    if es != [] {
      LapNextKeepsInv(c, w, es[0]);
      RunKeepsLapInv(c, LapNext(c, w, es[0]), es[1..]);
    }
  }

  /** The runs of module Invariant are among them, with the same outcome. */
  lemma {:induction false} RoomyRunIsLapRun(c: Config, w: World, es: seq<Event>)
    requires ValidConfig(c) && Inv(c, w) && RoomyRun(c, w, es)
    ensures IsLapRun(c, w, es) && IsRun(c, w, es) && LapFrom(c, w, es) == RunFrom(c, w, es)
    decreases |es|
  {
    if es != [] {
      SystemTotal(c, w);
      NextKeepsInv(c, w, es[0]);
      RoomyRunIsLapRun(c, Next(c, w, es[0]), es[1..]);
    }
  }

  ghost predicate AnswersUpToTurns(c: Config, w: World, read: Reading)
    requires ValidConfig(c) && w.p.Valid()
  {
    && InputSide(c, w) && StreamSide(c, w)
    && HeardIs(c, w, Decide(w.p, |w.block|, Seen(w, read)), OutputStep(w, read), Heard(w, read))
  }

  /** Every answer of every run is the dry block, a counted silence, or the signal at the promised delay up to turns. */
  lemma {:induction false} EveryAnswer(c: Config, w0: World, es: seq<Event>, read: Reading)
    requires ValidConfig(c) && LapInv(c, w0) && IsLapRun(c, w0, es)
    ensures var w := LapFrom(c, w0, es); w.mid ==> w.p.Valid() && AnswersUpToTurns(c, w, read)
  {
    RunKeepsLapInv(c, w0, es);
    if LapFrom(c, w0, es).mid {
      LapHeard(c, LapFrom(c, w0, es), read);
    }
  }

  /** Everything the two rings and the running inference claim to hold. */
  function Claimed(c: Config, w: World): int {
    w.p.inRing.count + InFlight(c, w) + w.p.outRing.count
  }

  /** Conservation in every run: a capacity too much for every turn the reader leads, too little for every turn it
      lags. */
  lemma {:induction false} ConservedUpToTurns(c: Config, w0: World, es: seq<Event>)
    requires ValidConfig(c) && LapInv(c, w0) && IsLapRun(c, w0, es)
    ensures var w := LapFrom(c, w0, es);
      && Claimed(c, w) == Backlog(w) - c.cap * ((|w.stream| - w.popped) / c.cap)
      && (Claimed(c, w) == Backlog(w) <==> w.popped <= |w.stream| < w.popped + c.cap)
  {
    RunKeepsLapInv(c, w0, es);
    var w := LapFrom(c, w0, es);
    assert w.p.inRing.count == |w.p.inRing.Unread()| == |w.fed| - c.M * w.launches;
    TurnsMeaning(|w.stream| - w.popped, c.cap);
  }

  lemma TurnsMeaning(a: int, n: nat)
    requires n > 0
    ensures a % n == a - n * (a / n)
    ensures n * (a / n) == 0 <==> 0 <= a < n
  {
    if a / n > 0 {
      MulGap(n, a / n, 0);
    } else if a / n < 0 {
      MulGap(n, 0, a / n);
    }
  }

  // ---- one answer on a drained count ----

  /** These samples are the ones a capacity before index `from`, as far as there are such. */
  predicate OneTurnOld(out: seq<Sample>, from: nat, stream: seq<Sample>, cap: nat) {
    forall i :: 0 <= i < |out| ==> SlotHolds(out[i], stream, if from + i - cap < |stream| then from + i - cap else -1)
  }

  lemma {:induction false} TurnIsOld(out: seq<Sample>, from: nat, stream: seq<Sample>, cap: nat)
    requires cap > 0 && |stream| <= from && from + |out| <= |stream| + cap
    requires HandsOut(out, from, stream, cap)
    ensures OneTurnOld(out, from, stream, cap)
  {
    forall i | 0 <= i < |out|
      ensures SlotHolds(out[i], stream, from + i - cap)
    {
      LatestTurn(from + i, |stream|, cap);
      LatestMeaning(from + i - cap, |stream|, cap);
      assert SlotHolds(out[i], stream, Latest(from + i, |stream|, cap));
    }
  }

  /** What a drained count does behind the gate: nothing is counted as missed, and what is played or skipped had
      been heard a turn of the ring before. */
  ghost predicate PlaysTheLastTurn(c: Config, w: World, w': World, out: seq<Sample>) {
    && w.popped + |w.block| <= w'.popped && |out| == |w.block| && OneTurnOld(out, w'.popped - |out|, w.stream, c.cap)
    && w'.p.counter <= w.p.counter && Delay(w') == Delay(w) - (w'.popped - w.popped - |w.block|)
  }

  /** And from then on the rings claim a whole capacity too much. */
  predicate ClaimsATurn(c: Config, w': World) {
    |w'.stream| < w'.popped <= |w'.stream| + c.cap && Claimed(c, w') == Backlog(w') + c.cap
  }

  lemma DrainedOutcome(w: World)
    requires w.p.Valid() && !w.p.init && MayBeDrained(w) && 0 < |w.block| <= |w.p.outRing.slots|
    ensures Decide(w.p, |w.block|, Seen(w, Drained)) in {Play, DropAndPlay}
  {
  }

  lemma DrainedClaim(c: Config, w: World)
    requires ValidConfig(c) && LapInv(c, w) && |w.stream| < w.popped <= |w.stream| + c.cap
    ensures ClaimsATurn(c, w)
  {
    assert w.p.inRing.count == |w.p.inRing.Unread()| == |w.fed| - c.M * w.launches;
    IntMod(|w.stream| - w.popped, c.cap, -1, |w.stream| - w.popped + c.cap);
  }

  lemma PlayedTheLastTurn(c: Config, w: World, outcome: Outcome, w': World, out: seq<Sample>)
    requires ValidConfig(c) && LapLedger(c, w) && w.mid && !w.p.init && w.popped == |w.stream|
    requires outcome.Play? || outcome.DropAndPlay?
    requires HeardIs(c, w, outcome, w', out) && w'.popped == w.popped + Demand(outcome, |w.block|) <= |w.stream| + c.cap
    ensures PlaysTheLastTurn(c, w, w', out)
  {
    assert |w.fed| - |w.block| - Delay(w') == w'.popped - |w.block|;
    TurnIsOld(out, w'.popped - |w.block|, w.stream, c.cap);
  }

  lemma DrainedHeard(c: Config, w: World)
    requires ValidConfig(c) && LapInv(c, w) && w.popped == |w.stream| && !w.p.init && 0 < |w.block| <= c.cap
    requires Enabled(c, w, Output(Drained))
    ensures PlaysTheLastTurn(c, w, OutputStep(w, Drained), Heard(w, Drained))
    ensures OutputStep(w, Drained).stream == w.stream && OutputStep(w, Drained).popped <= |w.stream| + c.cap
  {
    DrainedOutcome(w);
    LapOutput(c, w, Drained);
    LapHeard(c, w, Drained);
    PlayedTheLastTurn(c, w, Decide(w.p, |w.block|, Seen(w, Drained)), OutputStep(w, Drained), Heard(w, Drained));
  }

  lemma NothingUnread(c: Config, w: World)
    requires ValidConfig(c) && LapInv(c, w) && w.p.outRing.count == 0
    requires w.popped < |w.stream| + c.cap && |w.stream| < w.popped + c.cap
    ensures w.popped == |w.stream|
  {
    var a := |w.stream| - w.popped;
    IntMod(a, c.cap, if a < 0 then -1 else 0, if a < 0 then a + c.cap else a);
  }

  /** An answer on a drained count, while neither position is a whole turn ahead of the other. */
  lemma DrainedAnswer(c: Config, w: World)
    requires ValidConfig(c) && LapInv(c, w) && !w.p.init && 0 < |w.block| <= c.cap
    requires w.popped < |w.stream| + c.cap && |w.stream| < w.popped + c.cap
    requires Enabled(c, w, Output(Drained))
    ensures LapInv(c, OutputStep(w, Drained)) && ClaimsATurn(c, OutputStep(w, Drained))
    ensures PlaysTheLastTurn(c, w, OutputStep(w, Drained), Heard(w, Drained))
  {
    NothingUnread(c, w);
    DrainedHeard(c, w);
    LapOutput(c, w, Drained);
    DrainedClaim(c, OutputStep(w, Drained));
  }
}
