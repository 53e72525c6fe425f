/**
 Both threads of the pipeline at the level of single accesses to the output ring
 (source/dsp/onnx/OnnxProcessor.cpp:55-84, InferenceThread.cpp:26-92, RingBuffer.cpp:29-76), and the proof that
 every run without a drained count is a run of the protocol: the answer happens at its second read of the write
 position, a result at its increment.
 */
module TwoThreads {
  import opened Arithmetic
  import opened Samples
  import opened Rings
  import opened Protocol
  import opened Invariant
  import Memory = SpscRing
  import opened RingRefinement

  /** Where the audio thread stands: between callbacks, between its two calls, between the two reads, or popping. */
  datatype Audio =
    | Between
    | Holding(block: seq<Sample>)
    | Counting(block: seq<Sample>)
    | Answering(block: seq<Sample>, outcome: Outcome, demand: nat, taken: seq<Sample>)

  /** What the protocol's pipe holds apart from the output ring, whose place is empty; the output ring's memory with
      both threads' positions; results pushed and inferences started; the audio thread; and what the host was
      handed. */
  datatype System = System(
    pipe: Pipe, memory: Memory.State, pos: nat, launches: nat, audio: Audio, emitted: seq<Sample>)

  const NO_RING: Ring := Ring([ZERO], 0)

  datatype Step =
    | Callback(block: seq<Sample>) | FirstRead | SecondRead | ReadSlot | AdvanceRead | HandBack
    | WriteSlot | Increment | Wrap | Return

  function Output(c: Config, s: System): seq<Sample>
    requires s.launches > 0
  {
    c.model(s.launches - 1, s.pipe.inputData)
  }

  /** The step of the memory that a step of the system makes, if any. */
  function MemoryStep(c: Config, s: System, step: Step): Memory.Step
    requires step.WriteSlot? ==> s.launches > 0 && s.pos < |Output(c, s)|
    requires !step.Callback? && !step.Return?
  {
    match step
    case FirstRead => Memory.FirstRead
    case SecondRead => Memory.SecondRead
    case ReadSlot => Memory.ReadSlot
    case AdvanceRead => Memory.AdvanceRead
    case HandBack => Memory.StopPopping
    case WriteSlot => Memory.WriteSlot(Output(c, s)[s.pos])
    case Increment => Memory.Increment
    case _ => Memory.Wrap
  }

  predicate CanStep(c: Config, s: System, step: Step) {
    && s.pipe.Valid()
    && match step
       case Callback(block) => s.audio.Between?
       case FirstRead => s.audio.Holding? && Memory.Enabled(s.memory, Memory.FirstRead)
       case SecondRead => s.audio.Counting? && Memory.Enabled(s.memory, Memory.SecondRead)
       case ReadSlot => s.audio.Answering? && s.audio.demand > 0 && Memory.Enabled(s.memory, Memory.ReadSlot)
       case AdvanceRead => s.audio.Answering? && s.audio.demand > 0 && Memory.Enabled(s.memory, Memory.AdvanceRead)
       case HandBack =>
         && s.audio.Answering? && s.audio.demand == 0 && Memory.Enabled(s.memory, Memory.StopPopping)
         && |s.audio.taken| == Demand(s.audio.outcome, |s.audio.block|)
       case WriteSlot =>
         && s.pipe.running && s.launches > 0 && s.pos < |Output(c, s)|
         && Memory.Enabled(s.memory, Memory.WriteSlot(Output(c, s)[s.pos]))
       case Increment => s.pipe.running && Memory.Enabled(s.memory, Memory.Increment)
       case Wrap => s.pipe.running && Memory.Enabled(s.memory, Memory.Wrap)
       case Return => s.pipe.running && s.launches > 0 && s.pos >= |Output(c, s)| && s.memory.producer.Ready?
  }

  function Do(c: Config, s: System, step: Step): System
    requires CanStep(c, s, step)
  {
    match step
    case Callback(block) =>
      var launch := Launches(c.M, s.pipe, block);
      s.(pipe := SendAudio(c.M, c.K, s.pipe, block), audio := Holding(block),
         pos := if launch then 0 else s.pos, launches := if launch then s.launches + 1 else s.launches)
    case Return => s.(pipe := s.pipe.(running := false))
    case FirstRead => s.(memory := Memory.Next(s.memory, Memory.FirstRead), audio := Counting(s.audio.block))
    case SecondRead =>
      var n := |s.audio.block|;
      var outcome := Decide(s.pipe, n, Memory.Counted(s.memory));
      s.(memory := Memory.Next(s.memory, Memory.SecondRead),
         pipe := s.pipe.(
           counter := if Recount(outcome, s.pipe.counter) < 0 then 0 else Recount(outcome, s.pipe.counter)),
         audio := Answering(s.audio.block, outcome, Demand(outcome, n), []))
    case ReadSlot => s.(memory := Memory.Next(s.memory, Memory.ReadSlot))
    case AdvanceRead =>
      var a := s.audio;
      s.(memory := Memory.Next(s.memory, Memory.AdvanceRead),
         audio := a.(demand := a.demand - 1, taken := a.taken + [s.memory.consumer.value]))
    case HandBack =>
      var a := s.audio;
      s.(memory := Memory.Next(s.memory, Memory.StopPopping), audio := Between,
         emitted := s.emitted + BlockOf(a.outcome, a.block, a.taken))
    case WriteSlot => s.(memory := Memory.Next(s.memory, MemoryStep(c, s, step)))
    case Increment => s.(memory := Memory.Next(s.memory, Memory.Increment), pos := s.pos + 1)
    case Wrap => s.(memory := Memory.Next(s.memory, Memory.Wrap))
  }

  predicate IsSystemRun(c: Config, s: System, steps: seq<Step>)
    decreases |steps|
  {
    steps == [] || (CanStep(c, s, steps[0]) && IsSystemRun(c, Do(c, s, steps[0]), steps[1..]))
  }

  function SystemFrom(c: Config, s: System, steps: seq<Step>): System
    requires IsSystemRun(c, s, steps)
    decreases |steps|
  {
    if steps == [] then s else SystemFrom(c, Do(c, s, steps[0]), steps[1..])
  }

  /** No count of the run is completed in a drained state of the memory. */
  predicate NeverDrained(c: Config, s: System, steps: seq<Step>)
    requires IsSystemRun(c, s, steps)
    decreases |steps|
  {
    steps == [] ||
    ((steps[0].SecondRead? ==> !Memory.Drained(s.memory)) && NeverDrained(c, Do(c, s, steps[0]), steps[1..]))
  }

  // ---- the protocol's view of a step ----

  /** The protocol's event that a step is, or none. */
  function EventsOf(s: System, step: Step): seq<Event> {
    match step
    case Callback(block) => [Send(block)]
    case SecondRead => if s.memory.consumer.Compared? then [Event.Output(ReadingOf(s.memory))] else []
    case Increment => [PushResult]
    case Return => [Finish]
    case _ => []
  }

  function Remaining(s: System): nat {
    if s.audio.Answering? then s.audio.demand else 0
  }

  ghost predicate SharedAgrees(s: System, w: World) {
    && w.p.Valid() && s.pipe == w.p.(outRing := NO_RING) && !w.p.loading
    && w.pos == s.pos && w.launches == s.launches
  }

  /** The protocol's ring is the atomic ring of the memory after the pops that the running answer still owes. */
  ghost predicate RingAgrees(s: System, w: World, r: Ring) {
    && Memory.Inv(s.memory) && Abstracts(s.memory, r)
    && Remaining(s) <= r.count && w.p.outRing == PopMany(r, Remaining(s)).1
  }

  ghost predicate AudioAgrees(s: System, w: World, r: Ring)
    requires r.Valid()
  {
    match s.audio
    case Between => !w.mid && s.memory.consumer.Idle? && w.emitted == s.emitted
    case Holding(block) => w.mid && w.block == block && s.memory.consumer.Idle? && w.emitted == s.emitted
    case Counting(block) => w.mid && w.block == block && s.memory.consumer.Compared? && w.emitted == s.emitted
    case Answering(block, outcome, demand, taken) =>
      && !w.mid && (s.memory.consumer.Popping? || s.memory.consumer.SlotRead?)
      && (demand == 0 || demand <= Budget(s.memory))
      && |taken| + demand == Demand(outcome, |block|)
      && w.emitted == s.emitted + BlockOf(outcome, block, taken + PopMany(r, demand).0)
  }

  ghost predicate ProducerAgrees(c: Config, s: System, w: World) {
    && (!s.memory.producer.Ready? ==> s.pipe.running)
    && (s.pipe.running ==> s.launches > 0)
    && (s.memory.producer.Incremented? ==> s.pos > 0)
    && (s.memory.producer.SlotWritten? ==>
          && s.pos < |Output(c, s)| && s.memory.published < |s.memory.written|
          && s.memory.written[s.memory.published] == Clean(Output(c, s)[s.pos]))
  }

  /** The physical read position and what is known between the two reads. */
  ghost predicate PositionAgrees(s: System, w: World) {
    var m, end, count := s.memory, |s.memory.slots|, Memory.UnreadCount(s.memory);
    && Remaining(s) < end && w.readPos == SlotFrom(m, Remaining(s))
    && (w.mid && s.pipe.running ==> w.active)
    && (w.mid ==> w.sentCount <= count)
    && (m.consumer == Memory.Compared(true) ==>
          && m.readPos + w.sentCount <= end
          && (m.readPos + count >= end ==> w.active && s.pos > 0 && m.readPos + count < end + s.pos))
  }

  ghost predicate Related(c: Config, s: System, w: World, r: Ring) {
    && SharedAgrees(s, w) && RingAgrees(s, w, r) && AudioAgrees(s, w, r) && ProducerAgrees(c, s, w)
    && PositionAgrees(s, w)
  }

  // ---- the audio thread ----

  lemma SendIgnoresOutRing(M: nat, K: nat, p: Pipe, block: seq<Sample>, ring: Ring)
    requires p.Valid() && ring.Valid()
    ensures SendAudio(M, K, p.(outRing := ring), block) == SendAudio(M, K, p, block).(outRing := ring)
    ensures Launches(M, p.(outRing := ring), block) == Launches(M, p, block)
    ensures SendAudio(M, K, p, block).outRing == p.outRing && SendAudio(M, K, p, block).loading == p.loading
    ensures SendAudio(M, K, p, block).running == (p.running || Launches(M, p, block))
    ensures !Launches(M, p, block) ==> SendAudio(M, K, p, block).inputData == p.inputData
  {
  }

  lemma CallbackSimulates(c: Config, s: System, w: World, r: Ring, block: seq<Sample>)
    requires Related(c, s, w, r) && CanStep(c, s, Callback(block))
    ensures Protocol.Enabled(c, w, Send(block))
    ensures Related(c, Do(c, s, Callback(block)), Protocol.Next(c, w, Send(block)), r)
  {
    SendIgnoresOutRing(c.M, c.K, w.p, block, NO_RING);
    assert PopMany(r, 0).1 == r;
  }

  lemma FirstReadSimulates(c: Config, s: System, w: World, r: Ring)
    requires Related(c, s, w, r) && CanStep(c, s, FirstRead)
    ensures Related(c, Do(c, s, FirstRead), w, r)
  {
    Memory.InvNext(s.memory, Memory.FirstRead);
    StepRefines(s.memory, Memory.FirstRead, r);
    if s.memory.readPos <= s.memory.writePos {
      AheadMeansNotPast(s.memory);
    }
  }

  /** At the first read the write position is not past the end of the memory, unless it stands on it. */
  lemma AheadMeansNotPast(m: Memory.State)
    requires Memory.Inv(m) && m.readPos <= m.writePos
    ensures var written := m.readPos + Memory.UnreadCount(m);
      written <= |m.slots| && (written == |m.slots| ==> m.producer.Incremented?)
  {
  }

  /** A torn count is enabled in the protocol: its guard is a fact of the memory. */
  lemma TornMayTear(c: Config, s: System, w: World, r: Ring)
    requires Related(c, s, w, r) && s.audio.Counting? && Memory.Torn(s.memory)
    ensures MayTear(w)
  {
    assert PopMany(r, 0).1 == r;
    TornIsPastTheEnd(s.memory);
  }

  lemma TornIsPastTheEnd(m: Memory.State)
    requires Memory.Inv(m) && m.consumer.Compared? && Memory.Torn(m)
    ensures m.consumer == Memory.Compared(true) && m.readPos + Memory.UnreadCount(m) >= |m.slots|
  {
  }

  /** So is a drained one, which the protocol's drained answer sees as it is. */
  lemma DrainedIsEnabled(c: Config, s: System, w: World, r: Ring)
    requires Related(c, s, w, r) && s.audio.Counting? && Memory.Drained(s.memory)
    ensures Protocol.Enabled(c, w, Event.Output(Drained)) && Memory.Counted(s.memory) == Seen(w, Drained)
  {
    assert PopMany(r, 0).1 == r;
    DrainedIsFull(s.memory);
  }

  lemma DrainedIsFull(m: Memory.State)
    requires Memory.Inv(m) && m.consumer.Compared? && Memory.Drained(m)
    ensures Memory.UnreadCount(m) == 0 && m.producer.Incremented? && m.readPos == 0
    ensures Memory.Counted(m) == |m.slots|
  {
    Memory.InvCounts(m);
  }

  lemma WrapOnce(pos: nat, k: nat, end: nat)
    requires pos < end && k < end
    ensures (pos + k) % end == if pos + k < end then pos + k else pos + k - end
  {
    if pos + k < end {
      DivModUnique(pos + k, end, 0, pos + k);
    } else {
      DivModUnique(pos + k, end, 1, pos + k - end);
    }
  }

  lemma OutputKeeps(w: World, read: Reading)
    requires w.p.Valid() && w.readPos < |w.p.outRing.slots|
    requires Demand(Decide(w.p, |w.block|, Seen(w, read)), |w.block|) < |w.p.outRing.slots|
    ensures var w', end := OutputStep(w, read), |w.p.outRing.slots|;
      var there := w.readPos + Demand(Decide(w.p, |w.block|, Seen(w, read)), |w.block|);
      && w'.pos == w.pos && w'.launches == w.launches && !w'.mid && w'.emitted == w.emitted + Heard(w, read)
      && w'.readPos == (if there < end then there else there - end)
  {
    WrapOnce(w.readPos, Demand(Decide(w.p, |w.block|, Seen(w, read)), |w.block|), |w.p.outRing.slots|);
  }

  /** The outcome is the protocol's, and what it demands is there. */
  lemma OutcomeAgrees(c: Config, s: System, w: World, r: Ring)
    requires Related(c, s, w, r) && CanStep(c, s, SecondRead) && !Memory.Drained(s.memory)
    ensures var outcome, n := Decide(w.p, |w.block|, Seen(w, ReadingOf(s.memory))), |w.block|;
      && w.p.outRing == r && s.audio.block == w.block
      && Decide(s.pipe, n, Memory.Counted(s.memory)) == outcome
      && Demand(outcome, n) <= r.count && (Demand(outcome, n) > 0 ==> Demand(outcome, n) <= Memory.Counted(s.memory))
  {
    assert PopMany(r, 0).1 == r;
    CountIsSeen(s.memory, w);
    Memory.InvCounts(s.memory);
  }

  lemma SecondReadIsEnabled(c: Config, s: System, w: World, r: Ring)
    requires Related(c, s, w, r) && CanStep(c, s, SecondRead) && !Memory.Drained(s.memory)
    ensures var read := ReadingOf(s.memory); Protocol.Enabled(c, w, Event.Output(read)) && !read.Drained?
  {
    if Memory.Torn(s.memory) {
      TornMayTear(c, s, w, r);
    }
  }

  lemma SecondReadShared(c: Config, s: System, w: World, r: Ring)
    requires Related(c, s, w, r) && CanStep(c, s, SecondRead) && !Memory.Drained(s.memory)
    ensures SharedAgrees(Do(c, s, SecondRead), OutputStep(w, ReadingOf(s.memory)))
    ensures ProducerAgrees(c, Do(c, s, SecondRead), OutputStep(w, ReadingOf(s.memory)))
  {
    OutcomeAgrees(c, s, w, r);
    AnswerIs(w, ReadingOf(s.memory));
  }

  lemma SecondReadRing(c: Config, s: System, w: World, r: Ring)
    requires Related(c, s, w, r) && CanStep(c, s, SecondRead) && !Memory.Drained(s.memory)
    ensures RingAgrees(Do(c, s, SecondRead), OutputStep(w, ReadingOf(s.memory)), r)
  {
    OutcomeAgrees(c, s, w, r);
    AnswerIs(w, ReadingOf(s.memory));
    Memory.InvNext(s.memory, Memory.SecondRead);
    StepRefines(s.memory, Memory.SecondRead, r);
  }

  lemma SecondReadAudio(c: Config, s: System, w: World, r: Ring)
    requires Related(c, s, w, r) && CanStep(c, s, SecondRead) && !Memory.Drained(s.memory)
    ensures AudioAgrees(Do(c, s, SecondRead), OutputStep(w, ReadingOf(s.memory)), r)
    ensures PositionAgrees(Do(c, s, SecondRead), OutputStep(w, ReadingOf(s.memory)))
  {
    OutcomeAgrees(c, s, w, r);
    AnswerIs(w, ReadingOf(s.memory));
    OutputKeeps(w, ReadingOf(s.memory));
    var taken := PopMany(r, Demand(Decide(w.p, |w.block|, Seen(w, ReadingOf(s.memory))), |w.block|)).0;
    assert [] + taken == taken;
  }

  lemma SecondReadSimulates(c: Config, s: System, w: World, r: Ring)
    requires Related(c, s, w, r) && CanStep(c, s, SecondRead) && !Memory.Drained(s.memory)
    ensures var read := ReadingOf(s.memory);
      && Protocol.Enabled(c, w, Event.Output(read)) && !read.Drained?
      && Related(c, Do(c, s, SecondRead), OutputStep(w, read), r)
  {
    SecondReadIsEnabled(c, s, w, r);
    SecondReadShared(c, s, w, r);
    SecondReadRing(c, s, w, r);
    SecondReadAudio(c, s, w, r);
  }

  lemma ReadSlotSimulates(c: Config, s: System, w: World, r: Ring)
    requires Related(c, s, w, r) && CanStep(c, s, ReadSlot)
    ensures Related(c, Do(c, s, ReadSlot), w, r)
  {
    Memory.InvNext(s.memory, Memory.ReadSlot);
    StepRefines(s.memory, Memory.ReadSlot, r);
  }

  lemma ValueIsPopped(m: Memory.State, r: Ring)
    requires Memory.Inv(m) && Abstracts(m, r) && m.consumer.SlotRead?
    ensures m.consumer.value == Pop(r).0 && r.count > 0
  {
    AdvanceRefines(m, r);
    assert m.popped + [m.consumer.value] == m.popped + [Pop(r).0];
    assert (m.popped + [m.consumer.value])[|m.popped|] == (m.popped + [Pop(r).0])[|m.popped|];
  }

  lemma AdvanceReadRing(c: Config, s: System, w: World, r: Ring)
    requires Related(c, s, w, r) && CanStep(c, s, AdvanceRead)
    ensures RingAgrees(Do(c, s, AdvanceRead), w, Pop(r).1)
  {
    Memory.InvNext(s.memory, Memory.AdvanceRead);
    AdvanceRefines(s.memory, r);
    ValueIsPopped(s.memory, r);
    PopManyFirst(r, s.audio.demand - 1);
  }

  lemma AdvanceReadAudio(c: Config, s: System, w: World, r: Ring)
    requires Related(c, s, w, r) && CanStep(c, s, AdvanceRead)
    ensures AudioAgrees(Do(c, s, AdvanceRead), w, Pop(r).1)
  {
    ValueIsPopped(s.memory, r);
    var a := s.audio;
    PopManyFirst(r, a.demand - 1);
    assert a.taken + ([Pop(r).0] + PopMany(Pop(r).1, a.demand - 1).0)
        == (a.taken + [Pop(r).0]) + PopMany(Pop(r).1, a.demand - 1).0;
  }

  lemma AdvanceReadPosition(c: Config, s: System, w: World, r: Ring)
    requires Related(c, s, w, r) && CanStep(c, s, AdvanceRead)
    ensures PositionAgrees(Do(c, s, AdvanceRead), w)
  {
  }

  lemma AdvanceReadShared(c: Config, s: System, w: World, r: Ring)
    requires Related(c, s, w, r) && CanStep(c, s, AdvanceRead)
    ensures SharedAgrees(Do(c, s, AdvanceRead), w) && ProducerAgrees(c, Do(c, s, AdvanceRead), w)
  {
  }

  lemma AdvanceReadSimulates(c: Config, s: System, w: World, r: Ring)
    requires Related(c, s, w, r) && CanStep(c, s, AdvanceRead)
    ensures Related(c, Do(c, s, AdvanceRead), w, Pop(r).1)
  {
    AdvanceReadShared(c, s, w, r);
    AdvanceReadRing(c, s, w, r);
    AdvanceReadAudio(c, s, w, r);
    AdvanceReadPosition(c, s, w, r);
  }

  lemma HandBackSimulates(c: Config, s: System, w: World, r: Ring)
    requires Related(c, s, w, r) && CanStep(c, s, HandBack)
    ensures Related(c, Do(c, s, HandBack), w, r)
  {
    Memory.InvNext(s.memory, Memory.StopPopping);
    StepRefines(s.memory, Memory.StopPopping, r);
    assert s.audio.taken + PopMany(r, 0).0 == s.audio.taken;
  }

  // ---- the inference thread ----

  lemma WriteSlotSimulates(c: Config, s: System, w: World, r: Ring)
    requires Related(c, s, w, r) && CanStep(c, s, WriteSlot)
    ensures Related(c, Do(c, s, WriteSlot), w, r)
  {
    var step := MemoryStep(c, s, WriteSlot);
    Memory.InvNext(s.memory, step);
    StepRefines(s.memory, step, r);
  }

  lemma IncrementPushes(c: Config, s: System, w: World, r: Ring) returns (x: Sample)
    requires Related(c, s, w, r) && CanStep(c, s, Increment)
    ensures Protocol.Enabled(c, w, PushResult) && x == Result(c, w)[w.pos]
    ensures Push(r, s.memory.written[s.memory.published]) == Push(r, x) && r.count + 1 < |r.slots|
  {
    x := Output(c, s)[s.pos];
  }

  lemma IncrementRing(c: Config, s: System, w: World, r: Ring, x: Sample)
    requires Related(c, s, w, r) && CanStep(c, s, Increment) && Protocol.Enabled(c, w, PushResult)
    requires x == Result(c, w)[w.pos] && r.count + 1 < |r.slots|
    requires Push(r, s.memory.written[s.memory.published]) == Push(r, x)
    ensures RingAgrees(Do(c, s, Increment), Protocol.Next(c, w, PushResult), Push(r, x))
    ensures AudioAgrees(Do(c, s, Increment), Protocol.Next(c, w, PushResult), Push(r, x))
  {
    Memory.InvNext(s.memory, Memory.Increment);
    IncrementRefines(s.memory, r);
    PopManyAfterPush(r, x, Remaining(s));
  }

  lemma IncrementPosition(c: Config, s: System, w: World, r: Ring)
    requires Related(c, s, w, r) && CanStep(c, s, Increment) && Protocol.Enabled(c, w, PushResult)
    ensures PositionAgrees(Do(c, s, Increment), Protocol.Next(c, w, PushResult))
  {
  }

  lemma IncrementSimulates(c: Config, s: System, w: World, r: Ring) returns (r': Ring)
    requires Related(c, s, w, r) && CanStep(c, s, Increment)
    ensures Protocol.Enabled(c, w, PushResult)
    ensures Related(c, Do(c, s, Increment), Protocol.Next(c, w, PushResult), r')
  {
    var x := IncrementPushes(c, s, w, r);
    r' := Push(r, x);
    IncrementRing(c, s, w, r, x);
    IncrementPosition(c, s, w, r);
  }

  lemma WrapSimulates(c: Config, s: System, w: World, r: Ring)
    requires Related(c, s, w, r) && CanStep(c, s, Wrap)
    ensures Related(c, Do(c, s, Wrap), w, r)
  {
    Memory.InvNext(s.memory, Memory.Wrap);
    StepRefines(s.memory, Memory.Wrap, r);
  }

  lemma ReturnSimulates(c: Config, s: System, w: World, r: Ring)
    requires Related(c, s, w, r) && CanStep(c, s, Return)
    ensures Protocol.Enabled(c, w, Finish)
    ensures Related(c, Do(c, s, Return), Protocol.Next(c, w, Finish), r)
  {
  }

  // ---- runs ----

  lemma StutterSimulates(c: Config, s: System, w: World, r: Ring, step: Step) returns (r': Ring)
    requires Related(c, s, w, r) && CanStep(c, s, step) && EventsOf(s, step) == [] && !step.SecondRead?
    ensures Related(c, Do(c, s, step), w, r')
  {
    r' := r;
    match step
    case FirstRead => FirstReadSimulates(c, s, w, r);
    case ReadSlot => ReadSlotSimulates(c, s, w, r);
    case AdvanceRead =>
      AdvanceReadSimulates(c, s, w, r);
      r' := Pop(r).1;
    case HandBack => HandBackSimulates(c, s, w, r);
    case WriteSlot => WriteSlotSimulates(c, s, w, r);
    case Wrap => WrapSimulates(c, s, w, r);
  }

  lemma EventSimulates(c: Config, s: System, w: World, r: Ring, step: Step, e: Event) returns (r': Ring)
    requires Related(c, s, w, r) && CanStep(c, s, step) && EventsOf(s, step) == [e]
    requires step.SecondRead? ==> !Memory.Drained(s.memory)
    ensures Protocol.Enabled(c, w, e) && RunningEvent(w, e)
    ensures Related(c, Do(c, s, step), Protocol.Next(c, w, e), r')
  {
    r' := r;
    match step
    case Callback(block) => CallbackSimulates(c, s, w, r, block);
    case SecondRead => SecondReadSimulates(c, s, w, r);
    case Increment => r' := IncrementSimulates(c, s, w, r);
    case Return => ReturnSimulates(c, s, w, r);
  }

  /** A run of the protocol without an answer behind the gate on a drained count. */
  predicate ThreadsRun(c: Config, w: World, es: seq<Event>)
    decreases |es|
  {
    es == [] ||
    (Protocol.Enabled(c, w, es[0]) && RunningEvent(w, es[0]) && ThreadsRun(c, Protocol.Next(c, w, es[0]), es[1..]))
  }

  function AllEvents(c: Config, s: System, steps: seq<Step>): seq<Event>
    requires IsSystemRun(c, s, steps)
    decreases |steps|
  {
    if steps == [] then [] else EventsOf(s, steps[0]) + AllEvents(c, Do(c, s, steps[0]), steps[1..])
  }

  lemma {:induction false} ThreadsRunIsRun(c: Config, w: World, es: seq<Event>)
    requires ThreadsRun(c, w, es)
    ensures IsRun(c, w, es)
    decreases |es|
  {
    if es != [] {
      ThreadsRunIsRun(c, Protocol.Next(c, w, es[0]), es[1..]);
    }
  }

  /**
   Simulation. Every run of the two threads in which no count is completed in a drained state is a run of the
   protocol, event for event, and ends in a related state.
   */
  lemma {:induction false} RunSimulates(c: Config, s: System, w: World, r: Ring, steps: seq<Step>) returns (r': Ring)
    requires Related(c, s, w, r) && IsSystemRun(c, s, steps) && NeverDrained(c, s, steps)
    ensures var es := AllEvents(c, s, steps);
      && ThreadsRun(c, w, es) && IsRun(c, w, es)
      && Related(c, SystemFrom(c, s, steps), RunFrom(c, w, es), r')
    decreases |steps|
  {
    if steps == [] {
      r' := r;
    } else {
      var es, s1 := EventsOf(s, steps[0]), Do(c, s, steps[0]);
      if es == [] {
        var r1 := StutterSimulates(c, s, w, r, steps[0]);
        r' := RunSimulates(c, s1, w, r1, steps[1..]);
        assert AllEvents(c, s, steps) == AllEvents(c, s1, steps[1..]);
      } else {
        var e := es[0];
        var r1 := EventSimulates(c, s, w, r, steps[0], e);
        r' := RunSimulates(c, s1, Protocol.Next(c, w, e), r1, steps[1..]);
        var rest := AllEvents(c, s1, steps[1..]);
        assert AllEvents(c, s, steps) == [e] + rest && ([e] + rest)[1..] == rest;
      }
    }
  }

  /** After prepare: empty rings over whatever memory the host gave, the gate closed, the thread idle. */
  function Initial(inRing: Ring, slots: seq<Sample>, inputData: seq<Sample>): System {
    System(Pipe(inRing, NO_RING, true, 0, false, false, inputData, 0), Memory.Start(slots), 0, 0, Between, [])
  }

  function InitialWorld(inRing: Ring, slots: seq<Sample>, inputData: seq<Sample>): World {
    Prepared(Pipe(inRing, Ring(slots, 0), true, 0, false, false, inputData, 0), false, [], 0, 0)
  }

  lemma InitialIsRelated(c: Config, inRing: Ring, slots: seq<Sample>, inputData: seq<Sample>)
    requires inRing.count == 0 && |inRing.slots| == |slots| == c.cap > 0
    ensures Fresh(c, InitialWorld(inRing, slots, inputData))
    ensures Related(c, Initial(inRing, slots, inputData), InitialWorld(inRing, slots, inputData), Ring(slots, 0))
  {
    Memory.InvStart(slots);
    StartAbstracts(slots);
    assert PopMany(Ring(slots, 0), 0).1 == Ring(slots, 0);
  }

  /**
   The protocol is what the program does: from the prepared state, every run of the two threads without a drained
   count hands the host exactly what the corresponding run of the protocol emits, whenever no answer is under way.
   */
  lemma {:induction false} ProgramRefinesProtocol(
    c: Config, inRing: Ring, slots: seq<Sample>, inputData: seq<Sample>, steps: seq<Step>)
    requires inRing.count == 0 && |inRing.slots| == |slots| == c.cap > 0
    requires var s := Initial(inRing, slots, inputData); IsSystemRun(c, s, steps) && NeverDrained(c, s, steps)
    ensures var s, w := Initial(inRing, slots, inputData), InitialWorld(inRing, slots, inputData);
      var es := AllEvents(c, s, steps);
      && Fresh(c, w) && ThreadsRun(c, w, es) && IsRun(c, w, es)
      && var s', w' := SystemFrom(c, s, steps), RunFrom(c, w, es);
         && s'.pipe.counter == w'.p.counter && s'.pipe.init == w'.p.init && s'.pipe.inRing == w'.p.inRing
         && (!s'.audio.Answering? ==> s'.emitted == w'.emitted)
  {
    InitialIsRelated(c, inRing, slots, inputData);
    var s, w := Initial(inRing, slots, inputData), InitialWorld(inRing, slots, inputData);
    var r := RunSimulates(c, s, w, Ring(slots, 0), steps);
  }

  /** The guard of the memory never holds the inference thread up while the protocol's blocks find room: what an
      answer has counted but not yet popped is room that its block brought. */
  lemma ProducerIsNeverBlocked(c: Config, s: System, w: World, r: Ring)
    requires ValidConfig(c) && Related(c, s, w, r) && Inv(c, w) && |s.memory.slots| == c.cap
    requires Backlog(w) + Remaining(s) < c.cap && s.pipe.running && s.memory.producer.Ready? && s.pos < c.M
    ensures CanStep(c, s, WriteSlot)
  {
    SystemTotal(c, w);
    PopManyCount(r, Remaining(s));
  }
}
