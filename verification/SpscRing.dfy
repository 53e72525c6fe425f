/**
 The ring between two threads, one atomic access at a time (source/dsp/onnx/RingBuffer.cpp:29-76).

 The producer writes a slot, then increments its position, then wraps it; the consumer counts with two
 separate reads of the producer's position, then pops as many samples as it counted. Interleavings are
 sequentially consistent. The guard on the environment is that the producer never writes into a ring
 with `N - 1` published unread samples.

 Two counts are wrong. A count whose two reads straddle the producer's wrap is short by the capacity. A count made
 while the ring is drained and the producer sits between its increment and its wrap is too long by
 the capacity: the position that equals the capacity for a moment is harmful exactly there.
 */
module SpscRing {
  import opened Samples

  datatype Producer = Ready | SlotWritten | Incremented

  /** `Compared(ahead)`: the first read of the write position is done; `ahead` is the branch it selected. */
  datatype Consumer = Idle | Compared(ahead: bool) | Popping(budget: int) | SlotRead(value: Sample, budget: int)

  datatype State = State(
    // the object
    slots: seq<Sample>, readPos: nat, writePos: nat,
    // program counters with the locals that live across accesses
    producer: Producer, consumer: Consumer,
    // history: samples written (cleaned), samples published by an increment, samples handed out
    written: seq<Sample>, published: nat, popped: seq<Sample>,
    // history: the stream index that slot 0 has in the reader's current lap
    base: nat)

  datatype Step =
    | WriteSlot(x: Sample) | Increment | Wrap
    | FirstRead | SecondRead | ReadSlot | AdvanceRead | StopPopping

  function Start(slots: seq<Sample>): State {
    State(slots, 0, 0, Ready, Idle, [], 0, [], 0)
  }

  predicate Enabled(s: State, step: Step) {
    match step
    case WriteSlot(x) => s.producer.Ready? && s.writePos < |s.slots| && s.published - |s.popped| < |s.slots| - 1
    case Increment => s.producer.SlotWritten?
    case Wrap => s.producer.Incremented?
    case FirstRead => s.consumer.Idle?
    case SecondRead => s.consumer.Compared?
    case ReadSlot => s.consumer.Popping? && s.consumer.budget > 0 && s.readPos < |s.slots|
    case AdvanceRead => s.consumer.SlotRead?
    case StopPopping => s.consumer.Popping?
  }

  /** The number `getAvailableSamples` returns when its second read happens now. */
  function Counted(s: State): int
    requires s.consumer.Compared?
  {
    if s.consumer.ahead then s.writePos - s.readPos else s.writePos + |s.slots| - s.readPos
  }

  function Next(s: State, step: Step): State
    requires Enabled(s, step)
  {
    match step
    case WriteSlot(x) =>
      s.(slots := s.slots[s.writePos := Clean(x)], producer := SlotWritten, written := s.written + [Clean(x)])
    case Increment => s.(writePos := s.writePos + 1, producer := Incremented, published := s.published + 1)
    case Wrap =>
      if s.writePos >= |s.slots| then s.(writePos := 0, producer := Ready) else s.(producer := Ready)
    case FirstRead => s.(consumer := Compared(s.readPos <= s.writePos))
    case SecondRead => s.(consumer := Popping(Counted(s)))
    case ReadSlot => s.(consumer := SlotRead(Clean(s.slots[s.readPos]), s.consumer.budget))
    case AdvanceRead =>
      var r := s.readPos + 1;
      var done := s.(consumer := Popping(s.consumer.budget - 1), popped := s.popped + [s.consumer.value]);
      if r >= |s.slots| then done.(readPos := 0, base := s.base + |s.slots|) else done.(readPos := r)
    case StopPopping => s.(consumer := Idle)
  }

  /** Everything published is popped and the producer is between its increment and its wrap. */
  predicate Drained(s: State) {
    s.readPos == 0 && s.writePos == |s.slots|
  }

  /** The producer wrapped between the consumer's two reads. */
  predicate Torn(s: State)
    requires s.consumer.Compared?
  {
    s.consumer.ahead && s.writePos < s.readPos
  }

  predicate IsRun(s: State, steps: seq<Step>)
    decreases |steps|
  {
    steps == [] || (Enabled(s, steps[0]) && IsRun(Next(s, steps[0]), steps[1..]))
  }

  /** No count is completed in a drained state. */
  predicate NeverCountsDrained(s: State, steps: seq<Step>)
    requires IsRun(s, steps)
    decreases |steps|
  {
    steps == [] || ((steps[0].SecondRead? ==> !Drained(s)) && NeverCountsDrained(Next(s, steps[0]), steps[1..]))
  }

  function RunFrom(s: State, steps: seq<Step>): State
    requires IsRun(s, steps)
    decreases |steps|
  {
    if steps == [] then s else RunFrom(Next(s, steps[0]), steps[1..])
  }

  /** Samples whose slot is written and whose increment has happened, and which nobody has popped. */
  function UnreadCount(s: State): int {
    s.published - |s.popped|
  }

  /** The slot that holds stream index `i`, for an index in the reader's lap or the one after it. */
  function SlotOf(s: State, i: int): int {
    if i - s.base < |s.slots| then i - s.base else i - s.base - |s.slots|
  }

  ghost predicate ProducerInv(s: State) {
    && s.published <= |s.written| <= s.published + 1
    && (s.producer.SlotWritten? <==> |s.written| == s.published + 1)
    && (s.producer.SlotWritten? ==> UnreadCount(s) < |s.slots| - 1)
    && (s.writePos == SlotOf(s, s.published)
        || (s.producer.Incremented? && s.writePos == |s.slots| && SlotOf(s, s.published) == 0))
    && (s.writePos == |s.slots| ==> s.producer.Incremented?)
  }

  ghost predicate ConsumerInv(s: State) {
    && s.readPos == |s.popped| - s.base < |s.slots|
    && s.popped <= s.written
    && match s.consumer
       case Idle => true
       case Compared(ahead) => ahead || (s.published - s.base >= |s.slots| && s.writePos < |s.slots|)
       case Popping(budget) => budget <= UnreadCount(s)
       case SlotRead(value, budget) =>
         0 < budget <= UnreadCount(s) && |s.popped| < |s.written| && value == s.written[|s.popped|]
  }

  ghost predicate Shape(s: State) {
    && |s.slots| > 0
    && AllClean(s.written)
    && s.base <= |s.popped| <= s.published
    && UnreadCount(s) < |s.slots|
    && ProducerInv(s)
    && ConsumerInv(s)
  }

  ghost predicate SlotsHold(s: State) {
    forall i :: |s.popped| <= i < |s.written| ==> 0 <= SlotOf(s, i) < |s.slots| && s.slots[SlotOf(s, i)] == s.written[i]
  }

  ghost predicate Inv(s: State) {
    Shape(s) && SlotsHold(s)
  }

  lemma InvStart(slots: seq<Sample>)
    requires |slots| > 0
    ensures Inv(Start(slots))
  {
  }

  lemma ShapeOfProducerStep(s: State, step: Step)
    requires Shape(s) && Enabled(s, step)
    requires step.WriteSlot? || step.Increment? || step.Wrap?
    ensures Shape(Next(s, step))
  {
  }

  lemma ShapeOfConsumerStep(s: State, step: Step)
    requires Inv(s) && Enabled(s, step)
    requires step.FirstRead? || step.SecondRead? || step.ReadSlot? || step.AdvanceRead? || step.StopPopping?
    requires step.SecondRead? ==> !Drained(s)
    ensures Shape(Next(s, step))
  {
    if step.ReadSlot? {
      assert SlotOf(s, |s.popped|) == s.readPos;
    }
  }

  lemma SlotsOfWrite(s: State, x: Sample)
    requires Inv(s) && Enabled(s, WriteSlot(x))
    ensures SlotsHold(Next(s, WriteSlot(x)))
  {
    var t := Next(s, WriteSlot(x));
    forall i | |t.popped| <= i < |t.written|
      ensures 0 <= SlotOf(t, i) < |t.slots| && t.slots[SlotOf(t, i)] == t.written[i]
    {
      assert i < |s.written| ==> SlotOf(s, i) != s.writePos && s.slots[SlotOf(s, i)] == s.written[i];
    }
  }

  lemma SlotsOfAdvance(s: State)
    requires Inv(s) && Enabled(s, AdvanceRead)
    ensures SlotsHold(Next(s, AdvanceRead))
  {
    var t := Next(s, AdvanceRead);
    forall i | |t.popped| <= i < |t.written|
      ensures 0 <= SlotOf(t, i) < |t.slots| && t.slots[SlotOf(t, i)] == t.written[i]
    {
      assert SlotOf(t, i) == SlotOf(s, i);
      assert s.slots[SlotOf(s, i)] == s.written[i];
    }
  }

  lemma SlotsOfOther(s: State, step: Step)
    requires Inv(s) && Enabled(s, step) && !step.WriteSlot? && !step.AdvanceRead?
    ensures SlotsHold(Next(s, step))
  {
    var t := Next(s, step);
    forall i | |t.popped| <= i < |t.written|
      ensures 0 <= SlotOf(t, i) < |t.slots| && t.slots[SlotOf(t, i)] == t.written[i]
    {
      assert SlotOf(t, i) == SlotOf(s, i);
    }
  }

  lemma InvNext(s: State, step: Step)
    requires Inv(s) && Enabled(s, step)
    requires step.SecondRead? ==> !Drained(s)
    ensures Inv(Next(s, step))
  {
    if step.WriteSlot? || step.Increment? || step.Wrap? {
      ShapeOfProducerStep(s, step);
    } else {
      ShapeOfConsumerStep(s, step);
    }
    if step.WriteSlot? {
      SlotsOfWrite(s, step.x);
    } else if step.AdvanceRead? {
      SlotsOfAdvance(s);
    } else {
      SlotsOfOther(s, step);
    }
  }

  /** The samples of the `WriteSlot` steps, in order, as the ring stores them. */
  function Pushed(steps: seq<Step>): seq<Sample> {
    if steps == [] then [] else
      (if steps[0].WriteSlot? then [Clean(steps[0].x)] else []) + Pushed(steps[1..])
  }

  lemma {:induction false} RunKeepsInv(s: State, steps: seq<Step>)
    requires Inv(s) && IsRun(s, steps) && NeverCountsDrained(s, steps)
    ensures Inv(RunFrom(s, steps))
    decreases |steps|
  {
    if steps != [] {
      InvNext(s, steps[0]);
      RunKeepsInv(Next(s, steps[0]), steps[1..]);
    }
  }

  lemma {:induction false} RunWrites(s: State, steps: seq<Step>)
    requires IsRun(s, steps)
    ensures RunFrom(s, steps).written == s.written + Pushed(steps)
    decreases |steps|
  {
    if steps != [] {
      RunWrites(Next(s, steps[0]), steps[1..]);
    }
  }

  /**
   Main result. Under every interleaving that completes no count in a drained state, the samples handed out are a
   prefix of the samples pushed, in push order, and the count permits pops of published samples only.
   */
  lemma {:induction false} PopsInPushOrder(slots: seq<Sample>, steps: seq<Step>)
    requires |slots| > 0 && IsRun(Start(slots), steps) && NeverCountsDrained(Start(slots), steps)
    ensures var s := RunFrom(Start(slots), steps);
      && s.popped <= Pushed(steps)
      && |s.popped| <= s.published <= |Pushed(steps)|
      && (s.consumer.Popping? ==> s.consumer.budget <= UnreadCount(s))
  {
    InvStart(slots);
    RunKeepsInv(Start(slots), steps);
    RunWrites(Start(slots), steps);
  }

  /**
   What the two reads count, exactly. It is the number of published unread samples, except that it is the
   capacity less when the producer wrapped in between (then it is negative) and the capacity more in a drained
   state. So the count is safe to pop by if and only if the state is not drained.
   */
  lemma {:induction false} CountLaw(slots: seq<Sample>, steps: seq<Step>)
    requires |slots| > 0 && IsRun(Start(slots), steps) && NeverCountsDrained(Start(slots), steps)
    ensures var s := RunFrom(Start(slots), steps); s.consumer.Compared? ==> CountsAsLaid(s)
  {
    InvStart(slots);
    RunKeepsInv(Start(slots), steps);
    if RunFrom(Start(slots), steps).consumer.Compared? {
      InvCounts(RunFrom(Start(slots), steps));
    }
  }

  predicate CountsAsLaid(s: State)
    requires s.consumer.Compared?
  {
    && Counted(s) == UnreadCount(s) + (if Torn(s) then -|s.slots| else if Drained(s) then |s.slots| else 0)
    && (Torn(s) <==> Counted(s) < 0)
    && (Drained(s) ==> UnreadCount(s) == 0)
    && (Counted(s) <= UnreadCount(s) <==> !Drained(s))
  }

  lemma InvCounts(s: State)
    requires Inv(s) && s.consumer.Compared?
    ensures CountsAsLaid(s)
  {
  }

  // ---- both wrong counts are reached at every capacity ----

  /** A ring of n slots after m samples were pushed, counted and popped one by one; all samples are 0. */
  function Warm(n: nat, m: nat): State {
    State(Silence(n), m, m, Ready, Idle, Silence(m), m, Silence(m), 0)
  }

  /** The ring of Warm(n, m) with one sample pushed, and then counted. */
  function WarmPushed(n: nat, m: nat, consumer: Consumer): State {
    State(Silence(n), m, m + 1, Ready, consumer, Silence(m + 1), m + 1, Silence(m), 0)
  }

  /** A run, in which no count is completed in a drained state, from s to t. */
  predicate Leads(s: State, steps: seq<Step>, t: State) {
    IsRun(s, steps) && NeverCountsDrained(s, steps) && RunFrom(s, steps) == t
  }

  lemma WarmPush(n: nat, m: nat, rest: seq<Step>, t: State)
    requires m + 1 < n && Leads(WarmPushed(n, m, Idle), rest, t)
    ensures Leads(Warm(n, m), [WriteSlot(ZERO), Increment, Wrap] + rest, t)
  {
    assert Silence(m) + [ZERO] == Silence(m + 1) && Silence(n)[m := ZERO] == Silence(n);
    assert Next(Next(Next(Warm(n, m), WriteSlot(ZERO)), Increment), Wrap) == WarmPushed(n, m, Idle);
    RunOfThree(Warm(n, m), WriteSlot(ZERO), Increment, Wrap, rest);
  }

  lemma WarmCount(n: nat, m: nat, rest: seq<Step>, t: State)
    requires m + 1 < n && Leads(WarmPushed(n, m, Popping(1)), rest, t)
    ensures Leads(WarmPushed(n, m, Idle), [FirstRead, SecondRead] + rest, t)
  {
    RunOfTwo(WarmPushed(n, m, Idle), FirstRead, SecondRead, rest);
  }

  lemma WarmPop(n: nat, m: nat, rest: seq<Step>, t: State)
    requires m + 1 < n && Leads(Warm(n, m + 1), rest, t)
    ensures Leads(WarmPushed(n, m, Popping(1)), [ReadSlot, AdvanceRead, StopPopping] + rest, t)
  {
    assert Silence(m) + [ZERO] == Silence(m + 1);
    RunOfThree(WarmPushed(n, m, Popping(1)), ReadSlot, AdvanceRead, StopPopping, rest);
  }

  lemma {:induction false} ReachWarm(n: nat, m: nat, rest: seq<Step>, t: State) returns (steps: seq<Step>)
    requires m < n && Leads(Warm(n, m), rest, t)
    ensures Leads(Start(Silence(n)), steps, t)
    decreases m
  {
    if m == 0 {
      assert Silence(0) == [];
      steps := rest;
    } else {
      steps := [ReadSlot, AdvanceRead, StopPopping] + rest;
      WarmPop(n, m - 1, rest, t);
      WarmCount(n, m - 1, steps, t);
      steps := [FirstRead, SecondRead] + steps;
      WarmPush(n, m - 1, steps, t);
      steps := ReachWarm(n, m - 1, [WriteSlot(ZERO), Increment, Wrap] + steps, t);
    }
  }

  /** A torn count does happen, at every capacity: one push between two reads that straddle the wrap. */
  lemma TornCountHappens(n: nat) returns (slots: seq<Sample>, steps: seq<Step>)
    requires n >= 2
    ensures |slots| == n && IsRun(Start(slots), steps) && NeverCountsDrained(Start(slots), steps)
    ensures var s := RunFrom(Start(slots), steps); s.consumer.Compared? && Counted(s) < 0 < UnreadCount(s)
  {
    var s0 := Warm(n, n - 1);
    var s1 := Next(s0, FirstRead);
    var t := Next(Next(Next(s1, WriteSlot(ZERO)), Increment), Wrap);
    RunOfThree(s1, WriteSlot(ZERO), Increment, Wrap, []);
    var r1 := [WriteSlot(ZERO), Increment, Wrap] + [];
    RunOfOne(s0, FirstRead, r1);
    slots := Silence(n);
    steps := ReachWarm(n, n - 1, [FirstRead] + r1, t);
  }

  /** The last slot is written and published, and the wrap is still to come. */
  function Brimful(n: nat, consumer: Consumer): State
    requires n > 0
  {
    State(Silence(n), n - 1, n, Incremented, consumer, Silence(n), n, Silence(n - 1), 0)
  }

  function Dry(n: nat, consumer: Consumer): State {
    State(Silence(n), 0, n, Incremented, consumer, Silence(n), n, Silence(n), n)
  }

  lemma BrimfulPops(n: nat, rest: seq<Step>, t: State)
    requires n >= 2 && Leads(Dry(n, Idle), rest, t)
    ensures Leads(Brimful(n, Popping(1)), [ReadSlot, AdvanceRead, StopPopping] + rest, t)
  {
    assert Silence(n - 1) + [ZERO] == Silence(n);
    RunOfThree(Brimful(n, Popping(1)), ReadSlot, AdvanceRead, StopPopping, rest);
  }

  lemma BrimfulCounts(n: nat, rest: seq<Step>, t: State)
    requires n >= 2 && Leads(Brimful(n, Popping(1)), rest, t)
    ensures Leads(Brimful(n, Idle), [FirstRead, SecondRead] + rest, t)
  {
    RunOfTwo(Brimful(n, Idle), FirstRead, SecondRead, rest);
  }

  lemma WarmFills(n: nat, rest: seq<Step>, t: State)
    requires n >= 2 && Leads(Brimful(n, Idle), rest, t)
    ensures Leads(Warm(n, n - 1), [WriteSlot(ZERO), Increment] + rest, t)
  {
    assert Silence(n - 1) + [ZERO] == Silence(n) && Silence(n)[n - 1 := ZERO] == Silence(n);
    RunOfTwo(Warm(n, n - 1), WriteSlot(ZERO), Increment, rest);
  }

  /** A drained count does happen, at every capacity: the last slot's sample is popped before its wrap, and the next
      count is the capacity with nothing to pop. */
  lemma DrainedCountHappens(n: nat) returns (slots: seq<Sample>, steps: seq<Step>)
    requires n >= 2
    ensures |slots| == n && IsRun(Start(slots), steps) && NeverCountsDrained(Start(slots), steps)
    ensures var s := RunFrom(Start(slots), steps); s.consumer.Compared? && Counted(s) == n && UnreadCount(s) == 0
  {
    var t := Next(Dry(n, Idle), FirstRead);
    RunOfOne(Dry(n, Idle), FirstRead, []);
    var r3 := [FirstRead] + [];
    BrimfulPops(n, r3, t);
    var r2 := [ReadSlot, AdvanceRead, StopPopping] + r3;
    BrimfulCounts(n, r2, t);
    var r1 := [FirstRead, SecondRead] + r2;
    WarmFills(n, r1, t);
    slots := Silence(n);
    steps := ReachWarm(n, n - 1, [WriteSlot(ZERO), Increment] + r1, t);
  }

  lemma RunOfOne(s: State, a: Step, rest: seq<Step>)
    requires Enabled(s, a) && IsRun(Next(s, a), rest) && NeverCountsDrained(Next(s, a), rest)
    requires a.SecondRead? ==> !Drained(s)
    ensures IsRun(s, [a] + rest) && NeverCountsDrained(s, [a] + rest)
    ensures RunFrom(s, [a] + rest) == RunFrom(Next(s, a), rest)
  {
    assert ([a] + rest)[1..] == rest;
  }

  lemma RunOfTwo(s: State, a: Step, b: Step, rest: seq<Step>)
    requires Enabled(s, a) && Enabled(Next(s, a), b)
    requires IsRun(Next(Next(s, a), b), rest) && NeverCountsDrained(Next(Next(s, a), b), rest)
    requires !a.SecondRead? && (b.SecondRead? ==> !Drained(Next(s, a)))
    ensures IsRun(s, [a, b] + rest) && NeverCountsDrained(s, [a, b] + rest)
    ensures RunFrom(s, [a, b] + rest) == RunFrom(Next(Next(s, a), b), rest)
  {
    RunOfOne(Next(s, a), b, rest);
    RunOfOne(s, a, [b] + rest);
    assert [a, b] + rest == [a] + ([b] + rest);
  }

  lemma RunOfThree(s: State, a: Step, b: Step, c: Step, rest: seq<Step>)
    requires Enabled(s, a) && Enabled(Next(s, a), b) && Enabled(Next(Next(s, a), b), c)
    requires IsRun(Next(Next(Next(s, a), b), c), rest) && NeverCountsDrained(Next(Next(Next(s, a), b), c), rest)
    requires !a.SecondRead? && !b.SecondRead? && !c.SecondRead?
    ensures IsRun(s, [a, b, c] + rest) && NeverCountsDrained(s, [a, b, c] + rest)
    ensures RunFrom(s, [a, b, c] + rest) == RunFrom(Next(Next(Next(s, a), b), c), rest)
  {
    RunOfOne(Next(Next(s, a), b), c, rest);
    RunOfTwo(s, a, b, [c] + rest);
    assert [a, b, c] + rest == [a, b] + ([c] + rest);
  }
}
