/**
 The interleaved ring of SpscRing refines the atomic ring of Rings, on which the protocol is built
 (source/dsp/onnx/RingBuffer.cpp:29-76, OnnxProcessor.cpp:61-84): a push happens at its increment, a pop when the read
 position moves, and an answer as a whole at its second read of the write position.
 */
module RingRefinement {
  import opened Samples
  import opened Rings
  import opened SpscRing
  import Protocol

  /** The k-th slot from the read position. */
  function SlotFrom(s: State, k: nat): int {
    if s.readPos + k < |s.slots| then s.readPos + k else s.readPos + k - |s.slots|
  }

  /** The atomic ring holds what the memory holds, except in the slot that is being written. */
  ghost predicate Abstracts(s: State, r: Ring) {
    && r.Valid() && |r.slots| == |s.slots| && s.readPos < |s.slots|
    && r.count == UnreadCount(s)
    && forall k :: 0 <= k < |s.slots| ==>
         (k == r.count && s.producer.SlotWritten?) || r.slots[k] == s.slots[SlotFrom(s, k)]
  }

  lemma StartAbstracts(slots: seq<Sample>)
    requires |slots| > 0
    ensures Abstracts(Start(slots), Ring(slots, 0))
  {
    assert forall k :: 0 <= k < |slots| ==> SlotFrom(Start(slots), k) == k;
  }

  /** What a step does to the atomic ring. */
  function Effect(s: State, step: Step, r: Ring): Ring
    requires r.Valid() && Inv(s) && Enabled(s, step)
  {
    match step
    case Increment => Push(r, s.written[s.published])
    case AdvanceRead => Pop(r).1
    case _ => r
  }

  lemma UnwrittenSlot(s: State)
    requires Inv(s) && s.writePos < |s.slots|
    ensures SlotFrom(s, UnreadCount(s)) == s.writePos
  {
  }

  lemma WriteRefines(s: State, x: Sample, r: Ring)
    requires Inv(s) && Abstracts(s, r) && Enabled(s, WriteSlot(x))
    ensures Abstracts(Next(s, WriteSlot(x)), r)
  {
    UnwrittenSlot(s);
    var t := Next(s, WriteSlot(x));
    forall k | 0 <= k < |s.slots| && k != r.count
      ensures r.slots[k] == t.slots[SlotFrom(t, k)]
    {
      assert SlotFrom(t, k) == SlotFrom(s, k) != s.writePos;
    }
  }

  lemma IncrementRefines(s: State, r: Ring)
    requires Inv(s) && Abstracts(s, r) && Enabled(s, Increment)
    ensures Abstracts(Next(s, Increment), Push(r, s.written[s.published]))
  {
    UnwrittenSlot(s);
    assert SlotOf(s, s.published) == s.writePos;
    var t, r' := Next(s, Increment), Push(r, s.written[s.published]);
    forall k | 0 <= k < |s.slots|
      ensures r'.slots[k] == t.slots[SlotFrom(t, k)]
    {
      assert SlotFrom(t, k) == SlotFrom(s, k);
    }
  }

  lemma AdvanceRefines(s: State, r: Ring)
    requires Inv(s) && Abstracts(s, r) && Enabled(s, AdvanceRead)
    ensures Abstracts(Next(s, AdvanceRead), Pop(r).1)
    ensures Next(s, AdvanceRead).popped == s.popped + [Pop(r).0]
  {
    assert SlotOf(s, |s.popped|) == s.readPos == SlotFrom(s, 0);
    var t, r' := Next(s, AdvanceRead), Pop(r).1;
    forall k | 0 <= k < |s.slots| && !(k == r'.count && t.producer.SlotWritten?)
      ensures r'.slots[k] == t.slots[SlotFrom(t, k)]
    {
      if k + 1 < |s.slots| {
        assert r'.slots[k] == r.slots[k + 1] && SlotFrom(t, k) == SlotFrom(s, k + 1);
      } else {
        assert r'.slots[k] == r.slots[0] && SlotFrom(t, k) == s.readPos;
      }
    }
  }

  /** Every step of either thread is the atomic push, the atomic pop, or nothing. */
  lemma StepRefines(s: State, step: Step, r: Ring)
    requires Inv(s) && Abstracts(s, r) && Enabled(s, step)
    ensures Abstracts(Next(s, step), Effect(s, step, r))
    ensures Next(s, step).popped == s.popped + (if step.AdvanceRead? then [Pop(r).0] else [])
  {
    match step
    case WriteSlot(x) => WriteRefines(s, x, r);
    case Increment => IncrementRefines(s, r);
    case AdvanceRead => AdvanceRefines(s, r);
    case Wrap => SameSlots(s, Next(s, step), r);
    case FirstRead => SameSlots(s, Next(s, step), r);
    case SecondRead => SameSlots(s, Next(s, step), r);
    case ReadSlot => SameSlots(s, Next(s, step), r);
    case StopPopping => SameSlots(s, Next(s, step), r);
  }

  lemma SameSlots(s: State, t: State, r: Ring)
    requires Abstracts(s, r)
    requires t.slots == s.slots && t.readPos == s.readPos && t.published == s.published && t.popped == s.popped
    requires t.producer.SlotWritten? == s.producer.SlotWritten?
    ensures Abstracts(t, r)
  {
    assert forall k: nat :: SlotFrom(t, k) == SlotFrom(s, k);
  }

  function AtomicRun(s: State, steps: seq<Step>, r: Ring): Ring
    requires r.Valid() && Inv(s) && IsRun(s, steps) && NeverCountsDrained(s, steps)
    decreases |steps|
  {
    if steps == [] then r else
      InvNext(s, steps[0]);
      AtomicRun(Next(s, steps[0]), steps[1..], Effect(s, steps[0], r))
  }

  /** Every interleaved run without a drained count is a run of atomic pushes and pops on one ring. */
  lemma {:induction false} RunRefines(s: State, steps: seq<Step>, r: Ring)
    requires Inv(s) && Abstracts(s, r) && IsRun(s, steps) && NeverCountsDrained(s, steps)
    ensures Abstracts(RunFrom(s, steps), AtomicRun(s, steps, r))
    decreases |steps|
  {
    if steps != [] {
      StepRefines(s, steps[0], r);
      InvNext(s, steps[0]);
      RunRefines(Next(s, steps[0]), steps[1..], Effect(s, steps[0], r));
    }
  }

  /** From the start, with whatever the memory held. */
  lemma {:induction false} RunRefinesFromStart(slots: seq<Sample>, steps: seq<Step>)
    requires |slots| > 0 && IsRun(Start(slots), steps) && NeverCountsDrained(Start(slots), steps)
    ensures Inv(Start(slots))
    ensures Abstracts(RunFrom(Start(slots), steps), AtomicRun(Start(slots), steps, Ring(slots, 0)))
  {
    InvStart(slots);
    StartAbstracts(slots);
    RunRefines(Start(slots), steps, Ring(slots, 0));
  }

  // ---- one answer ----

  /** What can happen while the consumer pops. */
  predicate WhilePopping(steps: seq<Step>) {
    forall i :: 0 <= i < |steps| ==> !steps[i].FirstRead? && !steps[i].SecondRead? && !steps[i].StopPopping?
  }

  function Pops(steps: seq<Step>): nat {
    if steps == [] then 0 else (if steps[0].AdvanceRead? then 1 else 0) + Pops(steps[1..])
  }

  /** The samples the producer publishes meanwhile. */
  function Published(s: State, steps: seq<Step>): seq<Sample>
    requires IsRun(s, steps)
    decreases |steps|
  {
    if steps == [] then [] else
      (if steps[0].Increment? && s.published < |s.written| then [s.written[s.published]] else [])
      + Published(Next(s, steps[0]), steps[1..])
  }

  function Budget(s: State): int {
    match s.consumer
    case Popping(budget) => budget
    case SlotRead(_, budget) => budget
    case _ => 0
  }

  /** From s, with atomic ring r, the steps have the effect of all their pops and then all their pushes. */
  ghost predicate PopsThenPushes(s: State, r: Ring, steps: seq<Step>)
    requires r.Valid() && IsRun(s, steps)
  {
    var t, (out, rest) := RunFrom(s, steps), PopMany(r, Pops(steps));
    && (Pops(steps) == 0 || Pops(steps) <= Budget(s) <= r.count)
    && t.popped == s.popped + out && Abstracts(t, PushAll(rest, Published(s, steps)))
  }

  lemma PopsUnfold(s: State, steps: seq<Step>)
    requires IsRun(s, steps) && steps != []
    ensures var s1, more := Next(s, steps[0]), steps[1..];
      && IsRun(s1, more) && RunFrom(s, steps) == RunFrom(s1, more)
      && Pops(steps) == Pops(more) + (if steps[0].AdvanceRead? then 1 else 0)
      && (!steps[0].Increment? ==> Published(s, steps) == Published(s1, more))
      && (steps[0].Increment? && s.published < |s.written| ==>
            Published(s, steps) == [s.written[s.published]] + Published(s1, more))
  {
  }

  lemma PopsThenPushesNow(s: State, r: Ring)
    requires Abstracts(s, r)
    ensures PopsThenPushes(s, r, [])
  {
    assert PopMany(r, 0) == ([], r) && Published(s, []) == [] && PushAll(r, []) == r;
    assert s.popped + [] == s.popped;
  }

  lemma PushFirst(s: State, r: Ring, steps: seq<Step>)
    requires Inv(s) && Abstracts(s, r) && IsRun(s, steps) && steps != [] && steps[0].Increment?
    requires s.consumer.Popping? || s.consumer.SlotRead?
    requires PopsThenPushes(Next(s, Increment), Push(r, s.written[s.published]), steps[1..])
    ensures PopsThenPushes(s, r, steps)
  {
    PopsUnfold(s, steps);
    var x, k, xs := s.written[s.published], Pops(steps[1..]), Published(Next(s, Increment), steps[1..]);
    PopManyAfterPush(r, x, k);
    PushAllFirst(PopMany(r, k).1, [x] + xs);
    assert ([x] + xs)[1..] == xs;
  }

  lemma PopFirstBudget(s: State, r: Ring, k: nat)
    requires Inv(s) && Abstracts(s, r) && s.consumer.SlotRead?
    requires k == 0 || k <= Budget(Next(s, AdvanceRead)) <= Pop(r).1.count
    ensures k + 1 <= Budget(s) <= r.count
  {
  }

  lemma PopFirstPopped(before: seq<Sample>, r: Ring, k: nat)
    requires r.Valid()
    ensures (before + [Pop(r).0]) + PopMany(Pop(r).1, k).0 == before + PopMany(r, k + 1).0
    ensures PopMany(r, k + 1).1 == PopMany(Pop(r).1, k).1
  {
    PopManyFirst(r, k);
  }

  lemma PopFirst(s: State, r: Ring, steps: seq<Step>)
    requires Inv(s) && Abstracts(s, r) && IsRun(s, steps) && steps != [] && steps[0].AdvanceRead?
    requires PopsThenPushes(Next(s, AdvanceRead), Pop(r).1, steps[1..])
    ensures PopsThenPushes(s, r, steps)
  {
    PopsUnfold(s, steps);
    var k := Pops(steps[1..]);
    PopFirstBudget(s, r, k);
    PopFirstPopped(s.popped, r, k);
    assert Next(s, AdvanceRead).popped == s.popped + [Pop(r).0] by {
      AdvanceRefines(s, r);
    }
  }

  lemma StutterFirst(s: State, r: Ring, steps: seq<Step>)
    requires IsRun(s, steps) && steps != [] && WhilePopping(steps) && r.Valid()
    requires !steps[0].Increment? && !steps[0].AdvanceRead?
    requires PopsThenPushes(Next(s, steps[0]), r, steps[1..])
    ensures PopsThenPushes(s, r, steps)
  {
    PopsUnfold(s, steps);
  }

  /** Pops interleaved with pushes have the effect of all the pops and then all the pushes. */
  lemma {:induction false} PoppingIsAtomic(s: State, r: Ring, steps: seq<Step>)
    requires Inv(s) && Abstracts(s, r) && IsRun(s, steps) && WhilePopping(steps)
    requires s.consumer.Popping? || s.consumer.SlotRead?
    ensures PopsThenPushes(s, r, steps)
    decreases |steps|
  {
    if steps == [] {
      PopsThenPushesNow(s, r);
    } else {
      var step := steps[0];
      StepRefines(s, step, r);
      InvNext(s, step);
      PoppingIsAtomic(Next(s, step), Effect(s, step, r), steps[1..]);
      if step.Increment? {
        PushFirst(s, r, steps);
      } else if step.AdvanceRead? {
        PopFirst(s, r, steps);
      } else {
        StutterFirst(s, r, steps);
      }
    }
  }

  /** The count an answer of the protocol sees is the one that the two reads make. */
  lemma CountIsSeen(s: State, w: Protocol.World)
    requires Inv(s) && w.p.Valid() && Abstracts(s, w.p.outRing) && s.consumer.Compared?
    ensures Counted(s) == Protocol.Seen(w, ReadingOf(s))
  {
    InvCounts(s);
  }

  function ReadingOf(s: State): Protocol.Reading
    requires s.consumer.Compared?
  {
    if Torn(s) then Protocol.Torn else if Drained(s) then Protocol.Drained else Protocol.Whole
  }

  /** The memory and the pops of `steps` are those of one answer of the protocol, followed by the results that the
      inference thread pushed meanwhile. */
  ghost predicate IsOneAnswer(s: State, w: Protocol.World, read: Protocol.Reading, steps: seq<Step>)
    requires w.p.Valid() && IsRun(s, steps)
  {
    var t, outcome := RunFrom(s, steps), Protocol.Decide(w.p, |w.block|, Protocol.Seen(w, read));
    && Abstracts(t, PushAll(Protocol.OutputStep(w, read).p.outRing, Published(s, steps)))
    && s.popped <= t.popped && |t.popped| - |s.popped| == Protocol.Demand(outcome, |w.block|)
    && Protocol.Heard(w, read) == Protocol.BlockOf(outcome, w.block, t.popped[|s.popped|..])
  }

  /**
   An interleaved answer is one event of the protocol: it counts what the protocol's answer sees, and when it pops
   what that count demands it hands back the protocol's block and leaves what the protocol's answer leaves.
   */
  lemma {:induction false} AnswerIsAtomic(s: State, w: Protocol.World, steps: seq<Step>)
    requires Inv(s) && w.p.Valid() && Abstracts(s, w.p.outRing)
    requires s.consumer.Compared? && !Drained(s)
    requires IsRun(Next(s, SecondRead), steps) && WhilePopping(steps)
    requires Pops(steps) == Protocol.Demand(Protocol.Decide(w.p, |w.block|, Counted(s)), |w.block|)
    ensures Counted(s) == Protocol.Seen(w, ReadingOf(s))
    ensures IsOneAnswer(Next(s, SecondRead), w, ReadingOf(s), steps)
  {
    CountIsSeen(s, w);
    StepRefines(s, SecondRead, w.p.outRing);
    InvNext(s, SecondRead);
    PoppingIsAtomic(Next(s, SecondRead), w.p.outRing, steps);
    Protocol.AnswerIs(w, ReadingOf(s));
    TakenSince(s.popped, PopMany(w.p.outRing, Pops(steps)).0);
  }

  lemma TakenSince(before: seq<Sample>, taken: seq<Sample>)
    ensures (before + taken)[|before|..] == taken && before <= before + taken
  {
  }

  /** A drained state can only meet an empty output ring. */
  lemma DrainedMeetsEmptyRing(s: State, r: Ring)
    requires Inv(s) && Abstracts(s, r) && Drained(s)
    ensures r.count == 0
  {
  }
}
