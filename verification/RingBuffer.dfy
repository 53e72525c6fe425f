/**
 The ring under both threads (source/dsp/onnx/RingBuffer.cpp).

 Rings gives its exact meaning on values: all slots, listed from the read position, and the number of
 unread ones. Nothing is excluded: a push into a ring with one free slot empties it, and a pop from an
 empty ring hands out a stale slot. RingBuffer is the object the program uses.
 */
module Rings {
  import opened Samples

  /** `slots` lists every slot starting at the read position; the first `count` are unread. */
  datatype Ring = Ring(slots: seq<Sample>, count: nat) {
    predicate Valid() {
      count < |slots|
    }

    function Unread(): seq<Sample>
      requires Valid()
    {
      slots[..count]
    }
  }

  function Push(r: Ring, x: Sample): (r': Ring)
    requires r.Valid()
    ensures r'.Valid() && |r'.slots| == |r.slots|
  {
    Ring(r.slots[r.count := Clean(x)], if r.count + 1 == |r.slots| then 0 else r.count + 1)
  }

  function Pop(r: Ring): (res: (Sample, Ring))
    requires r.Valid()
    ensures res.1.Valid() && |res.1.slots| == |r.slots|
  {
    (Clean(r.slots[0]), Ring(r.slots[1..] + [r.slots[0]], if r.count == 0 then |r.slots| - 1 else r.count - 1))
  }

  function PushAll(r: Ring, xs: seq<Sample>): (r': Ring)
    requires r.Valid()
    ensures r'.Valid() && |r'.slots| == |r.slots|
    decreases |xs|
  {
    if xs == [] then r else Push(PushAll(r, xs[..|xs| - 1]), xs[|xs| - 1])
  }

  function PopMany(r: Ring, k: nat): (res: (seq<Sample>, Ring))
    requires r.Valid()
    ensures |res.0| == k && res.1.Valid() && |res.1.slots| == |r.slots|
    decreases k
  {
    if k == 0 then ([], r) else
      var (xs, r1) := PopMany(r, k - 1);
      var (x, r2) := Pop(r1);
      (xs + [x], r2)
  }

  /** A ring of capacity N holds N - 1 samples: up to there a push appends, and one push later all unread samples
      are gone. */
  lemma PushMeaning(r: Ring, x: Sample)
    requires r.Valid()
    ensures Push(r, x).Unread() == if r.count + 1 < |r.slots| then r.Unread() + [Clean(x)] else []
  {
  }

  /** Pushing a run of samples appends them, cleaned, exactly when they all fit. */
  lemma {:induction false} PushAllFits(r: Ring, xs: seq<Sample>)
    requires r.Valid()
    requires r.count + |xs| < |r.slots|
    ensures PushAll(r, xs).Unread() == r.Unread() + CleanAll(xs)
    decreases |xs|
  {
    if xs != [] {
      var front := xs[..|xs| - 1];
      PushAllFits(r, front);
      PushMeaning(PushAll(r, front), xs[|xs| - 1]);
      assert CleanAll(xs) == CleanAll(front) + [Clean(xs[|xs| - 1])];
    } else {
      assert r.Unread() + CleanAll(xs) == r.Unread();
    }
  }

  /** Popping returns the oldest unread samples in push order and leaves the rest. */
  lemma {:induction false} PopManyMeaning(r: Ring, k: nat)
    requires r.Valid()
    requires k <= r.count
    ensures PopMany(r, k).0 == CleanAll(r.Unread()[..k])
    ensures PopMany(r, k).1.Unread() == r.Unread()[k..]
  {
    if k > 0 {
      PopManyMeaning(r, k - 1);
      var r1 := PopMany(r, k - 1).1;
      assert r1.Unread() == r.Unread()[k - 1..];
      assert r1.slots[0] == r1.Unread()[0] == r.Unread()[k - 1];
      var r2 := Pop(r1).1;
      assert r2.Unread() == r1.Unread()[1..];
      assert PopMany(r, k).0 == PopMany(r, k - 1).0 + [Clean(r.Unread()[k - 1])];
      assert CleanAll(r.Unread()[..k]) == CleanAll(r.Unread()[..k - 1]) + [Clean(r.Unread()[k - 1])];
    } else {
      assert r.Unread()[..0] == [];
    }
  }

  /** The first-in first-out law on a round trip: what is pushed into an empty ring comes back cleaned, and the ring
      is empty again. */
  lemma PushPopRoundTrip(r: Ring, xs: seq<Sample>)
    requires r.Valid() && r.count == 0
    requires |xs| < |r.slots|
    ensures PopMany(PushAll(r, xs), |xs|).0 == CleanAll(xs)
    ensures forall i :: 0 <= i < |xs| ==> PopMany(PushAll(r, xs), |xs|).0[i] == if xs[i].NaN? then Val(0.0) else xs[i]
    ensures PopMany(PushAll(r, xs), |xs|).1.count == 0
  {
    PushAllFits(r, xs);
    var full := PushAll(r, xs);
    assert full.Unread() == CleanAll(xs);
    PopManyMeaning(full, |xs|);
    CleanIsIdempotent(CleanAll(xs));
    assert full.Unread()[..|xs|] == CleanAll(xs);
    assert PopMany(full, |xs|).1.Unread() == [];
  }

  lemma {:induction false} PushAllFirst(r: Ring, xs: seq<Sample>)
    requires r.Valid() && xs != []
    ensures PushAll(r, xs) == PushAll(Push(r, xs[0]), xs[1..])
    decreases |xs|
  {
    var last := |xs| - 1;
    if last > 0 {
      PushAllFirst(r, xs[..last]);
      assert xs[..last][1..] == xs[1..][..last - 1];
    }
  }

  /** A push and a pop commute while an unread sample and room are there. */
  lemma PopAfterPush(r: Ring, x: Sample)
    requires r.Valid() && 0 < r.count && r.count + 1 < |r.slots|
    ensures Pop(Push(r, x)) == (Pop(r).0, Push(Pop(r).1, x))
  {
    assert Pop(Push(r, x)).1.slots == Push(Pop(r).1, x).slots;
  }

  lemma {:induction false} PopManyCount(r: Ring, k: nat)
    requires r.Valid() && k <= r.count
    ensures PopMany(r, k).1.count == r.count - k
  {
    if k > 0 {
      PopManyCount(r, k - 1);
    }
  }

  lemma {:induction false} PopManyAfterPush(r: Ring, x: Sample, k: nat)
    requires r.Valid() && k <= r.count && r.count + 1 < |r.slots|
    ensures PopMany(Push(r, x), k) == (PopMany(r, k).0, Push(PopMany(r, k).1, x))
  {
    if k > 0 {
      PopManyAfterPush(r, x, k - 1);
      PopManyCount(r, k - 1);
      PopAfterPush(PopMany(r, k - 1).1, x);
    }
  }

  lemma {:induction false} PopManyFirst(r: Ring, k: nat)
    requires r.Valid()
    ensures PopMany(r, k + 1).0 == [Pop(r).0] + PopMany(Pop(r).1, k).0
    ensures PopMany(r, k + 1).1 == PopMany(Pop(r).1, k).1
  {
    if k > 0 {
      PopManyFirst(r, k - 1);
    } else {
      assert PopMany(r, 0) == ([], r);
    }
  }

  lemma {:induction false} PopManyAdds(r: Ring, j: nat, k: nat)
    requires r.Valid()
    ensures PopMany(r, j + k).1 == PopMany(PopMany(r, j).1, k).1
    ensures PopMany(r, j + k).0 == PopMany(r, j).0 + PopMany(PopMany(r, j).1, k).0
    decreases k
  {
    if k > 0 {
      PopManyAdds(r, j, k - 1);
    }
  }

  /** The ring object: one channel, since every caller initialises one and uses channel 0. */
  class RingBuffer {
    var buffer: array<Sample>
    var readPos: nat
    var writePos: nat

    ghost predicate Valid()
      reads this
    {
      readPos < buffer.Length && writePos < buffer.Length
    }

    function Available(): nat
      requires Valid()
      reads this
    {
      if readPos <= writePos then writePos - readPos else writePos + buffer.Length - readPos
    }

    /** The value of this object. */
    ghost function Model(): (r: Ring)
      requires Valid()
      reads this, buffer
      ensures r.Valid() && |r.slots| == buffer.Length
    {
      Ring(buffer[readPos..] + buffer[..readPos], Available())
    }

    /** Memory obtained from the host is not cleared, so the slots start with arbitrary contents. */
    constructor (numSamples: nat)
      requires numSamples > 0
      ensures Valid() && fresh(buffer) && buffer.Length == numSamples
      ensures Model().count == 0
    {
      buffer := new Sample[numSamples];
      readPos, writePos := 0, 0;
    }

    method Initialise(numSamples: nat)
      requires numSamples > 0
      modifies this
      ensures Valid() && fresh(buffer) && buffer.Length == numSamples
      ensures Model().count == 0
    {
      readPos, writePos := 0, 0;
      buffer := new Sample[numSamples];
    }

    method Reset()
      requires Valid()
      modifies this, buffer
      ensures Valid() && buffer == old(buffer)
      ensures Model() == Ring(Silence(buffer.Length), 0)
    {
      for i := 0 to buffer.Length
        invariant Valid() && buffer == old(buffer)
        invariant forall k :: 0 <= k < i ==> buffer[k] == ZERO
      {
        buffer[i] := ZERO;
      }
      readPos, writePos := 0, 0;
      assert buffer[0..] + buffer[..0] == Silence(buffer.Length);
    }

    method PushSample(sample: Sample)
      requires Valid()
      modifies this, buffer
      ensures Valid() && buffer == old(buffer)
      ensures Model() == Push(old(Model()), sample)
    {
      var x := sample;
      if x.NaN? {
        x := ZERO;
      }
      buffer[writePos] := x;
      writePos := writePos + 1;
      if writePos >= buffer.Length {
        writePos := 0;
      }
    }

    method PopSample() returns (sample: Sample)
      requires Valid()
      modifies this
      ensures Valid() && buffer == old(buffer)
      ensures (sample, Model()) == Pop(old(Model()))
    {
      sample := buffer[readPos];
      readPos := readPos + 1;
      if readPos >= buffer.Length {
        readPos := 0;
      }
      if sample.NaN? {
        sample := ZERO;
      }
      ghost var was := old(Model()).slots;
      assert Model().slots == was[1..] + [was[0]];
    }

    method GetAvailableSamples() returns (n: nat)
      requires Valid()
      ensures n == Model().count
    {
      if readPos <= writePos {
        n := writePos - readPos;
      } else {
        n := writePos + buffer.Length - readPos;
      }
    }
  }
}
