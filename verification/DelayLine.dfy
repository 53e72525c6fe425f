/** The masked delay line of the granular engine (modules/RnboExport/rnbo_granular.cpp:1439-1527), against an
    unbounded history. */
module DelayLines {
  import opened Arithmetic
  import opened Bits

  /** One entry per tick, the newest last: the sample d ticks ago, 0 before the beginning. */
  function At(past: seq<real>, d: nat): real {
    if d < |past| then past[|past| - 1 - d] else 0.0
  }

  /** Linear interpolation of the history at a delay of D ticks. */
  function Interpolated(past: seq<real>, D: real): real
    requires D >= 0.0
  {
    var lo := D.Floor;
    if D == lo as real then At(past, lo)
    else At(past, lo + 1) * (D - lo as real) + At(past, lo) * ((lo + 1) as real - D)
  }

  function LinearInterp(frac: real, x: real, y: real): real {
    x + (y - x) * frac
  }

  function Written(past: seq<real>, v: real): seq<real>
    requires past != []
  {
    past[|past| - 1 := v]
  }

  /** The next tick; until it is written its slot replays the sample of `size` ticks ago. */
  function Stepped(past: seq<real>, size: nat): seq<real>
    requires size > 0
  {
    past + [At(past, size - 1)]
  }

  /** What a read at delay D returns from a line of n slots. */
  function Heard(past: seq<real>, n: nat, D: real): real
    requires n > 0 && D >= 0.0
  {
    if D <= (n - 1) as real then Interpolated(past, D)
    else LinearInterp(n as real - D, At(past, 0), At(past, n - 1))
  }

  /** The delay rounded up, as the floor of the read position counts it. */
  lemma RoundUp(top: nat, n: nat, D: real) returns (hi: int)
    requires 0.0 <= D <= n as real && n <= top
    ensures hi == top - (top as real - D).Floor
    ensures 0 <= hi <= n && hi as real - 1.0 < D <= hi as real
  {
    var f := (top as real - D).Floor;
    hi := top - f;
    assert f as real <= top as real - D < f as real + 1.0;
    assert hi as real == top as real - f as real;
  }

  lemma Mixture(past: seq<real>, n: nat, D: real, hi: nat, frac: real, second: real)
    requires n > 1 && 0.0 <= D <= n as real && hi <= n
    requires hi as real - 1.0 < D <= hi as real && frac == hi as real - D
    requires hi > 0 ==> second == At(past, hi - 1)
    ensures LinearInterp(frac, At(past, if hi == n then 0 else hi), second) == Heard(past, n, D)
  {
    if D == hi as real {
      assert D.Floor == hi;
    } else {
      assert D.Floor == hi - 1;
    }
  }

  /** The bound n - 1 is exact: in the last tick the read is the interpolated history only if the history allows it by
      chance, that is if the sample of n ticks ago equals the current one. */
  lemma ReadIsHistoryIff(past: seq<real>, n: nat, D: real)
    requires n > 1 && 0.0 <= D <= n as real
    ensures Heard(past, n, D) == Interpolated(past, D) <==> D <= (n - 1) as real || At(past, n) == At(past, 0)
  {
    if D > (n - 1) as real {
      var x, y, z, f := At(past, n), At(past, n - 1), At(past, 0), n as real - D;
      if D == n as real {
        assert D.Floor == n;
      } else {
        assert D.Floor == n - 1;
        assert Interpolated(past, D) == x * (D - (n - 1) as real) + y * f == x * (1.0 - f) + y * f;
        assert Heard(past, n, D) == z + (y - z) * f == z * (1.0 - f) + y * f;
        assert (x - z) * (1.0 - f) == 0.0 ==> x == z;
      }
    }
  }

  /** A straight line in the past is read exactly between its samples. */
  lemma RampIsReadExactly(past: seq<real>, n: nat, D: real, a: real, b: real)
    requires n > 1 && 0.0 <= D <= (n - 1) as real && D.Floor + 1 < |past|
    requires forall d :: 0 <= d <= D.Floor + 1 ==> At(past, d) == a + b * d as real
    ensures Heard(past, n, D) == a + b * D
  {
    var lo := D.Floor;
    var f := D - lo as real;
    if f > 0.0 {
      Between(a, b, lo as real, f);
      assert At(past, lo + 1) == a + b * (lo + 1) as real && (lo + 1) as real == lo as real + 1.0;
    }
  }

  lemma Between(a: real, b: real, lo: real, f: real)
    ensures (a + b * (lo + 1.0)) * f + (a + b * lo) * (1.0 - f) == a + b * (lo + f)
  {
  }

  // ---- the combined form, call after call ----

  /** The history after a sequence of `next` calls. */
  function Calls(past: seq<real>, xs: seq<real>, size: nat): (r: seq<real>)
    requires past != [] && size > 0
    ensures r != []
  {
    if xs == [] then past
    else Stepped(Written(Calls(past, xs[..|xs| - 1], size), xs[|xs| - 1]), size)
  }

  /** `next` is a plain delay: the sample given d calls ago is at delay d, as far back as the calls go. */
  lemma {:induction false} NextIsAPlainDelay(past: seq<real>, xs: seq<real>, size: nat, d: nat)
    requires past != [] && size > 0 && 1 <= d <= |xs|
    ensures At(Calls(past, xs, size), d) == xs[|xs| - d]
    decreases |xs|
  {
    var before := Calls(past, xs[..|xs| - 1], size);
    var written := Written(before, xs[|xs| - 1]);
    assert At(Stepped(written, size), d) == At(written, d - 1);
    if d > 1 {
      NextIsAPlainDelay(past, xs[..|xs| - 1], size, d - 1);
      assert At(written, d - 1) == At(before, d - 1);
    }
  }

  class DelayLine {
    var buffer: array<real>
    var maxdelay: nat
    var mask: nat
    var reader: nat
    var writer: nat
    ghost var bits: nat
    ghost var past: seq<real>

    /** The slot of delay d. */
    function Slot(d: nat): nat
      requires reader < buffer.Length && d < buffer.Length
      reads this
    {
      if d <= reader then reader - d else reader + buffer.Length - d
    }

    ghost predicate Valid()
      reads this, buffer
    {
      && buffer.Length == Pow2(bits) && mask == Pow2(bits) - 1
      && reader < buffer.Length && writer < buffer.Length
      && 2 <= maxdelay <= buffer.Length
      && past != []
      && forall d :: 0 <= d < buffer.Length ==> buffer[Slot(d)] == At(past, d)
    }

    constructor (sampleRate: real)
      requires 0.0 <= sampleRate && (sampleRate * 2.0).Floor <= LARGEST
      ensures Valid() && fresh(buffer) && past == [0.0] && reader == writer == 0
      ensures maxdelay == if (sampleRate * 2.0).Floor < 2 then 2 else (sampleRate * 2.0).Floor
      ensures forall k: nat :: maxdelay <= Pow2(k) ==> buffer.Length <= Pow2(k)
    {
      var size, rounded := CalcSizeInSamples(sampleRate);
      maxdelay := size;
      buffer := new real[rounded](_ => 0.0);
      mask := rounded - 1;
      reader, writer := 0, 0;
      bits := Exponent(rounded);
      past := [0.0];
    }

    static method CalcSizeInSamples(sampleRate: real) returns (size: nat, rounded: nat)
      requires 0.0 <= sampleRate && (sampleRate * 2.0).Floor <= LARGEST
      ensures size == if (sampleRate * 2.0).Floor < 2 then 2 else (sampleRate * 2.0).Floor
      ensures IsPowerOfTwo(rounded) && size <= rounded
      ensures forall k: nat :: size <= Pow2(k) ==> rounded <= Pow2(k)
    {
      var s := (sampleRate * 2.0).Floor;
      size := if s < 2 then 2 else s;
      rounded := NextPowerOfTwo(size);
    }

    /** A new sample rate: the line is cleared, and both positions restart unless they fit. */
    method Reset(sampleRate: real)
      requires Valid()
      requires 0.0 <= sampleRate && (sampleRate * 2.0).Floor <= LARGEST
      modifies this
      ensures Valid() && fresh(buffer) && past == [0.0]
      ensures maxdelay == if (sampleRate * 2.0).Floor < 2 then 2 else (sampleRate * 2.0).Floor
      ensures IsPowerOfTwo(buffer.Length) && maxdelay <= buffer.Length
      ensures forall k: nat :: maxdelay <= Pow2(k) ==> buffer.Length <= Pow2(k)
      ensures (reader, writer) ==
        if old(reader) < maxdelay && old(writer) < maxdelay then (old(reader), old(writer)) else (0, 0)
    {
      var size, rounded := CalcSizeInSamples(sampleRate);
      maxdelay := size;
      buffer := new real[rounded](_ => 0.0);
      mask := rounded - 1;
      if reader >= maxdelay || writer >= maxdelay {
        reader, writer := 0, 0;
      }
      bits := Exponent(rounded);
      past := [0.0];
    }

    method Step()
      requires Valid()
      modifies this`reader, this`past
      ensures Valid()
      ensures past == Stepped(old(past), buffer.Length)
      ensures reader == if old(reader) + 1 == buffer.Length then 0 else old(reader) + 1
    {
      ghost var stale := buffer[Slot(buffer.Length - 1)];
      past := Stepped(past, buffer.Length);
      reader := reader + 1;
      if reader >= buffer.Length {
        reader := 0;
      }
      assert forall d :: 0 < d < buffer.Length ==> Slot(d) == old(Slot(d - 1));
      assert buffer[reader] == stale;
    }

    method Write(v: real)
      requires Valid()
      modifies this`writer, this`past, buffer
      ensures Valid() && writer == reader
      ensures past == Written(old(past), v)
    {
      writer := reader;
      ghost var before := past;
      buffer[writer] := v;
      past := Written(past, v);
      assert Slot(0) == reader && At(past, 0) == v;
      assert forall d :: 0 < d < buffer.Length ==> Slot(d) != reader && At(past, d) == At(before, d);
    }

    /** The clamped delay: the current tick is readable only once it has been written. */
    function Clamped(size: real): real
      reads this
    {
      var least := if reader != writer then 1.0 else 0.0;
      if size > maxdelay as real then maxdelay as real else if size < least then least else size
    }

    /** What a clamped read hears: the size that was asked for wherever the line reaches, else its ends. A tick that
        is not written yet, as the positions tell, is never heard: the last one is. */
    lemma ClampedHears(size: real)
      requires Valid()
      ensures var n, val := buffer.Length, Heard(past, buffer.Length, Clamped(size));
        && (size >= maxdelay as real ==> val == Heard(past, n, maxdelay as real))
        && (1.0 <= size <= maxdelay as real ==> val == Heard(past, n, size))
        && (size <= 1.0 && reader != writer ==> val == At(past, 1))
        && (0.0 <= size <= 1.0 && reader == writer ==> val == Heard(past, n, size))
        && (size <= 0.0 && reader == writer ==> val == At(past, 0))
    {
      assert (1.0).Floor == 1 && (0.0).Floor == 0;
    }

    /** A read is the history's interpolation up to a delay of one less than the buffer. Beyond, in the last tick of
        delay, the oldest sample is mixed with the current one. */
    method Read(size: real) returns (val: real)
      requires Valid()
      ensures 0.0 <= Clamped(size) <= buffer.Length as real
      ensures val == Heard(past, buffer.Length, Clamped(size))
    {
      var D := Clamped(size);
      ghost var hi := RoundUp(buffer.Length + reader, buffer.Length, D);
      var r := (buffer.Length + reader) as real - D;
      var index1 := r.Floor;
      var frac := r - index1 as real;
      var index2 := index1 + 1;
      assert index1 == buffer.Length + reader - hi && frac == hi as real - D;
      MaskIsModulo(index1, bits);
      MaskIsModulo(index2, bits);
      SlotOfIndex(hi);
      if hi > 0 {
        SlotOfIndex(hi - 1);
      }
      val := LinearInterp(frac, buffer[And(index1, mask)], buffer[And(index2, mask)]);
      Mixture(past, buffer.Length, D, hi, frac, buffer[index2 % buffer.Length]);
    }

    /** The masked index of delay hi; a delay of the whole buffer wraps to the current tick. */
    lemma SlotOfIndex(hi: nat)
      requires Valid() && hi <= buffer.Length
      ensures var n := buffer.Length; buffer[(n + reader - hi) % n] == At(past, if hi == n then 0 else hi)
    {
      var n := buffer.Length;
      if hi == n {
        DivModUnique(reader, n, 0, reader);
        assert Slot(0) == reader;
      } else if hi <= reader {
        DivModUnique(n + reader - hi, n, 1, reader - hi);
      } else {
        DivModUnique(n + reader - hi, n, 0, n + reader - hi);
      }
    }

    /** One call of the combined form, for every size: -1 stands for the longest delay, every other size is clamped. The
        sample of `size` calls earlier comes out as far as the line reaches. */
    method Next(v: real, size: int) returns (val: real)
      requires Valid()
      modifies this, buffer
      ensures Valid() && buffer == old(buffer) && maxdelay == old(maxdelay)
      ensures past == Stepped(Written(old(past), v), buffer.Length)
      ensures var effective := if size == -1 then maxdelay else size;
        val == Heard(old(past), buffer.Length, old(Clamped(effective as real)))
      ensures 1 <= size <= maxdelay && size < buffer.Length ==> val == At(old(past), size)
      ensures size == -1 && maxdelay < buffer.Length ==> val == At(old(past), maxdelay)
    {
      var effectiveSize := if size == -1 then maxdelay else size;
      val := Read(effectiveSize as real);
      Write(v);
      Step();
    }
  }

  ghost function Exponent(r: nat): (k: nat)
    requires IsPowerOfTwo(r)
    ensures r == Pow2(k)
  {
    var k: nat :| r == Pow2(k); k
  }
}
