/** The noise generator (modules/RnboExport/rnbo/common/RNBO_AudioSignal.h:218-256), in its 64-bit form. */
module Xoshiro {

  /** An unsigned 64-bit word; sums and products wrap around. */
  datatype Word = Word(bits: bv64)

  datatype State = State(s0: Word, s1: Word, s2: Word, s3: Word)

  const ZERO: State := State(Word(0), Word(0), Word(0), Word(0))

  function Sum(a: Word, b: Word): Word {
    Word(a.bits + b.bits)
  }

  function Xor(a: Word, b: Word): Word {
    Word(a.bits ^ b.bits)
  }

  function Shift17(a: Word): Word {
    Word(a.bits << 17)
  }

  function Rotl45(x: Word): Word {
    Word((x.bits << 45) | (x.bits >> 19))
  }

  function Rotr45(x: Word): Word {
    Word((x.bits >> 45) | (x.bits << 19))
  }

  function SplitMix64(seed: Word): Word {
    var z0 := seed.bits + 0x9e3779b97f4a7c15;
    var z1 := (z0 ^ (z0 >> 30)) * 0xbf58476d1ce4e5b9;
    var z2 := (z1 ^ (z1 >> 27)) * 0x94d049bb133111eb;
    Word(z2 ^ (z2 >> 31))
  }

  /** The state after a reset; `x` is the scaled seed. */
  function Seeded(x: Word): State {
    var a := SplitMix64(x);
    var b := SplitMix64(a);
    var c := SplitMix64(b);
    State(a, b, c, SplitMix64(c))
  }

  /** One step of the state: the six assignments of the program, in their order. */
  function Next(s: State): State {
    var t := Shift17(s.s1);
    var a := s.(s2 := Xor(s.s2, s.s0));
    var b := a.(s3 := Xor(a.s3, a.s1));
    var c := b.(s1 := Xor(b.s1, b.s2));
    var d := c.(s0 := Xor(c.s0, c.s3));
    var e := d.(s2 := Xor(d.s2, t));
    e.(s3 := Rotl45(e.s3))
  }

  // ---------------------------------------------------------------------------------------------
  // What the word operations are

  /** Bit i of a word. */
  predicate Bit(x: Word, i: bv64)
    requires i < 64
  {
    (x.bits >> i) & 1 == 1
  }

  /** Words without common bits add up to their union, equal ones to the doubled word, and the largest and 1 to 0. */
  lemma SumOfWords(a: Word, b: Word)
    ensures a.bits & b.bits == 0 ==> Sum(a, b).bits == a.bits | b.bits
    ensures Sum(a, a).bits == a.bits << 1
    ensures Sum(Word(0xffff_ffff_ffff_ffff), Word(1)) == Word(0)
  {
  }

  /** A rotation moves bit i to bit i + 45, round the word. */
  lemma RotationMovesBits(x: Word, i: bv64)
    requires i < 64
    ensures Bit(Rotl45(x), if i < 19 then i + 45 else i - 19) == Bit(x, i)
  {
  }

  lemma ShiftMovesBits(x: Word, i: bv64)
    requires i < 64
    ensures Bit(Shift17(x), i) == (i >= 17 && Bit(x, i - 17))
  {
  }

  lemma XorOfBits(a: Word, b: Word, i: bv64)
    requires i < 64
    ensures Bit(Xor(a, b), i) == (Bit(a, i) != Bit(b, i))
  {
  }

  /** Each word after a step in terms of the words before it. */
  lemma NextInWords(s: State)
    ensures Next(s) == State(
      Xor(s.s0, Xor(s.s3, s.s1)), Xor(s.s1, Xor(s.s2, s.s0)),
      Xor(Xor(s.s2, s.s0), Shift17(s.s1)), Rotl45(Xor(s.s3, s.s1)))
  {
  }

  /** The published first outputs of splitmix64 for the seeds 0 and 1234567, and the four words that seed 0 gives
      when each output seeds the next. */
  lemma SeedVectors()
    ensures Seeded(Word(0)) == State(
      Word(0xE220A8397B1DCDAF), Word(0xA706DD2F4D197E6F), Word(0x238275BC38FCBE91), Word(0x2130748AAAC80268))
    ensures SplitMix64(Word(0)) == Word(0xE220A8397B1DCDAF)
    ensures SplitMix64(Word(1234567)) == Word(6457827717110365317)
  {
  }

  // ---------------------------------------------------------------------------------------------
  // The step is one-to-one

  lemma XorCancels(a: Word, b: Word)
    ensures Xor(Xor(a, b), b) == a
  {
  }

  lemma TurnBack(x: Word)
    ensures Rotr45(Rotl45(x)) == x
  {
  }

  lemma XorCommutes(a: Word, b: Word)
    ensures Xor(a, b) == Xor(b, a)
  {
  }

  lemma XorAssociates(a: Word, b: Word, c: Word)
    ensures Xor(Xor(a, b), c) == Xor(a, Xor(b, c))
  {
  }

  lemma XorTelescopes(a: Word, b: Word, c: Word)
    ensures Xor(Xor(a, b), Xor(b, c)) == Xor(a, c)
  {
    XorAssociates(a, b, Xor(b, c));
    XorCommutes(b, c);
    XorCommutes(Xor(b, c), b);
    XorCancels(c, b);
  }

  lemma SumsSwap(a: Word, b: Word, c: Word, d: Word)
    requires Xor(a, b) == Xor(c, d)
    ensures Xor(a, c) == Xor(b, d)
  {
    XorTelescopes(a, b, c);
    XorTelescopes(b, c, d);
    XorCommutes(Xor(a, b), Xor(b, c));
  }

  lemma ShiftDistributes(a: Word, c: Word)
    ensures Xor(Shift17(a), Shift17(c)) == Shift17(Xor(a, c))
  {
  }

  lemma ShiftHasNoFixedWord(d: Word)
    requires Shift17(d) == d
    ensures d == Word(0)
  {
  }

  lemma ZeroSum(a: Word, c: Word)
    requires Xor(a, c) == Word(0)
    ensures a == c
  {
  }

  /** Two words are determined by their sum and by the second plus the shifted first. */
  lemma StirredWords(a: Word, b: Word, c: Word, d: Word)
    requires Xor(a, b) == Xor(c, d) && Xor(b, Shift17(a)) == Xor(d, Shift17(c))
    ensures a == c && b == d
  {
    SumsSwap(a, b, c, d);
    SumsSwap(b, Shift17(a), d, Shift17(c));
    ShiftDistributes(a, c);
    ShiftHasNoFixedWord(Xor(a, c));
    ZeroSum(a, c);
    XorCancels(b, Shift17(a));
    XorCancels(d, Shift17(c));
  }

  /** No two states have the same successor. */
  lemma NextIsInjective(s: State, t: State)
    requires Next(s) == Next(t)
    ensures s == t
  {
    var s2, s3 := Xor(s.s2, s.s0), Xor(s.s3, s.s1);
    var t2, t3 := Xor(t.s2, t.s0), Xor(t.s3, t.s1);
    TurnBack(s3);
    TurnBack(t3);
    assert s3 == t3;
    StirredWords(s.s1, s2, t.s1, t2);
    XorCancels(s.s0, s3);
    XorCancels(t.s0, t3);
    XorCancels(s.s3, s.s1);
    XorCancels(t.s3, t.s1);
    XorCancels(s.s2, s.s0);
    XorCancels(t.s2, t.s0);
  }

  // ---------------------------------------------------------------------------------------------
  // The all-zero state is never reached

  /** A reset never gives the all-zero state, the one state the generator could not leave. */
  lemma SeededIsNotZero(x: Word)
    ensures Seeded(x) != ZERO
  {
    if SplitMix64(x) == Word(0) {
      assert SplitMix64(Word(0)) != Word(0);
    }
  }

  lemma ZeroIsFixed()
    ensures Next(ZERO) == ZERO
  {
  }

  lemma NextIsNotZero(s: State)
    requires s != ZERO
    ensures Next(s) != ZERO
  {
    ZeroIsFixed();
    if Next(s) == ZERO {
      NextIsInjective(s, ZERO);
    }
  }

  function Iterate(s: State, k: nat): State {
    if k == 0 then s else Next(Iterate(s, k - 1))
  }

  lemma {:induction false} NeverZero(s: State, k: nat)
    requires s != ZERO
    ensures Iterate(s, k) != ZERO
  {
    if k > 0 {
      NeverZero(s, k - 1);
      NextIsNotZero(Iterate(s, k - 1));
    }
  }

  /** From any seed, no run of the generator reaches the all-zero state. */
  lemma SeededRunNeverZero(x: Word, k: nat)
    ensures Iterate(Seeded(x), k) != ZERO
  {
    SeededIsNotZero(x);
    NeverZero(Seeded(x), k);
  }

  /** Runs of the same length from different states end in different states. */
  lemma {:induction false} RunIsInjective(s: State, t: State, k: nat)
    requires Iterate(s, k) == Iterate(t, k)
    ensures s == t
  {
    if k > 0 {
      NextIsInjective(Iterate(s, k - 1), Iterate(t, k - 1));
      RunIsInjective(s, t, k - 1);
    }
  }

  // ---------------------------------------------------------------------------------------------
  // Samples

  /** 2 to the -52. */
  const EXP2_NEG52: real := 1.0 / 4503599627370496.0

  /** The 53 high bits of a word. */
  function High(r: Word): nat {
    ((r.bits >> 11) as bv53) as int
  }

  /** The 53 high bits, mapped to a sample. */
  function ToSample(r: Word): (x: real)
    ensures -1.0 <= x < 1.0
  {
    High(r) as real * EXP2_NEG52 - 1.0
  }

  /** The samples are evenly spaced over the range, from -1 to one step below 1. */
  lemma SamplesAreEvenlySpaced(a: Word, b: Word)
    ensures ToSample(a) - ToSample(b) == (High(a) - High(b)) as real / 4503599627370496.0
    ensures ToSample(Word(0)) == -1.0 && ToSample(Word(0x8000_0000_0000_0000)) == 0.0
    ensures ToSample(Word(0xffff_ffff_ffff_ffff)) == 1.0 - 1.0 / 4503599627370496.0
  {
    HighOfEnds();
  }

  lemma HighOfEnds()
    ensures High(Word(0)) == 0 && High(Word(0x8000_0000_0000_0000)) == 4503599627370496
    ensures High(Word(0xffff_ffff_ffff_ffff)) == 9007199254740991
  {
  }

  /** The four words as the program keeps them. */
  class Generator {
    const state: array<Word>

    ghost predicate Valid() {
      state.Length == 4
    }

    ghost function View(): State
      requires Valid()
      reads state
    {
      State(state[0], state[1], state[2], state[3])
    }

    constructor (x: Word)
      ensures Valid() && fresh(state) && View() == Seeded(x) && View() != ZERO
    {
      state := new Word[4];
      new;
      Reset(x);
    }

    method Reset(x: Word)
      requires Valid()
      modifies state
      ensures View() == Seeded(x) && View() != ZERO
    {
      SeededIsNotZero(x);
      var a := SplitMix64(x);
      var b := SplitMix64(a);
      var c := SplitMix64(b);
      var d := SplitMix64(c);
      assert Seeded(x) == State(a, b, c, d);
      state[0], state[1], state[2], state[3] := a, b, c, d;
    }

    method NextSample() returns (sample: real)
      requires Valid()
      modifies state
      ensures View() == Next(old(View()))
      ensures old(View()) != ZERO ==> View() != ZERO
      ensures sample == ToSample(Sum(old(state[0]), old(state[3]))) && -1.0 <= sample < 1.0
    {
      if View() != ZERO {
        NextIsNotZero(View());
      }
      var result := Sum(state[0], state[3]);
      var t := Shift17(state[1]);
      state[2] := Xor(state[2], state[0]);
      state[3] := Xor(state[3], state[1]);
      state[1] := Xor(state[1], state[2]);
      state[0] := Xor(state[0], state[3]);
      state[2] := Xor(state[2], t);
      state[3] := Rotl45(state[3]);
      sample := ToSample(result);
    }
  }
}
