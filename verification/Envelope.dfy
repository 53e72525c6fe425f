/**
 The envelope follower (source/dsp/utils/Envelope.cpp:27-48): a recursive low-pass that carries its last
 value from block to block. Samples may be the not-a-number value; comparisons with it are false.
 */
module Envelopes {
  import opened Samples

  datatype Settings = Settings(attackTime: real, attack: real, release: real) {
    predicate Valid() {
      0.0 <= attack <= 1.0 && 0.0 <= release <= 1.0
    }
  }

  predicate Less(a: Sample, b: Sample) {
    a.Val? && b.Val? && a.v < b.v
  }

  /** `c * a + (1 - c) * b`. */
  function Blend(c: real, a: Sample, b: Sample): Sample {
    if a.NaN? || b.NaN? then NaN else Val(c * a.v + (1.0 - c) * b.v)
  }

  function Magnitude(a: Sample): Sample {
    if a.Val? && a.v < 0.0 then Val(-a.v) else a
  }

  function Larger(a: Sample, b: Sample): Sample {
    if Less(a, b) then b else a
  }

  /** One channel is followed as it is, sign included; of more, the louder of the first two. */
  function DetectorAt(rows: seq<seq<Sample>>, i: nat): Sample
    requires |rows| > 0 && i < |rows[0]|
    requires |rows| > 1 ==> i < |rows[1]|
  {
    if |rows| == 1 then rows[0][i] else Larger(Magnitude(rows[0][i]), Magnitude(rows[1][i]))
  }

  function Follow(p: Settings, last: Sample, d: Sample): Sample {
    if p.attackTime == 0.0 then
      if Less(last, d) then d else Blend(p.release, last, d)
    else
      var l := Clean(last);
      if Less(l, d) then Blend(p.attack, l, d) else Blend(p.release, l, d)
  }

  function LastOf(initial: Sample, xs: seq<Sample>): Sample {
    if xs == [] then initial else xs[|xs| - 1]
  }

  /** The envelope of a whole detector signal. */
  function EnvelopeOf(p: Settings, initial: Sample, ds: seq<Sample>): (es: seq<Sample>)
    ensures |es| == |ds|
    decreases |ds|
  {
    if ds == [] then [] else
      var es := EnvelopeOf(p, initial, ds[..|ds| - 1]);
      es + [Follow(p, LastOf(initial, es), ds[|ds| - 1])]
  }

  function Before(initial: Sample, es: seq<Sample>, i: nat): Sample
    requires i <= |es|
  {
    if i == 0 then initial else es[i - 1]
  }

  lemma EnvelopeStep(p: Settings, initial: Sample, ds: seq<Sample>, d: Sample)
    ensures EnvelopeOf(p, initial, ds + [d])
         == EnvelopeOf(p, initial, ds) + [Follow(p, LastOf(initial, EnvelopeOf(p, initial, ds)), d)]
  {
    assert (ds + [d])[..|ds|] == ds;
  }

  /** Each value follows from the one before. */
  lemma {:induction false} EnvelopeRecurrence(p: Settings, initial: Sample, ds: seq<Sample>, i: nat)
    requires i < |ds|
    ensures var es := EnvelopeOf(p, initial, ds);
            es[i] == Follow(p, Before(initial, es, i), ds[i])
    decreases |ds|
  {
    if i + 1 < |ds| {
      EnvelopeRecurrence(p, initial, ds[..|ds| - 1], i);
    }
  }

  // ---------------------------------------------------------------------------------------------
  // The envelope does not depend on how a signal is cut into blocks

  lemma {:induction false} EnvelopeAppend(p: Settings, initial: Sample, xs: seq<Sample>, ys: seq<Sample>)
    ensures var es := EnvelopeOf(p, initial, xs);
            EnvelopeOf(p, initial, xs + ys) == es + EnvelopeOf(p, LastOf(initial, es), ys)
    decreases |ys|
  {
    if ys == [] {
      assert xs + ys == xs;
    } else {
      var front, d := ys[..|ys| - 1], ys[|ys| - 1];
      EnvelopeAppend(p, initial, xs, front);
      assert xs + ys == (xs + front) + [d];
      EnvelopeStep(p, initial, xs + front, d);
    }
  }

  function Concat(blocks: seq<seq<Sample>>): seq<Sample> {
    if blocks == [] then [] else blocks[0] + Concat(blocks[1..])
  }

  /** The envelopes of consecutive blocks, each starting from the last value of the one before. */
  function BlockwiseEnvelope(p: Settings, initial: Sample, blocks: seq<seq<Sample>>): seq<Sample>
    decreases |blocks|
  {
    if blocks == [] then [] else
      var es := EnvelopeOf(p, initial, blocks[0]);
      es + BlockwiseEnvelope(p, LastOf(initial, es), blocks[1..])
  }

  lemma {:induction false} CuttingDoesNotMatter(p: Settings, initial: Sample, blocks: seq<seq<Sample>>)
    ensures BlockwiseEnvelope(p, initial, blocks) == EnvelopeOf(p, initial, Concat(blocks))
    decreases |blocks|
  {
    if blocks != [] {
      EnvelopeAppend(p, initial, blocks[0], Concat(blocks[1..]));
      CuttingDoesNotMatter(p, LastOf(initial, EnvelopeOf(p, initial, blocks[0])), blocks[1..]);
    }
  }

  // ---------------------------------------------------------------------------------------------
  // Bounds

  predicate Within(lo: real, hi: real, s: Sample) {
    s.Val? ==> lo <= s.v <= hi
  }

  lemma ProductIsNonNegative(x: real, y: real)
    requires x >= 0.0 && y >= 0.0
    ensures x * y >= 0.0
  {
  }

  lemma BlendStaysBetween(c: real, a: real, b: real, lo: real, hi: real)
    requires 0.0 <= c <= 1.0 && lo <= a <= hi && lo <= b <= hi
    ensures lo <= c * a + (1.0 - c) * b <= hi
  {
    ProductIsNonNegative(c, a - lo);
    ProductIsNonNegative(1.0 - c, b - lo);
    ProductIsNonNegative(c, hi - a);
    ProductIsNonNegative(1.0 - c, hi - b);
  }

  lemma FollowStaysWithin(p: Settings, last: Sample, d: Sample, lo: real, hi: real)
    requires p.Valid() && Within(lo, hi, last) && Within(lo, hi, d)
    requires last.NaN? ==> lo <= 0.0 <= hi
    ensures Within(lo, hi, Follow(p, last, d))
  {
    var l := if p.attackTime == 0.0 then last else Clean(last);
    if l.Val? && d.Val? {
      BlendStaysBetween(p.attack, l.v, d.v, lo, hi);
      BlendStaysBetween(p.release, l.v, d.v, lo, hi);
    }
  }

  /** With coefficients in [0, 1] the envelope lies between the least and the greatest of the initial
      value and the detector inputs; a not-a-number value among them counts as zero. */
  lemma {:induction false} EnvelopeStaysWithin(p: Settings, initial: Sample, ds: seq<Sample>, lo: real, hi: real)
    requires p.Valid() && Within(lo, hi, initial)
    requires forall i :: 0 <= i < |ds| ==> Within(lo, hi, ds[i])
    requires NaN in [initial] + ds ==> lo <= 0.0 <= hi
    ensures forall i :: 0 <= i < |ds| ==> Within(lo, hi, EnvelopeOf(p, initial, ds)[i])
    decreases |ds|
  {
    if ds != [] {
      var front, d := ds[..|ds| - 1], ds[|ds| - 1];
      EnvelopeStaysWithin(p, initial, front, lo, hi);
      var last := LastOf(initial, EnvelopeOf(p, initial, front));
      if last.NaN? {
        NotANumberNeedsASource(p, initial, front);
      }
      FollowStaysWithin(p, last, d, lo, hi);
    }
  }

  lemma {:induction false} NotANumberNeedsASource(p: Settings, initial: Sample, ds: seq<Sample>)
    requires LastOf(initial, EnvelopeOf(p, initial, ds)).NaN?
    ensures NaN in [initial] + ds
    decreases |ds|
  {
    if ds == [] {
      assert ([initial] + ds)[0] == NaN;
    } else {
      var front, d := ds[..|ds| - 1], ds[|ds| - 1];
      if d.NaN? {
        assert ([initial] + ds)[|ds|] == NaN;
      } else {
        NotANumberNeedsASource(p, initial, front);
        var i :| 0 <= i < |front| + 1 && ([initial] + front)[i] == NaN;
        assert ([initial] + ds)[i] == NaN;
      }
    }
  }

  // ---------------------------------------------------------------------------------------------
  // Attack and release

  /** The gap times the k-th power of the coefficient. */
  function Shrunk(gap: real, c: real, k: nat): real {
    if k == 0 then gap else c * Shrunk(gap, c, k - 1)
  }

  function Constant(d: real, n: nat): (ds: seq<Sample>)
    ensures |ds| == n && forall i :: 0 <= i < n ==> ds[i] == Val(d)
  {
    seq(n, _ => Val(d))
  }

  /** A gap to the detector that shrinks by the coefficient. */
  lemma Approach(c: real, e: real, d: real)
    ensures d - (c * e + (1.0 - c) * d) == c * (d - e)
  {
  }

  /** How far the detector is above the envelope. */
  predicate GapIs(e: Sample, d: real, gap: real) {
    e.Val? && d - e.v == gap
  }

  lemma FollowRises(p: Settings, e: real, d: real)
    requires p.attackTime != 0.0 && e < d
    ensures GapIs(Follow(p, Val(e), Val(d)), d, p.attack * (d - e))
  {
    Approach(p.attack, e, d);
  }

  lemma FollowFalls(p: Settings, e: real, d: real)
    requires e >= d
    ensures GapIs(Follow(p, Val(e), Val(d)), d, p.release * (d - e))
  {
    Approach(p.release, e, d);
  }

  lemma RiseStep(p: Settings, e: Sample, next: Sample, d: real, gap: real)
    requires p.Valid() && p.attackTime != 0.0 && gap >= 0.0 && GapIs(e, d, gap) && next == Follow(p, e, Val(d))
    ensures p.attack * gap >= 0.0 && GapIs(next, d, p.attack * gap)
  {
    ProductIsNonNegative(p.attack, gap);
    if e.v < d {
      FollowRises(p, e.v, d);
    } else {
      FollowFalls(p, e.v, d);
    }
  }

  lemma FallStep(p: Settings, e: Sample, next: Sample, d: real, gap: real)
    requires p.Valid() && gap <= 0.0 && GapIs(e, d, gap) && next == Follow(p, e, Val(d))
    ensures p.release * gap <= 0.0 && GapIs(next, d, p.release * gap)
  {
    ProductIsNonNegative(p.release, -gap);
    FollowFalls(p, e.v, d);
  }

  /** The envelope after k samples of a constant detector. */
  function Settled(p: Settings, e0: real, d: real, k: nat): Sample {
    LastOf(Val(e0), EnvelopeOf(p, Val(e0), Constant(d, k)))
  }

  lemma SettledStep(p: Settings, e0: real, d: real, k: nat)
    ensures Settled(p, e0, d, k + 1) == Follow(p, Settled(p, e0, d, k), Val(d))
    ensures Settled(p, e0, d, 0) == Val(e0)
  {
    assert Constant(d, k + 1)[..k] == Constant(d, k);
  }

  /** The gap after k samples of it, louder or quieter. */
  predicate Shrinks(p: Settings, e0: real, d: real, k: nat, c: real) {
    GapIs(Settled(p, e0, d, k), d, Shrunk(d - e0, c, k))
  }

  lemma ShrunkStep(gap: real, c: real, k: nat)
    ensures Shrunk(gap, c, k + 1) == c * Shrunk(gap, c, k)
  {
  }

  lemma RiseAgain(p: Settings, e: Sample, next: Sample, d: real, gap: real, k: nat)
    requires p.Valid() && p.attackTime != 0.0 && next == Follow(p, e, Val(d))
    requires Shrunk(gap, p.attack, k) >= 0.0 && GapIs(e, d, Shrunk(gap, p.attack, k))
    ensures Shrunk(gap, p.attack, k + 1) >= 0.0 && GapIs(next, d, Shrunk(gap, p.attack, k + 1))
  {
    RiseStep(p, e, next, d, Shrunk(gap, p.attack, k));
    ShrunkStep(gap, p.attack, k);
  }

  lemma FallAgain(p: Settings, e: Sample, next: Sample, d: real, gap: real, k: nat)
    requires p.Valid() && next == Follow(p, e, Val(d))
    requires Shrunk(gap, p.release, k) <= 0.0 && GapIs(e, d, Shrunk(gap, p.release, k))
    ensures Shrunk(gap, p.release, k + 1) <= 0.0 && GapIs(next, d, Shrunk(gap, p.release, k + 1))
  {
    FallStep(p, e, next, d, Shrunk(gap, p.release, k));
    ShrunkStep(gap, p.release, k);
  }

  /** With an attack time the gap to a louder, constant detector shrinks by the attack coefficient in every sample. */
  lemma {:induction false} RiseIsAttack(p: Settings, e0: real, d: real, k: nat)
    requires p.Valid() && p.attackTime != 0.0 && e0 < d
    ensures Shrunk(d - e0, p.attack, k) >= 0.0 && Shrinks(p, e0, d, k, p.attack)
  {
    if k == 0 {
      SettledStep(p, e0, d, 0);
    } else {
      RiseIsAttack(p, e0, d, k - 1);
      SettledStep(p, e0, d, k - 1);
      RiseAgain(p, Settled(p, e0, d, k - 1), Settled(p, e0, d, k), d, d - e0, k - 1);
    }
  }

  /** The gap to a quieter one shrinks by the release coefficient, with and without an attack time. */
  lemma {:induction false} FallIsRelease(p: Settings, e0: real, d: real, k: nat)
    requires p.Valid() && e0 >= d
    ensures Shrunk(d - e0, p.release, k) <= 0.0 && Shrinks(p, e0, d, k, p.release)
  {
    if k == 0 {
      SettledStep(p, e0, d, 0);
    } else {
      FallIsRelease(p, e0, d, k - 1);
      SettledStep(p, e0, d, k - 1);
      FallAgain(p, Settled(p, e0, d, k - 1), Settled(p, e0, d, k), d, d - e0, k - 1);
    }
  }

  /** Without an attack time a rise is followed at once. */
  lemma {:induction false} RiseWithoutAttack(p: Settings, e0: real, d: real, k: nat)
    requires p.Valid() && p.attackTime == 0.0 && e0 < d && k > 0
    ensures Settled(p, e0, d, k) == Val(d)
  {
    SettledStep(p, e0, d, k - 1);
    if k > 1 {
      RiseWithoutAttack(p, e0, d, k - 1);
    }
  }

  /** The detector of two or more channels is the louder of the first two, without sign, and a not-a-number value on the
      second of them is overlooked; of one channel it is the sample itself. */
  lemma DetectorIsTheLouder(rows: seq<seq<Sample>>, i: nat)
    requires |rows| > 0 && i < |rows[0]| && (|rows| > 1 ==> i < |rows[1]|)
    ensures var d := DetectorAt(rows, i);
      if |rows| == 1 then d == rows[0][i]
      else
        var a, b := rows[0][i], rows[1][i];
        && (d.NaN? <==> a.NaN?)
        && (a.Val? && b.NaN? ==> d == Val(a.v) || d == Val(-a.v))
        && (d.Val? ==> d.v >= 0.0)
        && (a.Val? && b.Val? ==>
              && -d.v <= a.v <= d.v && -d.v <= b.v <= d.v
              && (d.v == a.v || d.v == -a.v || d.v == b.v || d.v == -b.v))
  {
  }

  // ---------------------------------------------------------------------------------------------
  // Recovery from a not-a-number input

  /** With an attack time, only a not-a-number input makes the envelope so, and only while it lasts. */
  lemma RecoversAtOnce(p: Settings, initial: Sample, ds: seq<Sample>, i: nat)
    requires p.attackTime != 0.0 && i < |ds|
    ensures EnvelopeOf(p, initial, ds)[i].NaN? <==> ds[i].NaN?
  {
    EnvelopeRecurrence(p, initial, ds, i);
  }

  /** Without one, a single not-a-number value spoils the envelope from there on. */
  lemma {:induction false} NeverRecoversWithoutAttack(p: Settings, initial: Sample, ds: seq<Sample>, i: nat)
    requires p.attackTime == 0.0 && i < |ds|
    ensures EnvelopeOf(p, initial, ds)[i].NaN? <==> initial.NaN? || exists j :: 0 <= j <= i && ds[j].NaN?
    decreases i
  {
    EnvelopeRecurrence(p, initial, ds, i);
    if i > 0 {
      NeverRecoversWithoutAttack(p, initial, ds, i - 1);
    }
  }

  // ---------------------------------------------------------------------------------------------
  // The object

  /** The channels of an audio buffer. */
  ghost function Rows(buffer: array2<Sample>): (rows: seq<seq<Sample>>)
    reads buffer
    ensures |rows| == buffer.Length0
    ensures forall c :: 0 <= c < |rows| ==> |rows[c]| == buffer.Length1
    ensures forall c, j :: 0 <= c < buffer.Length0 && 0 <= j < buffer.Length1 ==> rows[c][j] == buffer[c, j]
  {
    seq(buffer.Length0, c requires 0 <= c < buffer.Length0 reads buffer =>
      seq(buffer.Length1, j requires 0 <= j < buffer.Length1 reads buffer => buffer[c, j]))
  }

  function Detectors(rows: seq<seq<Sample>>): (ds: seq<Sample>)
    requires |rows| > 0
    requires |rows| > 1 ==> |rows[1]| == |rows[0]|
    ensures |ds| == |rows[0]|
    ensures forall i :: 0 <= i < |ds| ==> ds[i] == DetectorAt(rows, i)
  {
    seq(|rows[0]|, i requires 0 <= i < |rows[0]| => DetectorAt(rows, i))
  }

  class Envelope {
    var envelope: array<Sample>
    var detector: array<Sample>
    var lastValue: Sample
    var settings: Settings

    ghost predicate Valid()
      reads this
    {
      envelope.Length == detector.Length && envelope != detector
    }

    constructor (settings: Settings, maximumBlockSize: nat)
      ensures Valid() && fresh(envelope) && fresh(detector)
      ensures envelope.Length == maximumBlockSize
      ensures this.settings == settings && lastValue == ZERO
    {
      envelope := new Sample[maximumBlockSize](_ => ZERO);
      detector := new Sample[maximumBlockSize](_ => ZERO);
      lastValue := ZERO;
      this.settings := settings;
    }

    /** The follower's step, in place on the carried value. */
    method Track(d: Sample) returns (e: Sample)
      modifies this`lastValue
      ensures e == Follow(settings, old(lastValue), d) && lastValue == e
    {
      if settings.attackTime == 0.0 {
        e := if Less(lastValue, d) then d else Blend(settings.release, lastValue, d);
      } else {
        if lastValue.NaN? {
          lastValue := ZERO;
        }
        e := if Less(lastValue, d) then Blend(settings.attack, lastValue, d)
             else Blend(settings.release, lastValue, d);
      }
      lastValue := e;
    }

    method ProcessBlock(buffer: array2<Sample>)
      requires Valid()
      requires buffer.Length0 > 0 && buffer.Length1 <= envelope.Length
      modifies this`lastValue, envelope, detector
      ensures Valid()
      ensures envelope[..buffer.Length1] == EnvelopeOf(settings, old(lastValue), Detectors(old(Rows(buffer))))
      ensures lastValue == LastOf(old(lastValue), envelope[..buffer.Length1])
      ensures detector[..buffer.Length1] == Detectors(old(Rows(buffer)))
    {
      var mono := buffer.Length0 == 1;
      ghost var initial := lastValue;
      ghost var ds := Detectors(Rows(buffer));
      ghost var es := EnvelopeOf(settings, initial, ds);
      for i := 0 to buffer.Length1
        invariant lastValue == Before(initial, es, i)
        invariant forall k :: 0 <= k < i ==> envelope[k] == es[k]
        invariant forall k :: 0 <= k < i ==> detector[k] == ds[k]
      {
        var d := if mono then buffer[0, i] else Larger(Magnitude(buffer[0, i]), Magnitude(buffer[1, i]));
        assert d == ds[i];
        EnvelopeRecurrence(settings, initial, ds, i);
        detector[i] := d;
        envelope[i] := Track(d);
      }
    }
  }
}
