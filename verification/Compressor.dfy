/**
 The compressor (source/dsp/compressor/Compressor.cpp): the gain curve in decibels and the two rolling
 windows of the automatic make-up gain.
 */
module Compressors {
  import opened Arithmetic
  import opened Numbers
  import opened Samples
  import opened Envelopes

  datatype CompressorType = Upward | Expander

  datatype Parameters = Parameters(
    threshold: real, ratio: real, knee: real, makeUpGain: real, range: real,
    autoMakeUpGain: bool, compType: CompressorType)
  {
    predicate Valid() {
      ratio >= 1.0 && knee >= 0.0 && range >= 0.0
    }
  }

  /** What the curve does to a sample: a control voltage in decibels, or none. */
  datatype Voltage = Untouched | Control(x: Number) {
    predicate Spoiled() {
      Control? && x.NotANumber?
    }

    function Db(): real {
      if Control? && x.Finite? then x.v else 0.0
    }
  }

  function Max(a: real, b: real): real {
    if a < b then b else a
  }

  function Abs(a: real): real {
    if a < 0.0 then -a else a
  }

  /** The slope above the knee. */
  function Slope(p: Parameters): real
    requires p.Valid()
  {
    1.0 / p.ratio - 1.0
  }

  /** The three branches of the code on the level beyond the threshold. */
  function ControlVoltage(slope: Number, knee: Number, range: Number, x: Number): Voltage {
    var two := Finite(2.0);
    if knee.Less(two.Times(x)) then
      Control(slope.Times(x).Max(range.Negated()))
    else if two.Times(x.Absolute()).AtMost(knee) then
      Control(KneeVoltage(slope, knee, x).Max(range.Negated()))
    else
      Untouched
  }

  function KneeVoltage(slope: Number, knee: Number, x: Number): Number {
    Bow(slope, x.Plus(knee.Over(Finite(2.0)))).Over(Finite(2.0).Times(knee))
  }

  function Bow(slope: Number, y: Number): Number {
    slope.Times(y.Times(y))
  }

  function Beyond(p: Parameters, level: Number): Number {
    if p.compType == Upward then level.Minus(Finite(p.threshold)) else Finite(p.threshold).Minus(level)
  }

  function Curve(p: Parameters, level: Number): Voltage {
    var slope := Finite(1.0).Over(Finite(p.ratio)).Minus(Finite(1.0));
    ControlVoltage(slope, Finite(p.knee), Finite(p.range), Beyond(p, level))
  }

  // ---------------------------------------------------------------------------------------------
  // The curve

  /** The depth of the bend per unit of slope: zero, then a parabola, then a line. */
  function Depth(knee: real, u: real): real
    requires knee >= 0.0
  {
    if 2.0 * u > knee then u
    else if 2.0 * Abs(u) <= knee && knee > 0.0 then Arc(knee, u)
    else 0.0
  }

  function Arc(knee: real, u: real): real
    requires knee > 0.0
  {
    (u + knee / 2.0) * (u + knee / 2.0) / (2.0 * knee)
  }

  lemma SlopeRange(p: Parameters)
    requires p.Valid()
    ensures -1.0 < Slope(p) <= 0.0
    ensures Slope(p) == 0.0 <==> p.ratio == 1.0
  {
    assert p.ratio * (1.0 / p.ratio) == 1.0;
  }

  /** The middle branch, for a knee of positive width. */
  function Parabola(slope: real, knee: real, u: real): real
    requires knee != 0.0
  {
    slope * ((u + knee / 2.0) * (u + knee / 2.0)) / (2.0 * knee)
  }

  function Cut(slope: real, depth: real, range: real): real {
    Max(slope * depth, -range)
  }

  /** From `x` to `y` the gain does not rise, and falls by at most the slope over a distance `d`. */
  predicate FallsGently(slope: real, d: real, x: real, y: real) {
    0.0 <= x - y <= -slope * d
  }

  lemma Reassociate(a: real, b: real, c: real)
    requires c != 0.0
    ensures a * b / c == a * (b / c)
  {
  }

  lemma ParabolaIsScaledArc(slope: real, knee: real, u: real)
    requires knee > 0.0
    ensures Parabola(slope, knee, u) == slope * Arc(knee, u)
  {
    Reassociate(slope, (u + knee / 2.0) * (u + knee / 2.0), 2.0 * knee);
  }

  lemma BowAtFinite(slope: real, y: real)
    ensures Bow(Finite(slope), Finite(y)) == Finite(slope * (y * y))
  {
  }

  lemma OverTwiceTheKnee(a: real, knee: real)
    requires knee != 0.0
    ensures Finite(a).Over(Finite(2.0).Times(Finite(knee))) == Finite(a / (2.0 * knee))
  {
  }

  lemma KneeVoltageAtFinite(slope: real, knee: real, u: real)
    requires knee != 0.0
    ensures KneeVoltage(Finite(slope), Finite(knee), Finite(u)) == Finite(Parabola(slope, knee, u))
  {
    var y := u + knee / 2.0;
    assert Finite(u).Plus(Finite(knee).Over(Finite(2.0))) == Finite(y);
    BowAtFinite(slope, y);
    OverTwiceTheKnee(slope * (y * y), knee);
  }

  lemma FlatBow(slope: real)
    ensures Bow(Finite(slope), Finite(0.0)) == Finite(0.0)
  {
    BowAtFinite(slope, 0.0);
  }

  lemma NothingBeyond()
    ensures Finite(0.0).Plus(Finite(0.0).Over(Finite(2.0))) == Finite(0.0)
  {
  }

  lemma NothingOverNothing()
    ensures Finite(0.0).Over(Finite(2.0).Times(Finite(0.0))) == NotANumber
  {
  }

  lemma KneeVoltageWithoutKnee(slope: Number)
    requires Bow(slope, Finite(0.0)) == Finite(0.0)
    ensures KneeVoltage(slope, Finite(0.0), Finite(0.0)) == NotANumber
  {
    NothingBeyond();
    NothingOverNothing();
  }

  lemma MaxAtFinite(a: Number, range: real)
    requires a.Finite? || a.NotANumber?
    ensures a.Max(Finite(range).Negated()) == if a.Finite? then Finite(Max(a.v, -range)) else NotANumber
  {
  }

  lemma BranchAtFinite(slope: Number, knee: real, range: Number, u: real)
    ensures ControlVoltage(slope, Finite(knee), range, Finite(u)) ==
      if 2.0 * u > knee then Control(slope.Times(Finite(u)).Max(range.Negated()))
      else if 2.0 * Abs(u) <= knee then Control(KneeVoltage(slope, Finite(knee), Finite(u)).Max(range.Negated()))
      else Untouched
  {
  }

  /** The curve on reals: nothing, then a parabola, then a line, cut off at the range. */
  function VoltageOf(slope: real, knee: real, range: real, u: real): Voltage {
    if 2.0 * u > knee then Control(Finite(Cut(slope, u, range)))
    else if 2.0 * Abs(u) > knee then Untouched
    else if knee == 0.0 then Control(NotANumber)
    else Control(Finite(Max(Parabola(slope, knee, u), -range)))
  }

  lemma VoltageAtFinite(slope: real, knee: real, range: real, u: real)
    requires knee >= 0.0
    ensures ControlVoltage(Finite(slope), Finite(knee), Finite(range), Finite(u)) == VoltageOf(slope, knee, range, u)
  {
    BranchAtFinite(Finite(slope), knee, Finite(range), u);
    if 2.0 * u > knee {
      MaxAtFinite(Finite(slope * u), range);
    } else if 2.0 * Abs(u) <= knee {
      if knee == 0.0 {
        FlatBow(slope);
        KneeVoltageWithoutKnee(Finite(slope));
      } else {
        KneeVoltageAtFinite(slope, knee, u);
      }
      MaxAtFinite(KneeVoltage(Finite(slope), Finite(knee), Finite(u)), range);
    }
  }

  /** No voltage, which counts as 0, or a finite one: g decibels in all. */
  predicate Gives(c: Voltage, g: real) {
    !c.Spoiled() && (c.Control? ==> c.x.Finite?) && c.Db() == g
  }

  lemma ParabolaIsCutArc(slope: real, knee: real, range: real, u: real)
    requires knee > 0.0
    ensures Max(Parabola(slope, knee, u), -range) == Cut(slope, Arc(knee, u), range)
  {
    ParabolaIsScaledArc(slope, knee, u);
  }

  lemma VoltageOfGives(slope: real, knee: real, range: real, u: real)
    requires knee >= 0.0 && range >= 0.0 && !(knee == 0.0 && u == 0.0)
    ensures Gives(VoltageOf(slope, knee, range, u), Cut(slope, Depth(knee, u), range))
  {
    if 2.0 * u <= knee {
      if 2.0 * Abs(u) <= knee {
        ParabolaIsCutArc(slope, knee, range, u);
      } else {
        assert Cut(slope, 0.0, range) == 0.0;
      }
    }
  }

  lemma VoltageIsCutDepth(slope: real, knee: real, range: real, u: real)
    requires knee >= 0.0 && range >= 0.0 && !(knee == 0.0 && u == 0.0)
    ensures Gives(ControlVoltage(Finite(slope), Finite(knee), Finite(range), Finite(u)),
                  Cut(slope, Depth(knee, u), range))
  {
    VoltageAtFinite(slope, knee, range, u);
    VoltageOfGives(slope, knee, range, u);
  }

  /** The decibels beyond the threshold. */
  function Excess(p: Parameters, v: real): real {
    if p.compType == Upward then v - p.threshold else p.threshold - v
  }

  lemma CurveIsVoltage(p: Parameters, v: real)
    requires p.Valid()
    ensures Curve(p, Finite(v))
         == ControlVoltage(Finite(Slope(p)), Finite(p.knee), Finite(p.range), Finite(Excess(p, v)))
  {
    assert Finite(1.0).Over(Finite(p.ratio)).Minus(Finite(1.0)) == Finite(Slope(p));
    assert Beyond(p, Finite(v)) == Finite(Excess(p, v));
  }

  lemma CurveAtFinite(p: Parameters, v: real)
    requires p.Valid() && !(p.knee == 0.0 && v == p.threshold)
    ensures Gives(Curve(p, Finite(v)), Cut(Slope(p), Depth(p.knee, Excess(p, v)), p.range))
  {
    CurveIsVoltage(p, v);
    VoltageIsCutDepth(Slope(p), p.knee, p.range, Excess(p, v));
  }

  lemma ShareOf(d: real, w: real, k: real)
    requires d >= 0.0 && k > 0.0 && 0.0 <= w <= k
    ensures 0.0 <= d * w / k <= d
  {
    var q := w / k;
    assert q * k == w;
    assert 0.0 <= q <= 1.0;
    Reassociate(d, w, k);
  }

  lemma SquareDifference(knee: real, u: real, v: real)
    requires knee > 0.0
    ensures Arc(knee, v) - Arc(knee, u) == (v - u) * (u + v + knee) / (2.0 * knee)
  {
    var a, b, c := (v + knee / 2.0) * (v + knee / 2.0), (u + knee / 2.0) * (u + knee / 2.0), 2.0 * knee;
    assert a - b == (v - u) * (u + v + knee);
    assert a / c - b / c == (a - b) / c;
  }

  lemma QuotientIs(a: real, b: real, q: real)
    requires b != 0.0 && a == q * b
    ensures a / b == q
  {
  }

  /** At the edges of the knee the parabola meets its neighbours. */
  lemma ArcAtTheEdges(knee: real)
    requires knee > 0.0
    ensures Arc(knee, knee / 2.0) == knee / 2.0
    ensures Arc(knee, -knee / 2.0) == 0.0
  {
    QuotientIs(knee * knee, 2.0 * knee, knee / 2.0);
  }

  lemma ArcIsGentle(knee: real, u: real, v: real)
    requires knee > 0.0 && -knee / 2.0 <= u <= v <= knee / 2.0
    ensures 0.0 <= Arc(knee, v) - Arc(knee, u) <= v - u
  {
    SquareDifference(knee, u, v);
    ShareOf(v - u, u + v + knee, 2.0 * knee);
  }

  /** The depth never falls and never rises faster than its argument. */
  lemma DepthIsGentle(knee: real, u: real, v: real)
    requires knee >= 0.0 && u <= v
    ensures 0.0 <= Depth(knee, u) && 0.0 <= Depth(knee, v) - Depth(knee, u) <= v - u
  {
    if knee > 0.0 {
      ArcAtTheEdges(knee);
      var a := if u < -knee / 2.0 then -knee / 2.0 else if u > knee / 2.0 then knee / 2.0 else u;
      var b := if v < -knee / 2.0 then -knee / 2.0 else if v > knee / 2.0 then knee / 2.0 else v;
      ArcIsGentle(knee, a, b);
      ArcIsGentle(knee, -knee / 2.0, a);
    }
  }

  lemma Scaled(s: real, a: real, b: real, d: real)
    requires s <= 0.0 && a <= b <= a + d && a >= 0.0
    ensures s * b <= s * a <= 0.0 && s * a - s * b <= -s * d
  {
  }

  lemma CutOffIsGentle(s: real, a: real, b: real, d: real, range: real)
    requires s <= 0.0 && a <= b <= a + d && a >= 0.0
    ensures FallsGently(s, d, Cut(s, a, range), Cut(s, b, range))
  {
    Scaled(s, a, b, d);
  }

  lemma CutDepthIsGentle(slope: real, knee: real, range: real, u: real, v: real)
    requires slope <= 0.0 && knee >= 0.0 && u <= v
    ensures FallsGently(slope, v - u, Cut(slope, Depth(knee, u), range), Cut(slope, Depth(knee, v), range))
  {
    DepthIsGentle(knee, u, v);
    CutOffIsGentle(slope, Depth(knee, u), Depth(knee, v), v - u, range);
  }

  /** Between two points of the curve the gain falls by at most 1 - 1/ratio of their distance: it never
      jumps, also where the branches meet and where the range cuts it off. */
  lemma CurveIsGentle(p: Parameters, a: real, b: real)
    requires p.Valid() && Excess(p, a) <= Excess(p, b)
    requires !Curve(p, Finite(a)).Spoiled() && !Curve(p, Finite(b)).Spoiled()
    ensures FallsGently(Slope(p), Excess(p, b) - Excess(p, a), Curve(p, Finite(a)).Db(), Curve(p, Finite(b)).Db())
  {
    SpoiledIff(p, Finite(a));
    SpoiledIff(p, Finite(b));
    CurveAtFinite(p, a);
    CurveAtFinite(p, b);
    SlopeRange(p);
    CutDepthIsGentle(Slope(p), p.knee, p.range, Excess(p, a), Excess(p, b));
  }

  /** The three branches agree where they meet. */
  lemma BranchesMeet(slope: real, knee: real)
    requires knee > 0.0
    ensures Parabola(slope, knee, knee / 2.0) == slope * (knee / 2.0)
    ensures Parabola(slope, knee, -knee / 2.0) == 0.0
  {
    ArcAtTheEdges(knee);
    ParabolaIsScaledArc(slope, knee, knee / 2.0);
    ParabolaIsScaledArc(slope, knee, -knee / 2.0);
  }

  /** The level lies infinitely far on the side that the curve bends. */
  predicate BeyondAll(p: Parameters, level: Number) {
    if p.compType == Upward then level.PlusInfinity? else level.MinusInfinity?
  }

  lemma CurveAtInfinity(p: Parameters, level: Number)
    requires p.Valid() && !level.Finite?
    ensures Curve(p, level) ==
      if BeyondAll(p, level) then Control(if p.ratio == 1.0 then NotANumber else Finite(-p.range)) else Untouched
  {
    SlopeRange(p);
  }

  /** The exact inputs for which the control voltage is not a number: a level at the threshold of a curve without
      knee, which divides zero by zero, and a curve of ratio 1 infinitely far out, which multiplies zero by
      infinity. */
  lemma SpoiledIff(p: Parameters, level: Number)
    requires p.Valid()
    ensures Curve(p, level).Spoiled() <==>
      (p.knee == 0.0 && level == Finite(p.threshold)) || (p.ratio == 1.0 && BeyondAll(p, level))
  {
    if level.Finite? {
      var u := Excess(p, level.v);
      if p.knee == 0.0 && u == 0.0 {
        CurveIsVoltage(p, level.v);
        VoltageAtFinite(Slope(p), p.knee, p.range, u);
      } else {
        CurveAtFinite(p, level.v);
      }
    } else {
      CurveAtInfinity(p, level);
    }
  }

  /** Otherwise it is a finite number in [-range, 0], or there is none. */
  lemma GainRange(p: Parameters, level: Number)
    requires p.Valid() && !Curve(p, level).Spoiled()
    ensures var c := Curve(p, level); c.Control? ==> c.x.Finite? && -p.range <= c.x.v <= 0.0
  {
    SpoiledIff(p, level);
    if level.Finite? {
      CurveAtFinite(p, level.v);
      CutDepthRange(p, Excess(p, level.v));
    } else {
      CurveAtInfinity(p, level);
    }
  }

  lemma CutDepthRange(p: Parameters, u: real)
    requires p.Valid()
    ensures -p.range <= Cut(Slope(p), Depth(p.knee, u), p.range) <= 0.0
  {
    SlopeRange(p);
    DepthIsGentle(p.knee, u, u);
    Scaled(Slope(p), Depth(p.knee, u), Depth(p.knee, u), 0.0);
  }

  /** A louder input never gives a quieter output, in both types; the gain falls with the level in one and
      rises in the other. */
  lemma OutputLevelIsMonotone(p: Parameters, a: real, b: real)
    requires p.Valid() && a <= b
    requires !Curve(p, Finite(a)).Spoiled() && !Curve(p, Finite(b)).Spoiled()
    ensures var x, y := Curve(p, Finite(a)).Db(), Curve(p, Finite(b)).Db();
      a + x <= b + y && if p.compType == Upward then y <= x else x <= y
  {
    SlopeRange(p);
    var x, y := Curve(p, Finite(a)).Db(), Curve(p, Finite(b)).Db();
    if p.compType == Upward {
      CurveIsGentle(p, a, b);
      GentleFallIsOutrun(Slope(p), a, b, x, y);
    } else {
      CurveIsGentle(p, b, a);
      GentleFallIsOutrun(Slope(p), -b, -a, y, x);
    }
  }

  lemma GentleFallIsOutrun(s: real, a: real, b: real, x: real, y: real)
    requires -1.0 < s && a <= b && FallsGently(s, b - a, x, y)
    ensures a + x <= b + y && y <= x
  {
    ProductIsNonNegative(1.0 + s, b - a);
  }

  /** The two types mirror each other around the threshold. */
  lemma TypesMirror(p: Parameters, v: real)
    ensures Curve(p.(compType := Upward), Finite(v))
         == Curve(p.(compType := Expander), Finite(2.0 * p.threshold - v))
  {
  }

  // ---------------------------------------------------------------------------------------------
  // What a block becomes

  /** Twenty times the logarithm of an envelope value; `toDb` is it on the positive ones. */
  function LevelOf(toDb: real -> real, e: Sample): Number {
    if e.NaN? || e.v < 0.0 then NotANumber else if e.v == 0.0 then MinusInfinity else Finite(toDb(e.v))
  }

  function Scale(factor: real, s: Sample): Sample {
    if s.NaN? then NaN else Val(factor * s.v)
  }

  /** A voltage that is no number spoils the sample; an infinite one does not occur (GainRange). */
  function Shaped(p: Parameters, toDb: real -> real, toAmp: real -> real, e: Sample, s: Sample): Sample {
    match Curve(p, LevelOf(toDb, e))
    case Untouched => if p.autoMakeUpGain then s else Scale(toAmp(p.makeUpGain), s)
    case Control(Finite(v)) => Scale(toAmp(if p.autoMakeUpGain then v else v + p.makeUpGain), s)
    case Control(_) => NaN
  }

  predicate IsShaped(p: Parameters, toDb: real -> real, toAmp: real -> real,
                     es: seq<Sample>, rows: seq<seq<Sample>>, rows': seq<seq<Sample>>)
  {
    && |rows'| == |rows|
    && (forall c :: 0 <= c < |rows| ==> |rows'[c]| == |rows[c]| == |es|)
    && forall c, j :: 0 <= c < |rows| && 0 <= j < |es| ==>
         rows'[c][j] == Shaped(p, toDb, toAmp, es[j], rows[c][j])
  }

  // ---------------------------------------------------------------------------------------------
  // What the gain stage does to the level

  /** Decibels to amplitude: 0 dB is the factor 1, sums become products, more decibels more amplitude. */
  ghost predicate IsAmplitude(toAmp: real -> real) {
    && toAmp(0.0) == 1.0
    && (forall a: real, b: real :: Multiplies(toAmp, a, b))
    && (forall a: real, b: real :: Rises(toAmp, a, b))
  }

  predicate Multiplies(toAmp: real -> real, a: real, b: real) {
    toAmp(a + b) == toAmp(a) * toAmp(b)
  }

  predicate Rises(toAmp: real -> real, a: real, b: real) {
    a < b ==> toAmp(a) < toAmp(b)
  }

  lemma SumOfDecibels(toAmp: real -> real, a: real, b: real, sum: real)
    requires IsAmplitude(toAmp) && sum == a + b
    ensures toAmp(sum) == toAmp(a) * toAmp(b)
  {
    assert Multiplies(toAmp, a, b);
  }

  lemma AmplitudeIsPositive(toAmp: real -> real, a: real)
    requires IsAmplitude(toAmp)
    ensures toAmp(a) > 0.0
  {
    SumOfDecibels(toAmp, a / 2.0, a / 2.0, a);
    SumOfDecibels(toAmp, a, -a, 0.0);
    SquareOrProduct(toAmp(a), toAmp(a / 2.0), toAmp(-a));
  }

  lemma SquareOrProduct(a: real, h: real, k: real)
    requires a == h * h && a * k == 1.0
    ensures a > 0.0
  {
  }

  lemma AttenuationIsAtMostOne(toAmp: real -> real, a: real)
    requires IsAmplitude(toAmp) && a <= 0.0
    ensures 0.0 < toAmp(a) <= 1.0
  {
    AmplitudeIsPositive(toAmp, a);
    assert Rises(toAmp, a, 0.0);
  }

  lemma ScaledBy(factor: real, x: real)
    requires 0.0 < factor <= 1.0
    ensures Abs(factor * x) <= Abs(x)
  {
    ProductIsNonNegative(factor, Abs(x));
    ProductIsNonNegative(1.0 - factor, Abs(x));
    assert factor * -x == -(factor * x);
  }

  /** With automatic make-up the stage never makes a sample larger, and spoils it exactly when the voltage is
      spoiled. */
  lemma AutoNeverAmplifies(p: Parameters, toDb: real -> real, toAmp: real -> real, e: Sample, x: real)
    requires p.Valid() && p.autoMakeUpGain && IsAmplitude(toAmp)
    ensures var out := Shaped(p, toDb, toAmp, e, Val(x));
      if Curve(p, LevelOf(toDb, e)).Spoiled() then out.NaN? else out.Val? && Abs(out.v) <= Abs(x)
  {
    var c := Curve(p, LevelOf(toDb, e));
    ShapedIs(p, toDb, toAmp, e, Val(x));
    if !c.Spoiled() && c.Control? {
      GainRange(p, LevelOf(toDb, e));
      AttenuatedSample(toAmp, c.Db(), x);
    }
  }

  lemma AttenuatedSample(toAmp: real -> real, db: real, x: real)
    requires IsAmplitude(toAmp) && db <= 0.0
    ensures Scale(toAmp(db), Val(x)).Val? && Abs(Scale(toAmp(db), Val(x)).v) <= Abs(x)
  {
    AttenuationIsAtMostOne(toAmp, db);
    ScaledBy(toAmp(db), x);
  }

  /** The automatic mode on a curve that is known. */
  lemma ShapedIs(p: Parameters, toDb: real -> real, toAmp: real -> real, e: Sample, s: Sample)
    requires p.Valid() && p.autoMakeUpGain
    ensures var c := Curve(p, LevelOf(toDb, e));
      Shaped(p, toDb, toAmp, e, s) ==
        if c.Untouched? then s else if c.Spoiled() then NaN else Scale(toAmp(c.Db()), s)
  {
    var c := Curve(p, LevelOf(toDb, e));
    if !c.Spoiled() {
      GainRange(p, LevelOf(toDb, e));
    }
  }

  lemma ScaledTwice(a: real, b: real, s: Sample)
    ensures Scale(a, Scale(b, s)) == Scale(b * a, s)
  {
  }

  lemma CurveIgnoresMakeUp(p: Parameters, auto: bool, level: Number)
    ensures Curve(p.(autoMakeUpGain := auto), level) == Curve(p, level)
  {
  }

  /** With manual make-up every sample is the automatic one's times the make-up gain, whatever the curve does. */
  lemma ManualIsAutoTimesMakeUp(p: Parameters, toDb: real -> real, toAmp: real -> real, e: Sample, s: Sample)
    requires p.Valid() && IsAmplitude(toAmp)
    ensures Shaped(p.(autoMakeUpGain := false), toDb, toAmp, e, s)
         == Scale(toAmp(p.makeUpGain), Shaped(p.(autoMakeUpGain := true), toDb, toAmp, e, s))
  {
    var c := Curve(p, LevelOf(toDb, e));
    CurveIgnoresMakeUp(p, true, LevelOf(toDb, e));
    CurveIgnoresMakeUp(p, false, LevelOf(toDb, e));
    if c.Control? && c.x.Finite? {
      ScaledTwice(toAmp(p.makeUpGain), toAmp(c.x.v), s);
      SumOfDecibels(toAmp, c.x.v, p.makeUpGain, c.x.v + p.makeUpGain);
    }
  }

  /** Under an envelope of level v, every sample x comes out of the automatic mode as if it were `out` - v decibels
      louder. */
  predicate ComesOutAt(p: Parameters, toDb: real -> real, toAmp: real -> real, e: real, x: real, out: real) {
    Shaped(p.(autoMakeUpGain := true), toDb, toAmp, Val(e), Val(x)) == Val(toAmp(out - toDb(e)) * x)
  }

  lemma GainAsFactor(p: Parameters, toDb: real -> real, toAmp: real -> real, e: real, x: real, out: real)
    requires p.Valid() && IsAmplitude(toAmp) && e > 0.0
    requires Gives(Curve(p, Finite(toDb(e))), out - toDb(e))
    ensures ComesOutAt(p, toDb, toAmp, e, x, out)
  {
    CurveIgnoresMakeUp(p, true, Finite(toDb(e)));
    ShapedIs(p.(autoMakeUpGain := true), toDb, toAmp, Val(e), Val(x));
  }

  /** The gain on the line beyond the knee, cut off at the range. */
  function LineGain(p: Parameters, u: real): real
    requires p.Valid()
  {
    Max(-(1.0 - 1.0 / p.ratio) * u, -p.range)
  }

  lemma CutOnTheLine(p: Parameters, u: real, c: Voltage)
    requires p.Valid() && 2.0 * u > p.knee && Gives(c, Cut(Slope(p), Depth(p.knee, u), p.range))
    ensures Gives(c, LineGain(p, u))
  {
    assert Depth(p.knee, u) == u && Slope(p) == -(1.0 - 1.0 / p.ratio);
  }

  lemma GainBeyondTheKnee(p: Parameters, v: real)
    requires p.Valid() && 2.0 * Excess(p, v) > p.knee
    ensures Gives(Curve(p, Finite(v)), LineGain(p, Excess(p, v)))
  {
    CurveAtFinite(p, v);
    CutOnTheLine(p, Excess(p, v), Curve(p, Finite(v)));
  }

  lemma ShareOfTheRatio(u: real, ratio: real)
    requires ratio >= 1.0
    ensures -(1.0 - 1.0 / ratio) * u == u / ratio - u
  {
    Reassociate(u, 1.0, ratio);
    assert (1.0 / ratio) * u == u * (1.0 / ratio) == u / ratio;
  }

  /** Beyond the knee and inside the range an upward compressor divides what exceeds the threshold by the ratio; the
      expander puts it twice as far below, less that part. */
  lemma BeyondTheKnee(p: Parameters, toDb: real -> real, toAmp: real -> real, e: real, x: real)
    requires p.Valid() && IsAmplitude(toAmp) && e > 0.0
    requires 2.0 * Excess(p, toDb(e)) > p.knee && (1.0 - 1.0 / p.ratio) * Excess(p, toDb(e)) <= p.range
    ensures p.compType == Upward ==>
      ComesOutAt(p, toDb, toAmp, e, x, p.threshold + Excess(p, toDb(e)) / p.ratio)
    ensures p.compType == Expander ==>
      ComesOutAt(p, toDb, toAmp, e, x, p.threshold - (2.0 * Excess(p, toDb(e)) - Excess(p, toDb(e)) / p.ratio))
  {
    GainInsideTheRange(p, toDb(e));
    if p.compType == Upward {
      GainAsFactor(p, toDb, toAmp, e, x, p.threshold + Excess(p, toDb(e)) / p.ratio);
    } else {
      GainAsFactor(p, toDb, toAmp, e, x, p.threshold - (2.0 * Excess(p, toDb(e)) - Excess(p, toDb(e)) / p.ratio));
    }
  }

  lemma GainInsideTheRange(p: Parameters, v: real)
    requires p.Valid() && 2.0 * Excess(p, v) > p.knee && (1.0 - 1.0 / p.ratio) * Excess(p, v) <= p.range
    ensures Gives(Curve(p, Finite(v)), Excess(p, v) / p.ratio - Excess(p, v))
  {
    GainBeyondTheKnee(p, v);
    LineInsideTheRange(p, Excess(p, v));
  }

  lemma LineInsideTheRange(p: Parameters, u: real)
    requires p.Valid() && (1.0 - 1.0 / p.ratio) * u <= p.range
    ensures LineGain(p, u) == u / p.ratio - u
  {
    ShareOfTheRatio(u, p.ratio);
  }

  /** A signal at its own envelope's level, in decibels. */
  lemma ComesOutAtLevel(p: Parameters, toDb: real -> real, toAmp: real -> real, e: real, out: real)
    requires p.Valid() && IsAmplitude(toAmp) && ComesOutAt(p, toDb, toAmp, e, toAmp(toDb(e)), out)
    ensures Shaped(p.(autoMakeUpGain := true), toDb, toAmp, Val(e), Val(toAmp(toDb(e)))) == Val(toAmp(out))
  {
    SumOfDecibels(toAmp, out - toDb(e), toDb(e), out);
  }

  /** So two levels d decibels apart come out d/ratio apart. */
  lemma RatioMeaning(p: Parameters, toDb: real -> real, toAmp: real -> real, a: real, b: real)
    requires p.Valid() && IsAmplitude(toAmp) && p.compType == Upward && p.autoMakeUpGain && a > 0.0 && b > 0.0
    requires 2.0 * Excess(p, toDb(a)) > p.knee && (1.0 - 1.0 / p.ratio) * Excess(p, toDb(a)) <= p.range
    requires 2.0 * Excess(p, toDb(b)) > p.knee && (1.0 - 1.0 / p.ratio) * Excess(p, toDb(b)) <= p.range
    ensures
      var x := Shaped(p, toDb, toAmp, Val(a), Val(toAmp(toDb(a))));
      var y := Shaped(p, toDb, toAmp, Val(b), Val(toAmp(toDb(b))));
      x.Val? && y.Val? && y.v == toAmp((toDb(b) - toDb(a)) / p.ratio) * x.v
  {
    LevelBeyondTheKnee(p, toDb, toAmp, a);
    LevelBeyondTheKnee(p, toDb, toAmp, b);
    QuotientsSubtract(Excess(p, toDb(b)), Excess(p, toDb(a)), p.ratio);
    SumOfDecibels(toAmp, (toDb(b) - toDb(a)) / p.ratio,
                  p.threshold + Excess(p, toDb(a)) / p.ratio, p.threshold + Excess(p, toDb(b)) / p.ratio);
  }

  lemma LevelBeyondTheKnee(p: Parameters, toDb: real -> real, toAmp: real -> real, e: real)
    requires p.Valid() && IsAmplitude(toAmp) && p.compType == Upward && p.autoMakeUpGain && e > 0.0
    requires 2.0 * Excess(p, toDb(e)) > p.knee && (1.0 - 1.0 / p.ratio) * Excess(p, toDb(e)) <= p.range
    ensures Shaped(p, toDb, toAmp, Val(e), Val(toAmp(toDb(e))))
         == Val(toAmp(p.threshold + Excess(p, toDb(e)) / p.ratio))
  {
    BeyondTheKnee(p, toDb, toAmp, e, toAmp(toDb(e)));
    ComesOutAtLevel(p, toDb, toAmp, e, p.threshold + Excess(p, toDb(e)) / p.ratio);
    assert p == p.(autoMakeUpGain := true);
  }

  lemma QuotientsSubtract(b: real, a: real, c: real)
    requires c != 0.0
    ensures (b - a) / c == b / c - a / c
  {
  }

  /** Far beyond the knee the range is all that is taken away. */
  lemma BeyondTheRange(p: Parameters, toDb: real -> real, toAmp: real -> real, e: real, x: real)
    requires p.Valid() && IsAmplitude(toAmp) && e > 0.0
    requires 2.0 * Excess(p, toDb(e)) > p.knee && (1.0 - 1.0 / p.ratio) * Excess(p, toDb(e)) >= p.range
    ensures ComesOutAt(p, toDb, toAmp, e, x, toDb(e) - p.range)
  {
    GainBeyondTheKnee(p, toDb(e));
    GainAsFactor(p, toDb, toAmp, e, x, toDb(e) - p.range);
  }

  /** On the other side of the knee nothing happens. */
  lemma BelowTheKnee(p: Parameters, toDb: real -> real, toAmp: real -> real, e: real, x: real)
    requires p.Valid() && IsAmplitude(toAmp) && e > 0.0 && 2.0 * Excess(p, toDb(e)) < -p.knee
    ensures ComesOutAt(p, toDb, toAmp, e, x, toDb(e))
  {
    CurveAtFinite(p, toDb(e));
    GainAsFactor(p, toDb, toAmp, e, x, toDb(e));
  }

  /** Between the excesses u and v the gain falls from x to y by their distance, times the full slope, times the
      share of the knee that lies below their middle. */
  predicate BendsBetween(p: Parameters, u: real, v: real, x: real, y: real)
    requires p.Valid() && p.knee > 0.0
  {
    x - y == (1.0 - 1.0 / p.ratio) * ((v - u) * (u + v + p.knee) / (2.0 * p.knee))
  }

  /** Inside the knee the gain falls by the share of the full slope that lies below the middle of the two levels, so the
      slope grows evenly from nothing to that of the line. */
  lemma KneeBends(p: Parameters, a: real, b: real)
    requires p.Valid() && p.knee > 0.0
    requires -p.knee <= 2.0 * Excess(p, a) <= p.knee && -p.knee <= 2.0 * Excess(p, b) <= p.knee
    requires Curve(p, Finite(a)).Db() > -p.range && Curve(p, Finite(b)).Db() > -p.range
    ensures BendsBetween(p, Excess(p, a), Excess(p, b), Curve(p, Finite(a)).Db(), Curve(p, Finite(b)).Db())
  {
    GainInsideTheKnee(p, a);
    GainInsideTheKnee(p, b);
    KneeFall(p, Excess(p, a), Excess(p, b), Curve(p, Finite(a)).Db(), Curve(p, Finite(b)).Db());
  }

  predicate IsOnTheArc(p: Parameters, u: real, x: real)
    requires p.Valid() && p.knee > 0.0
  {
    x == -((1.0 - 1.0 / p.ratio) * Arc(p.knee, u))
  }

  lemma GainInsideTheKnee(p: Parameters, v: real)
    requires p.Valid() && p.knee > 0.0 && -p.knee <= 2.0 * Excess(p, v) <= p.knee
    requires Curve(p, Finite(v)).Db() > -p.range
    ensures IsOnTheArc(p, Excess(p, v), Curve(p, Finite(v)).Db())
  {
    CurveAtFinite(p, v);
    DepthInKnee(p.knee, Excess(p, v));
    AboveTheRange(p, Excess(p, v), Curve(p, Finite(v)).Db());
  }

  lemma AboveTheRange(p: Parameters, u: real, x: real)
    requires p.Valid() && p.knee > 0.0
    requires x == Cut(Slope(p), Arc(p.knee, u), p.range) && x > -p.range
    ensures IsOnTheArc(p, u, x)
  {
    var arc := Arc(p.knee, u);
    assert Slope(p) * arc == -((1.0 - 1.0 / p.ratio) * arc);
  }

  lemma KneeFall(p: Parameters, u: real, v: real, x: real, y: real)
    requires p.Valid() && p.knee > 0.0
    requires IsOnTheArc(p, u, x) && IsOnTheArc(p, v, y)
    ensures BendsBetween(p, u, v, x, y)
  {
    SquareDifference(p.knee, u, v);
    Combine(1.0 - 1.0 / p.ratio, Arc(p.knee, u), Arc(p.knee, v), (v - u) * (u + v + p.knee) / (2.0 * p.knee), x, y);
  }

  lemma Combine(c: real, x: real, y: real, difference: real, a: real, b: real)
    requires a == -(c * x) && b == -(c * y) && y - x == difference
    ensures a - b == c * difference
  {
  }

  lemma DepthInKnee(knee: real, u: real)
    requires knee > 0.0 && -knee <= 2.0 * u <= knee
    ensures Depth(knee, u) == Arc(knee, u)
  {
  }

  /** An envelope without a level: a compressor leaves the sample alone, and so does an expander unless the envelope is
      zero, which takes the whole range away. */
  lemma WithoutALevel(p: Parameters, toDb: real -> real, toAmp: real -> real, e: Sample, s: Sample)
    requires p.Valid() && p.autoMakeUpGain && (e.NaN? || e.v <= 0.0)
    ensures Shaped(p, toDb, toAmp, e, s) ==
      if p.compType == Upward || e != ZERO then s else if p.ratio == 1.0 then NaN else Scale(toAmp(-p.range), s)
  {
    CurveAtInfinity(p, LevelOf(toDb, e));
  }

  // ---------------------------------------------------------------------------------------------
  // Rolling windows

  /** The contents of a window, oldest first. */
  function Rolled(slots: seq<Sample>, index: nat): (w: seq<Sample>)
    requires index < |slots|
    ensures |w| == |slots|
  {
    slots[index..] + slots[..index]
  }

  /** What a window holds after a run of samples. */
  function Latest(w: seq<Sample>, xs: seq<Sample>): (r: seq<Sample>)
    ensures |r| == |w|
  {
    (w + xs)[|xs|..]
  }

  lemma LatestStep(w: seq<Sample>, xs: seq<Sample>, x: Sample)
    requires |w| > 0
    ensures Latest(w, xs + [x]) == Latest(w, xs)[1..] + [x]
  {
    assert w + (xs + [x]) == (w + xs) + [x];
  }

  lemma RolledStep(slots: seq<Sample>, index: nat, x: Sample)
    requires index < |slots|
    ensures Rolled(slots[index := x], Wrapped(index, |slots|)) == Rolled(slots, index)[1..] + [x]
  {
  }

  lemma LatestAppend(w: seq<Sample>, xs: seq<Sample>, ys: seq<Sample>)
    ensures Latest(Latest(w, xs), ys) == Latest(w, xs + ys)
  {
    assert w + (xs + ys) == (w + xs) + ys;
  }

  function WindowAfter(w: seq<Sample>, blocks: seq<seq<Sample>>): (r: seq<Sample>)
    ensures |r| == |w|
    decreases |blocks|
  {
    if blocks == [] then w else WindowAfter(Latest(w, blocks[0]), blocks[1..])
  }

  /** After any number of blocks that bring at least a window's worth of samples, the window holds exactly the
      last ones. */
  lemma {:induction false} WindowHoldsTheLast(w: seq<Sample>, blocks: seq<seq<Sample>>)
    ensures WindowAfter(w, blocks) == Latest(w, Concat(blocks))
    ensures var xs := Concat(blocks); |xs| >= |w| ==> WindowAfter(w, blocks) == xs[|xs| - |w|..]
    decreases |blocks|
  {
    if blocks != [] {
      WindowHoldsTheLast(Latest(w, blocks[0]), blocks[1..]);
      LatestAppend(w, blocks[0], Concat(blocks[1..]));
    } else {
      assert w + [] == w;
    }
  }

  /** Windows with equal indices hold, in each slot, the input and the output of one and the same moment. */
  lemma SlotsBelongTogether(a: seq<Sample>, b: seq<Sample>, index: nat, xs: seq<Sample>, ys: seq<Sample>, k: nat)
    returns (j: nat)
    requires index < |a| == |b| && k < |a|
    requires |xs| == |ys| >= |a|
    requires Rolled(a, index) == xs[|xs| - |a|..] && Rolled(b, index) == ys[|ys| - |b|..]
    ensures |xs| - |a| <= j < |xs| && a[k] == xs[j] && b[k] == ys[j]
  {
    var i := if k >= index then k - index else k + |a| - index;
    j := |xs| - |a| + i;
    assert a[k] == Rolled(a, index)[i] && b[k] == Rolled(b, index)[i];
  }

  lemma {:induction false} ConcatStep(rows: seq<seq<Sample>>, row: seq<Sample>)
    ensures Concat(rows + [row]) == Concat(rows) + row
    decreases |rows|
  {
    if rows != [] {
      assert (rows + [row])[1..] == rows[1..] + [row];
      ConcatStep(rows[1..], row);
    }
  }

  /** The rows written so far, and the first `j` samples of row `c`. */
  function Copied(rows: seq<seq<Sample>>, c: nat, j: nat): seq<Sample>
    requires c < |rows| && j <= |rows[c]|
  {
    Concat(rows[..c]) + rows[c][..j]
  }

  lemma CopiedStep(rows: seq<seq<Sample>>, c: nat, j: nat)
    requires c < |rows| && j < |rows[c]|
    ensures Copied(rows, c, j + 1) == Copied(rows, c, j) + [rows[c][j]]
  {
  }

  lemma CopiedRow(rows: seq<seq<Sample>>, c: nat)
    requires c < |rows|
    ensures Copied(rows, c, 0) == Concat(rows[..c])
    ensures Copied(rows, c, |rows[c]|) == Concat(rows[..c + 1])
  {
    ConcatStep(rows[..c], rows[c]);
    assert rows[..c + 1] == rows[..c] + [rows[c]];
  }

  function Wrapped(index: nat, n: nat): nat {
    if index + 1 >= n then 0 else index + 1
  }

  /** A window index after `k` samples. */
  function Moved(index: nat, k: nat, n: nat): (r: nat)
    requires index < n
    ensures r < n
    decreases k
  {
    if k == 0 then index else Wrapped(Moved(index, k - 1, n), n)
  }

  lemma {:induction false} ConcatLength(rows: seq<seq<Sample>>, rows': seq<seq<Sample>>)
    requires |rows| == |rows'| && forall c :: 0 <= c < |rows| ==> |rows[c]| == |rows'[c]|
    ensures |Concat(rows)| == |Concat(rows')|
    decreases |rows|
  {
    if rows != [] {
      ConcatLength(rows[1..], rows'[1..]);
    }
  }

  // ---------------------------------------------------------------------------------------------
  // Levels of the windows

  function Added(a: Sample, b: Sample): Sample {
    if a.NaN? || b.NaN? then NaN else Val(a.v + b.v)
  }

  /** The sum of the squares. */
  function Energy(xs: seq<Sample>): (e: Sample)
    ensures e.Val? ==> e.v >= 0.0
    decreases |xs|
  {
    if xs == [] then ZERO
    else Added(if xs[0].NaN? then NaN else Val(Square(xs[0].v)), Energy(xs[1..]))
  }

  function Square(x: real): (r: real)
    ensures r >= 0.0
  {
    x * x
  }

  /** The root mean square; `root` is the square root. */
  function Rms(root: real -> real, xs: seq<Sample>): Sample
    requires xs != []
  {
    var e := Energy(xs);
    if e.NaN? then NaN else Val(root(e.v / |xs| as real))
  }

  lemma {:induction false} EnergyAppend(xs: seq<Sample>, ys: seq<Sample>)
    ensures Energy(xs + ys) == Added(Energy(xs), Energy(ys))
    decreases |xs|
  {
    if xs == [] {
      assert xs + ys == ys;
    } else {
      assert (xs + ys)[1..] == xs[1..] + ys;
      EnergyAppend(xs[1..], ys);
    }
  }

  /** The level of the slots, in whatever order they lie in memory, is the level of the window. */
  lemma LevelOfWindow(root: real -> real, slots: seq<Sample>, index: nat)
    requires index < |slots|
    ensures Rms(root, Rolled(slots, index)) == Rms(root, slots)
  {
    assert slots == slots[..index] + slots[index..];
    EnergyAppend(slots[..index], slots[index..]);
    EnergyAppend(slots[index..], slots[..index]);
  }

  function Multiple(n: nat, x: real): real {
    n as real * x
  }

  lemma MultipleStep(n: nat, x: real)
    requires n > 0
    ensures Multiple(n, x) == x + Multiple(n - 1, x) && Multiple(n, x) / n as real == x
  {
    QuotientIs(n as real * x, n as real, x);
  }

  function Steady(x: Sample, n: nat): (xs: seq<Sample>)
    ensures |xs| == n && forall i :: 0 <= i < n ==> xs[i] == x
  {
    seq(n, _ => x)
  }

  lemma {:induction false} ConstantEnergy(a: real, n: nat)
    ensures Energy(Steady(Val(a), n)) == Val(Multiple(n, Square(a)))
  {
    if n > 0 {
      assert Steady(Val(a), n)[1..] == Steady(Val(a), n - 1);
      ConstantEnergy(a, n - 1);
      MultipleStep(n, Square(a));
    }
  }

  /** A constant signal has the level of its value, however long the window. */
  lemma LevelOfConstant(root: real -> real, a: real, n: nat)
    requires n > 0
    ensures Rms(root, Steady(Val(a), n)) == Val(root(a * a))
  {
    ConstantEnergy(a, n);
    MultipleStep(n, Square(a));
    assert Square(a) == a * a;
  }

  /** The level is a number if and only if all samples are. */
  lemma {:induction false} EnergyIsANumberIff(xs: seq<Sample>)
    ensures Energy(xs).Val? <==> AllClean(xs)
    decreases |xs|
  {
    if xs != [] {
      EnergyIsANumberIff(xs[1..]);
      assert AllClean(xs) <==> xs[0].Val? && AllClean(xs[1..]) by {
        assert xs == [xs[0]] + xs[1..];
      }
    }
  }

  function AsNumber(s: Sample): Number {
    if s.NaN? then NotANumber else Finite(s.v)
  }

  /** The automatic make-up factor from the levels of the two windows. */
  function MakeUp(input: Sample, output: Sample): Number {
    var i, o := AsNumber(input), AsNumber(output);
    if Finite(0.0).Less(i) && o.Less(i) then i.Over(o) else Finite(1.0)
  }

  /** The factor never attenuates; where the compressor took level away it gives exactly that level back, unless the
      whole output window is silent, which makes the factor infinite. */
  lemma MakeUpRestoresTheLevel(input: Sample, output: Sample)
    requires output.Val? ==> output.v >= 0.0
    ensures var f := MakeUp(input, output);
      && (f.PlusInfinity? <==> input.Val? && output.Val? && input.v > 0.0 == output.v)
      && (!f.PlusInfinity? ==> f.Finite? && f.v >= 1.0)
      && (f.Finite? && input.Val? && output.Val? && input.v > output.v ==> f.v * output.v == input.v)
      && (input.NaN? || output.NaN? || input.v <= output.v ==> f == Finite(1.0))
  {
    if input.Val? && output.Val? && input.v > output.v > 0.0 {
      QuotientAboveOne(input.v, output.v);
    }
  }

  lemma QuotientAboveOne(a: real, b: real)
    requires a > b > 0.0
    ensures a / b >= 1.0 && a / b * b == a
  {
    var q := a / b;
    assert q * b == a;
    if q < 1.0 {
      ProductIsNonNegative(1.0 - q, b);
    }
  }

  class Compressor {
    var parameter: Parameters
    const envelope: Envelope
    const inputBuffer: array<Sample>
    const outputBuffer: array<Sample>
    var inputBufferIndex: nat
    var outputBufferIndex: nat
    var inputGain: Sample
    var outputGain: Sample

    ghost predicate Valid()
      reads this, envelope
    {
      && envelope.Valid() && parameter.Valid()
      && inputBuffer.Length == outputBuffer.Length
      && inputBufferIndex < inputBuffer.Length && outputBufferIndex < outputBuffer.Length
      && inputBuffer != outputBuffer
      && inputBuffer !in {envelope.envelope, envelope.detector}
      && outputBuffer !in {envelope.envelope, envelope.detector}
    }

    ghost function InputWindow(): seq<Sample>
      requires inputBufferIndex < inputBuffer.Length
      reads this, inputBuffer
    {
      Rolled(inputBuffer[..], inputBufferIndex)
    }

    ghost function OutputWindow(): seq<Sample>
      requires outputBufferIndex < outputBuffer.Length
      reads this, outputBuffer
    {
      Rolled(outputBuffer[..], outputBufferIndex)
    }

    /** A window holds a whole number of blocks, at most a second. */
    constructor (parameter: Parameters, settings: Settings, sampleRate: nat, maximumBlockSize: nat)
      requires parameter.Valid() && 0 < maximumBlockSize <= sampleRate
      ensures Valid() && inputBufferIndex == outputBufferIndex == 0
      ensures inputBuffer.Length % maximumBlockSize == 0
      ensures sampleRate - maximumBlockSize < inputBuffer.Length <= sampleRate
      ensures fresh(envelope) && fresh(envelope.envelope) && fresh(envelope.detector)
      ensures fresh(inputBuffer) && fresh(outputBuffer)
    {
      this.parameter := parameter;
      envelope := new Envelope(settings, maximumBlockSize);
      WholeBlocks(sampleRate, maximumBlockSize);
      inputBuffer := new Sample[sampleRate / maximumBlockSize * maximumBlockSize](_ => ZERO);
      outputBuffer := new Sample[sampleRate / maximumBlockSize * maximumBlockSize](_ => ZERO);
      inputBufferIndex, outputBufferIndex := 0, 0;
      inputGain, outputGain := ZERO, ZERO;
    }

    static method Put(target: array<Sample>, index: nat, x: Sample) returns (next: nat)
      requires index < target.Length
      modifies target
      ensures next == Wrapped(index, target.Length) < target.Length
      ensures Rolled(target[..], next) == old(Rolled(target[..], index))[1..] + [x]
    {
      RolledStep(target[..], index, x);
      target[index] := x;
      next := index + 1;
      if next >= target.Length {
        next := 0;
      }
    }

    /** Copies a block into a window that goes round. */
    static method Roll(target: array<Sample>, index: nat, source: array2<Sample>) returns (next: nat)
      requires index < target.Length
      modifies target
      ensures next == Moved(index, |Concat(old(Rows(source)))|, target.Length)
      ensures Rolled(target[..], next) == Latest(old(Rolled(target[..], index)), Concat(old(Rows(source))))
    {
      next := index;
      ghost var rows := Rows(source);
      ghost var w := Rolled(target[..], index);
      assert w + [] == w;
      for c := 0 to source.Length0
        invariant next == Moved(index, |Concat(rows[..c])|, target.Length)
        invariant Rolled(target[..], next) == Latest(w, Concat(rows[..c]))
      {
        CopiedRow(rows, c);
        for j := 0 to source.Length1
          invariant next == Moved(index, |Copied(rows, c, j)|, target.Length)
          invariant Rolled(target[..], next) == Latest(w, Copied(rows, c, j))
        {
          CopiedStep(rows, c, j);
          LatestStep(w, Copied(rows, c, j), rows[c][j]);
          next := Put(target, next, source[c, j]);
        }
      }
      assert rows[..source.Length0] == rows;
    }

    method CopyAutoMakeUpBuffer(source: array2<Sample>, input: bool)
      requires Valid()
      modifies this`inputBufferIndex, this`outputBufferIndex, inputBuffer, outputBuffer
      ensures Valid()
      ensures input ==> InputWindow() == Latest(old(InputWindow()), Concat(old(Rows(source))))
      ensures input ==>
        inputBufferIndex == Moved(old(inputBufferIndex), |Concat(old(Rows(source)))|, inputBuffer.Length)
      ensures input ==> outputBufferIndex == old(outputBufferIndex) && outputBuffer[..] == old(outputBuffer[..])
      ensures !input ==> OutputWindow() == Latest(old(OutputWindow()), Concat(old(Rows(source))))
      ensures !input ==>
        outputBufferIndex == Moved(old(outputBufferIndex), |Concat(old(Rows(source)))|, outputBuffer.Length)
      ensures !input ==> inputBufferIndex == old(inputBufferIndex) && inputBuffer[..] == old(inputBuffer[..])
    {
      if input {
        inputBufferIndex := Roll(inputBuffer, inputBufferIndex, source);
      } else {
        outputBufferIndex := Roll(outputBuffer, outputBufferIndex, source);
      }
    }

    /** The window takes the block and its level is measured. */
    method Measure(source: array2<Sample>, input: bool, root: real -> real)
      requires Valid()
      modifies this`inputBufferIndex, this`outputBufferIndex, this`inputGain, this`outputGain, inputBuffer, outputBuffer
      ensures Valid()
      ensures input ==> InputWindow() == Latest(old(InputWindow()), Concat(old(Rows(source))))
      ensures input ==>
        inputBufferIndex == Moved(old(inputBufferIndex), |Concat(old(Rows(source)))|, inputBuffer.Length)
      ensures input ==> outputBufferIndex == old(outputBufferIndex) && outputBuffer[..] == old(outputBuffer[..])
      ensures !input ==> OutputWindow() == Latest(old(OutputWindow()), Concat(old(Rows(source))))
      ensures !input ==>
        outputBufferIndex == Moved(old(outputBufferIndex), |Concat(old(Rows(source)))|, outputBuffer.Length)
      ensures !input ==> inputBufferIndex == old(inputBufferIndex) && inputBuffer[..] == old(inputBuffer[..])
      ensures inputGain == if input then Rms(root, InputWindow()) else old(inputGain)
      ensures outputGain == if input then old(outputGain) else Rms(root, OutputWindow())
    {
      CopyAutoMakeUpBuffer(source, input);
      if input {
        inputGain := Rms(root, inputBuffer[..]);
        LevelOfWindow(root, inputBuffer[..], inputBufferIndex);
      } else {
        outputGain := Rms(root, outputBuffer[..]);
        LevelOfWindow(root, outputBuffer[..], outputBufferIndex);
      }
    }

    /** The gain stage, in place. */
    method Shape(buffer: array2<Sample>, toDb: real -> real, toAmp: real -> real)
      requires Valid() && buffer.Length1 <= envelope.envelope.Length
      modifies buffer
      ensures IsShaped(parameter, toDb, toAmp, envelope.envelope[..buffer.Length1], old(Rows(buffer)), Rows(buffer))
    {
      var p := parameter;
      EverySample(buffer, (e, s) => Shaped(p, toDb, toAmp, e, s));
    }

    /** Every sample of every channel, with the envelope at its time. */
    method EverySample(buffer: array2<Sample>, f: (Sample, Sample) -> Sample)
      requires Valid() && buffer.Length1 <= envelope.envelope.Length
      modifies buffer
      ensures forall c, j :: 0 <= c < buffer.Length0 && 0 <= j < buffer.Length1 ==>
                buffer[c, j] == f(envelope.envelope[j], old(buffer[c, j]))
    {
      for i := 0 to buffer.Length0
        invariant forall c, j :: 0 <= c < i && 0 <= j < buffer.Length1 ==>
                    buffer[c, j] == f(envelope.envelope[j], old(buffer[c, j]))
        invariant forall c, j :: i <= c < buffer.Length0 && 0 <= j < buffer.Length1 ==>
                    buffer[c, j] == old(buffer[c, j])
      {
        for j := 0 to buffer.Length1
          invariant forall c, k :: 0 <= c < i && 0 <= k < buffer.Length1 ==>
                      buffer[c, k] == f(envelope.envelope[k], old(buffer[c, k]))
          invariant forall c, k :: i < c < buffer.Length0 && 0 <= k < buffer.Length1 ==>
                      buffer[c, k] == old(buffer[c, k])
          invariant forall k :: 0 <= k < j ==> buffer[i, k] == f(envelope.envelope[k], old(buffer[i, k]))
          invariant forall k :: j <= k < buffer.Length1 ==> buffer[i, k] == old(buffer[i, k])
        {
          buffer[i, j] := f(envelope.envelope[j], buffer[i, j]);
        }
      }
    }

    /** A block up to the levels of the two windows; the make-up ramp comes after. */
    method Compress(buffer: array2<Sample>, toDb: real -> real, toAmp: real -> real, root: real -> real)
      requires Valid()
      requires buffer.Length0 > 0 && buffer.Length1 <= envelope.envelope.Length
      modifies this`inputBufferIndex, this`outputBufferIndex, this`inputGain, this`outputGain, inputBuffer, outputBuffer
      modifies envelope`lastValue, envelope.envelope, envelope.detector, buffer
      ensures Valid()
      ensures IsShaped(parameter, toDb, toAmp,
                EnvelopeOf(envelope.settings, old(envelope.lastValue), Detectors(old(Rows(buffer)))),
                old(Rows(buffer)), Rows(buffer))
      ensures parameter.autoMakeUpGain ==> InputWindow() == Latest(old(InputWindow()), Concat(old(Rows(buffer))))
      ensures parameter.autoMakeUpGain ==> OutputWindow() == Latest(old(OutputWindow()), Concat(Rows(buffer)))
      ensures parameter.autoMakeUpGain ==>
        inputGain == Rms(root, InputWindow()) && outputGain == Rms(root, OutputWindow())
      ensures !parameter.autoMakeUpGain ==>
        InputWindow() == old(InputWindow()) && OutputWindow() == old(OutputWindow())
        && inputGain == old(inputGain) && outputGain == old(outputGain)
      ensures old(inputBufferIndex == outputBufferIndex) ==> inputBufferIndex == outputBufferIndex
    {
      ghost var rows := Rows(buffer);
      envelope.ProcessBlock(buffer);
      if parameter.autoMakeUpGain {
        Measure(buffer, true, root);
      }
      Shape(buffer, toDb, toAmp);
      ConcatLength(rows, Rows(buffer));
      if parameter.autoMakeUpGain {
        Measure(buffer, false, root);
      }
    }
  }

  lemma WholeBlocks(rate: nat, block: nat)
    requires 0 < block <= rate
    ensures (rate / block * block) % block == 0
    ensures rate - block < rate / block * block <= rate
    ensures 0 < rate / block * block
  {
    DivModUnique(rate / block * block, block, rate / block, 0);
  }
}
