/**
 Launching and ageing of grains (modules/RnboExport/rnbo_granular.cpp:235-339, 1174-1261, 1543-1561): a counter
 decides when, a cursor decides where, and a table of 6 values for each of 100 slots keeps phase, size, position and
 pitch.

 Reading the table gives 0 for every slot but the first, so only slot 0 ever ages and is heard.
 */
module Grains {
  import opened Arithmetic

  const SLOTS: nat := 100

  // ---- wrap ----

  function Trunc(x: real): int {
    if x >= 0.0 then x.Floor else -((-x).Floor)
  }

  function Wrap(x: real, low: real, high: real): real {
    if low == high then low
    else if low > high then WrapInto(x, high, low)
    else WrapInto(x, low, high)
  }

  function WrapInto(x: real, lo: real, hi: real): real
    requires lo < hi
  {
    var range := hi - lo;
    if lo <= x < hi then x
    else if range <= 0.000000001 then lo
    else
      var result := x - range * Wraps(x, lo, range) as real;
      if result >= hi then result - range else result
  }

  lemma TruncBracket(q: real)
    ensures var n := Trunc(q) - (if q < 0.0 then 1 else 0);
      if q < 0.0 then n as real < q <= n as real + 1.0 else n as real <= q < n as real + 1.0
  {
  }

  /** The number of ranges that wrapping subtracts before its last correction. */
  function Wraps(x: real, lo: real, range: real): int
    requires range != 0.0
  {
    Trunc((x - lo) / range) - (if x < lo then 1 else 0)
  }

  lemma WrapsBounds(x: real, lo: real, range: real)
    requires range > 0.0
    ensures var w := x - range * Wraps(x, lo, range) as real;
      lo <= w <= lo + range && (x >= lo ==> w < lo + range)
  {
    var q := (x - lo) / range;
    assert q * range == x - lo;
    QuotientSign(x - lo, range);
    TruncBracket(q);
    WrapBounds(x, lo, range, q, Wraps(x, lo, range));
  }

  lemma WholeRangesAway(x: real, range: real, n: int)
    ensures x == (x - range * n as real) + range * n as real
    ensures x == (x - range * n as real - range) + range * (n + 1) as real
  {
  }

  lemma WrapIntoIsModulo(x: real, lo: real, hi: real) returns (k: int)
    requires hi - lo > 0.000000001
    ensures lo <= WrapInto(x, lo, hi) < hi && x == WrapInto(x, lo, hi) + (hi - lo) * k as real
  {
    k := 0;
    if !(lo <= x < hi) {
      var range := hi - lo;
      var n := Wraps(x, lo, range);
      WrapsBounds(x, lo, range);
      WholeRangesAway(x, range, n);
      k := if x - range * n as real >= hi then n + 1 else n;
    }
  }

  /** Wrapping lands in the half-open range, a whole number of ranges away, for bounds in either order. */
  lemma WrapIsModulo(x: real, low: real, high: real) returns (k: int)
    requires high - low > 0.000000001 || low - high > 0.000000001
    ensures var lo, hi := if low > high then high else low, if low > high then low else high;
      lo <= Wrap(x, low, high) < hi && x == Wrap(x, low, high) + (hi - lo) * k as real
  {
    if low > high {
      k := WrapIntoIsModulo(x, high, low);
    } else {
      k := WrapIntoIsModulo(x, low, high);
    }
  }

  lemma WrapBounds(x: real, lo: real, range: real, q: real, n: int)
    requires range > 0.0 && q * range == x - lo
    requires if x < lo then n as real < q <= n as real + 1.0 else n as real <= q < n as real + 1.0
    ensures lo <= x - range * n as real <= lo + range
    ensures x >= lo ==> x - range * n as real < lo + range
    ensures x < lo ==> lo < x - range * n as real
  {
    var m := n as real;
    var f := q - m;
    PartOfRange(f, range);
    var w := f * range;
    assert w == x - lo - m * range;
    assert x - range * n as real == lo + w;
  }

  lemma PartOfRange(f: real, range: real)
    requires 0.0 <= f <= 1.0 && range > 0.0
    ensures 0.0 <= f * range <= range
    ensures f < 1.0 ==> f * range < range
    ensures f > 0.0 ==> f * range > 0.0
  {
    Positive(1.0 - f, range);
    Positive(f, range);
  }

  lemma Positive(a: real, b: real)
    requires a >= 0.0 && b > 0.0
    ensures a * b >= 0.0 && (a > 0.0 ==> a * b > 0.0)
  {
  }

  lemma QuotientSign(a: real, b: real)
    requires b > 0.0
    ensures a / b < 0.0 <==> a < 0.0
  {
    assert a / b * b == a;
    if a / b >= 0.0 {
      assert a / b * b >= 0.0;
    }
  }

  /** The cursor steps through 0..99 and back. */
  function NextSlot(index: nat): nat {
    if index + 1 >= SLOTS then 0 else index + 1
  }

  lemma CursorWraps(index: nat)
    requires index < SLOTS
    ensures Wrap(index as real + 1.0, 0.0, 100.0) == NextSlot(index) as real
  {
    if index == 99 {
      assert (index as real + 1.0 - 0.0) / 100.0 == 1.0;
      assert Trunc(1.0) == 1;
    }
  }

  // ---- one sample, on what can be observed ----

  /** Slot 0, the counter and the cursor. */
  datatype State = State(count: real, index: nat, phase: real, size: real, position: real, pitch: real)

  /** This sample's parameters: launch interval and grain size in samples, pitch ratio less one, position in samples. */
  datatype Params = Params(limit: real, size: real, pitch: real, position: real)

  datatype Heard = Silent | Tap(delay: real)

  const IDLE: State := State(0.0, 0, 0.0, 0.0, 0.0, 0.0)

  function NextCount(count: real, limit: real): real {
    if limit != 0.0 && count + 1.0 >= limit then 0.0 else count + 1.0
  }

  predicate Launches(s: State, p: Params) {
    NextCount(s.count, p.limit) == 1.0 && !(s.index == 0 && s.phase != 0.0)
  }

  /** The launch writes size and pitch to the cursor's slot, moves the cursor, and writes the position to the next
      slot. */
  function Launched(s: State, p: Params): State {
    if !Launches(s, p) then s.(count := NextCount(s.count, p.limit))
    else
      var here, next := s.index == 0, NextSlot(s.index);
      State(NextCount(s.count, p.limit), next,
            if here then 1.0 else s.phase, if here then p.size else s.size,
            if next == 0 then p.position else s.position, if here then p.pitch else s.pitch)
  }

  function Aged(s: State): State {
    if s.phase == 0.0 then s
    else if s.phase < s.size then s.(phase := s.phase + 1.0)
    else s.(phase := 0.0)
  }

  function HeardNow(s: State): Heard {
    if s.phase != 0.0 && s.phase < s.size then Tap(s.position - s.phase * s.pitch) else Silent
  }

  function Tick(s: State, p: Params): State {
    Aged(Launched(s, p))
  }

  function Run(s: State, ps: seq<Params>): State
    decreases |ps|
  {
    if ps == [] then s else Tick(Run(s, ps[..|ps| - 1]), ps[|ps| - 1])
  }

  /** What is heard in sample number j. */
  function HeardAt(s: State, ps: seq<Params>, j: nat): Heard
    requires j < |ps|
  {
    HeardNow(Launched(Run(s, ps[..j]), ps[j]))
  }

  // ---- the counter ----

  function Ceil(x: real): int {
    -((-x).Floor)
  }

  function CountAfter(k: nat, limit: real): real {
    if k == 0 then 0.0 else NextCount(CountAfter(k - 1, limit), limit)
  }

  /** For a positive constant limit the count is the step number modulo the limit rounded up. */
  lemma {:induction false} CountIsModulo(k: nat, limit: real)
    requires limit > 0.0
    ensures CountAfter(k, limit) == (k % Ceil(limit)) as real
  {
    if k > 0 {
      CountIsModulo(k - 1, limit);
      ModuloStep(k, Ceil(limit));
    }
  }

  lemma ModuloStep(k: nat, c: nat)
    requires k > 0 && c > 0
    ensures k % c == if (k - 1) % c + 1 < c then (k - 1) % c + 1 else 0
  {
    var q, r := (k - 1) / c, (k - 1) % c;
    assert k - 1 == q * c + r;
    if r + 1 < c {
      DivModUnique(k, c, q, r + 1);
    } else {
      assert (q + 1) * c == q * c + c;
      DivModUnique(k, c, q + 1, 0);
    }
  }

  lemma {:induction false} CountWithoutLimit(k: nat, limit: real)
    ensures limit == 0.0 ==> CountAfter(k, limit) == k as real
    ensures limit < 0.0 ==> CountAfter(k, limit) == 0.0
  {
    if k > 0 {
      CountWithoutLimit(k - 1, limit);
    }
  }

  /** Exactly when the launch condition holds, for every constant limit: beyond 1 at the steps congruent to 1 modulo the
      limit rounded up, at 0 once, otherwise never. */
  lemma LaunchSteps(k: nat, limit: real)
    requires k > 0
    ensures CountAfter(k, limit) == 1.0 <==>
      (limit > 1.0 && k % Ceil(limit) == 1) || (limit == 0.0 && k == 1)
  {
    CountWithoutLimit(k, limit);
    if limit > 0.0 {
      CountIsModulo(k, limit);
    }
  }

  /** In any run, whatever the other parameters do, the counter only depends on the limit. */
  lemma {:induction false} RunCounts(s: State, ps: seq<Params>, limit: real)
    requires s.count == 0.0 && forall i :: 0 <= i < |ps| ==> ps[i].limit == limit
    ensures Run(s, ps).count == CountAfter(|ps|, limit)
    decreases |ps|
  {
    if ps != [] {
      RunCounts(s, ps[..|ps| - 1], limit);
    }
  }

  // ---- what every run keeps ----

  /** The cursor is a slot number; the phase of slot 0 is a whole number, 0 when idle, and never runs past its size. */
  ghost predicate Inv(s: State) {
    s.index < SLOTS && s.phase >= 0.0 && s.phase.Floor as real == s.phase && (s.phase > 1.0 ==> s.phase < s.size + 1.0)
  }

  lemma {:induction false} RunKeepsInv(s: State, ps: seq<Params>)
    requires Inv(s)
    ensures Inv(Run(s, ps))
    decreases |ps|
  {
    if ps != [] {
      RunKeepsInv(s, ps[..|ps| - 1]);
      TickKeepsInv(Run(s, ps[..|ps| - 1]), ps[|ps| - 1]);
    }
  }

  lemma TickKeepsInv(s: State, p: Params)
    requires Inv(s)
    ensures Inv(Launched(s, p)) && Inv(Tick(s, p))
  {
    assert Inv(Launched(s, p));
    AgedKeepsInv(Launched(s, p));
  }

  lemma AgedKeepsInv(s: State)
    requires Inv(s)
    ensures Inv(Aged(s))
  {
    assert (s.phase + 1.0).Floor == s.phase.Floor + 1;
  }

  /** Slot 0 is relaunched only when idle, and its position comes from the launch in slot 99, never from its own. */
  lemma SlotZeroUpdates(s: State, p: Params)
    requires Inv(s)
    ensures var t := Launched(s, p);
      && (t.size != s.size || t.pitch != s.pitch ==> s.phase == 0.0 && s.index == 0 && t.phase == 1.0)
      && (t.position != s.position ==> s.index == 99 && t.phase == s.phase)
  {
  }

  /** Samples a grain of size s is heard. */
  function Life(size: real): nat {
    if size <= 1.0 then 0 else Ceil(size) - 1
  }

  /** A grain launched in slot 0 is in phase j + 1 after j samples of its life, then the slot is free. */
  lemma {:induction false} PhaseDuringLife(s: State, ps: seq<Params>, j: nat)
    requires |ps| > 0 && Inv(s) && Launches(s, ps[0]) && s.index == 0
    requires 1 <= j <= |ps| && j <= Life(ps[0].size) + 1
    ensures var t := Run(s, ps[..j]);
      if j <= Life(ps[0].size) then t.phase == (j + 1) as real && t.size == ps[0].size && t.pitch == ps[0].pitch
      else t.phase == 0.0
    decreases j
  {
    assert ps[..j][..j - 1] == ps[..j - 1];
    assert Run(s, ps[..j]) == Tick(Run(s, ps[..j - 1]), ps[j - 1]);
    if j == 1 {
      assert ps[..0] == [];
    } else {
      PhaseDuringLife(s, ps, j - 1);
    }
  }

  /**
   Grain life. A grain launched in slot 0 with size s is heard in exactly ceil(s) - 1 consecutive samples, the launching
   one first (in none when s is at most 1), and the slot is free in the sample after, whatever the parameters do
   meanwhile.
   */
  lemma {:induction false} GrainLife(s: State, ps: seq<Params>)
    requires |ps| > 0 && Inv(s) && Launches(s, ps[0]) && s.index == 0
    requires |ps| == Life(ps[0].size) + 1
    ensures forall j :: 0 <= j < |ps| ==> (HeardAt(s, ps, j).Tap? <==> j < Life(ps[0].size))
    ensures Run(s, ps).phase == 0.0
  {
    var life := Life(ps[0].size);
    forall j | 0 <= j < |ps|
      ensures HeardAt(s, ps, j).Tap? <==> j < life
    {
      if j == 0 {
        assert ps[..0] == [];
      } else {
        PhaseDuringLife(s, ps, j);
      }
    }
    PhaseDuringLife(s, ps, |ps|);
    assert ps[..|ps|] == ps;
  }

  // ---- where a grain reads ----

  /** Sample k launches slot 99, whose position goes to slot 0. */
  ghost predicate Places(s: State, ps: seq<Params>, k: nat)
    requires k < |ps|
  {
    Launches(Run(s, ps[..k]), ps[k]) && Run(s, ps[..k]).index == 99
  }

  lemma {:induction false} TickPosition(s: State, ps: seq<Params>, k: nat)
    requires Inv(s) && k < |ps|
    ensures Run(s, ps[..k + 1]).position == if Places(s, ps, k) then ps[k].position else Run(s, ps[..k]).position
  {
    assert ps[..k + 1][..k] == ps[..k];
    RunKeepsInv(s, ps[..k]);
  }

  /** As long as slot 99 is not launched the position of slot 0 stays. */
  lemma {:induction false} PositionStays(s: State, ps: seq<Params>, k: nat, n: nat)
    requires Inv(s) && k <= n <= |ps| && forall i :: k <= i < n ==> !Places(s, ps, i)
    ensures Run(s, ps[..n]).position == Run(s, ps[..k]).position
    decreases n
  {
    if k < n {
      PositionStays(s, ps, k, n - 1);
      TickPosition(s, ps, n - 1);
    }
  }

  /** The position of slot 0 is that of the last launch in slot 99. */
  lemma PositionIsFromSlot99(s: State, ps: seq<Params>, k: nat)
    requires Inv(s) && k < |ps| && Places(s, ps, k) && forall i :: k < i < |ps| ==> !Places(s, ps, i)
    ensures Run(s, ps).position == ps[k].position
  {
    TickPosition(s, ps, k);
    PositionStays(s, ps, k + 1, |ps|);
    assert ps[..|ps|] == ps;
  }

  /** In its sample number j a grain is heard at the position less j + 1 times the pitch it was launched with. */
  lemma {:induction false} GrainReads(s: State, ps: seq<Params>, j: nat)
    requires |ps| > 0 && Inv(s) && Launches(s, ps[0]) && s.index == 0
    requires j < |ps| && j < Life(ps[0].size)
    ensures HeardAt(s, ps, j) == Tap(Run(s, ps[..j + 1]).position - (j + 1) as real * ps[0].pitch)
  {
    assert ps[..j + 1][..j] == ps[..j];
    if j == 0 {
      assert ps[..0] == [];
    } else {
      PhaseDuringLife(s, ps, j);
    }
  }

  /** From one sample to the next the point in the past at which a grain reads moves on by 1 + pitch, the ratio of the
      pitches, unless its position is replaced. */
  lemma GrainSpeed(s: State, ps: seq<Params>, j: nat)
    requires |ps| > 0 && Inv(s) && Launches(s, ps[0]) && s.index == 0
    requires j + 1 < |ps| && j + 1 < Life(ps[0].size) && !Places(s, ps, j + 1)
    ensures HeardAt(s, ps, j).Tap? && HeardAt(s, ps, j + 1).Tap?
    ensures ((j + 1) as real - HeardAt(s, ps, j + 1).delay) - (j as real - HeardAt(s, ps, j).delay) == 1.0 + ps[0].pitch
  {
    GrainReads(s, ps, j);
    GrainReads(s, ps, j + 1);
    TickPosition(s, ps, j + 1);
    assert (j + 2) as real * ps[0].pitch == (j + 1) as real * ps[0].pitch + ps[0].pitch;
  }

  // ---- what is heard over time ----

  /** Slot 0 comes round after 100 launches, but not before its grain has ended: the distance of its launches in
      samples. */
  function Period(p: Params): nat
    requires p.limit > 1.0
  {
    Ceil(p.limit) * Turns(p)
  }

  /** The same in multiples of the launch interval. */
  function Turns(p: Params): nat
    requires p.limit > 1.0
  {
    var life := CeilDiv(Life(p.size) + 1, Ceil(p.limit));
    if life < SLOTS then SLOTS else life
  }

  /** The state r samples after slot 0 was ready to be launched. */
  ghost predicate InPeriod(s: State, p: Params, r: nat)
    requires p.limit > 1.0
  {
    var due := CeilDiv(r, Ceil(p.limit));
    && s.count == (r % Ceil(p.limit)) as real
    && s.index == (if due < SLOTS then due else 0)
    && s.phase == (if 1 <= r <= Life(p.size) then (r + 1) as real else 0.0)
    && (r > 0 ==> s.size == p.size && s.pitch == p.pitch)
  }

  lemma DueNow(r: nat, c: nat)
    requires c > 1
    ensures CeilDiv(r + 1, c) == if r % c == 0 then CeilDiv(r, c) + 1 else CeilDiv(r, c)
    ensures r % c == 0 ==> r == c * CeilDiv(r, c)
    ensures (r + 1) % c == if r % c + 1 < c then r % c + 1 else 0
  {
    var q, k := r / c, r % c;
    assert r == q * c + k;
    assert (q + 1) * c == q * c + c;
    DivModUnique(r + 1 + c - 1, c, q + 1, k);
    if k == 0 {
      DivModUnique(r + c - 1, c, q, c - 1);
    } else {
      DivModUnique(r + c - 1, c, q + 1, k - 1);
    }
    ModuloStep(r + 1, c);
  }

  /** Slot 0 is due at once, and while it waits its grain is still alive. */
  lemma WaitingIsAlive(p: Params, r: nat)
    requires p.limit > 1.0 && r < Period(p) && r % Ceil(p.limit) == 0
    ensures CeilDiv(r, Ceil(p.limit)) >= SLOTS ==> r <= Life(p.size)
    ensures CeilDiv(r, Ceil(p.limit)) == 0 <==> r == 0
  {
    var c := Ceil(p.limit);
    DueNow(r, c);
    MulOrder(c, CeilDiv(r, c), Turns(p));
    CeilingMeaning(Life(p.size) + 1, c, CeilDiv(r, c));
  }

  lemma CountsOn(k: nat, limit: real)
    requires limit > 1.0 && k < Ceil(limit)
    ensures NextCount(k as real, limit) == (if k + 1 < Ceil(limit) then k + 1 else 0) as real
    ensures NextCount(k as real, limit) == 1.0 <==> k == 0
  {
  }

  lemma LaunchesWhenDue(s: State, p: Params, k: nat, due: nat, r: nat)
    requires p.limit > 1.0 && k < Ceil(p.limit) && s.count == k as real
    requires s.index == (if due < SLOTS then due else 0)
    requires s.phase == (if 1 <= r <= Life(p.size) then (r + 1) as real else 0.0)
    requires k == 0 ==> (due == 0 <==> r == 0) && (due >= SLOTS ==> r <= Life(p.size))
    ensures Launches(s, p) <==> k == 0 && due < SLOTS
    ensures Launches(s, p) && s.index == 0 <==> k == 0 && r == 0
  {
    CountsOn(k, p.limit);
  }

  lemma LaunchInPeriod(s: State, p: Params, r: nat)
    requires p.limit > 1.0 && r < Period(p) && InPeriod(s, p, r)
    ensures Launches(s, p) && s.index == 0 <==> r == 0
    ensures Launches(s, p) <==> r % Ceil(p.limit) == 0 && CeilDiv(r, Ceil(p.limit)) < SLOTS
  {
    var k, due := r % Ceil(p.limit), CeilDiv(r, Ceil(p.limit));
    if k == 0 {
      WaitingIsAlive(p, r);
    }
    DivModUnique(0, Ceil(p.limit), 0, 0);
    LaunchesWhenDue(s, p, k, due, r);
  }

  lemma PeriodEnds(p: Params)
    requires p.limit > 1.0
    ensures Period(p) > Life(p.size) && Period(p) > 0
    ensures CeilDiv(Period(p), Ceil(p.limit)) >= SLOTS && Period(p) % Ceil(p.limit) == 0
  {
    var c := Ceil(p.limit);
    CeilingMeaning(Life(p.size) + 1, c, 0);
    MulMonotone(c, CeilDiv(Life(p.size) + 1, c), Turns(p));
    DivModUnique(Period(p), c, Turns(p), 0);
    DueNow(Period(p), c);
    MulOrder(c, CeilDiv(Period(p), c), Turns(p));
    MulOrder(c, Turns(p), CeilDiv(Period(p), c));
  }

  lemma TickInPeriod(s: State, p: Params, r: nat)
    requires p.limit > 1.0 && r < Period(p) && InPeriod(s, p, r)
    ensures InPeriod(Tick(s, p), p, r + 1)
  {
    DueNow(r, Ceil(p.limit));
    CountsOn(r % Ceil(p.limit), p.limit);
    LaunchInPeriod(s, p, r);
  }

  lemma StartsInPeriod(s: State, p: Params)
    requires p.limit > 1.0 && s.count == 0.0 && s.index == 0 && s.phase == 0.0
    ensures InPeriod(s, p, 0)
  {
    var c := Ceil(p.limit);
    DivModUnique(0, c, 0, 0);
    DivModUnique(c - 1, c, 0, c - 1);
  }

  lemma PeriodRestarts(s: State, p: Params)
    requires p.limit > 1.0 && InPeriod(s, p, Period(p))
    ensures InPeriod(s, p, 0)
  {
    PeriodEnds(p);
    StartsInPeriod(s, p);
  }

  function Constantly(p: Params, n: nat): (ps: seq<Params>)
    ensures |ps| == n && forall i :: 0 <= i < n ==> ps[i] == p
  {
    seq(n, _ => p)
  }

  lemma {:induction false} RunInPeriod(s: State, p: Params, j: nat)
    requires p.limit > 1.0 && s.count == 0.0 && s.index == 0 && s.phase == 0.0
    ensures Period(p) > 0 && InPeriod(Run(s, Constantly(p, j)), p, j % Period(p))
  {
    PeriodEnds(p);
    if j == 0 {
      StartsInPeriod(s, p);
    } else {
      RunInPeriod(s, p, j - 1);
      var before, r := Run(s, Constantly(p, j - 1)), (j - 1) % Period(p);
      assert Constantly(p, j)[..j - 1] == Constantly(p, j - 1);
      TickInPeriod(before, p, r);
      ModuloStep(j, Period(p));
      if r + 1 == Period(p) {
        PeriodRestarts(Tick(before, p), p);
      }
    }
  }

  /** The position arrives with the first launch in slot 99. */
  function PositionAt(s: State, p: Params, j: nat): real {
    if j < Ceil(p.limit) * 99 then s.position else p.position
  }

  lemma {:induction false} PositionInPeriod(s: State, p: Params, j: nat)
    requires p.limit > 1.0 && s.count == 0.0 && s.index == 0 && s.phase == 0.0
    ensures var t := Launched(Run(s, Constantly(p, j)), p);
      t.position == PositionAt(s, p, j)
    decreases j
  {
    PeriodEnds(p);
    RunInPeriod(s, p, j);
    LaunchInPeriod(Run(s, Constantly(p, j)), p, j % Period(p));
    SlotOfSample(p, j);
    if j > 0 {
      assert Constantly(p, j)[..j - 1] == Constantly(p, j - 1);
      PositionInPeriod(s, p, j - 1);
    }
  }

  /** No sample before that launches slot 99, and that one does. */
  lemma SlotOfSample(p: Params, j: nat)
    requires p.limit > 1.0 && Period(p) > 0
    ensures var c, r := Ceil(p.limit), j % Period(p);
      && (j < c * 99 ==> !(r % c == 0 && CeilDiv(r, c) == 99))
      && (j == c * 99 ==> r % c == 0 && CeilDiv(r, c) == 99)
  {
    var c := Ceil(p.limit);
    MulMonotone(c, 100, Turns(p));
    if j <= c * 99 {
      DivModUnique(j, Period(p), 0, j);
      DueNow(j, c);
      if j == c * 99 {
        DivModUnique(j, c, 99, 0);
        MulOrder(c, CeilDiv(j, c), 99);
        MulOrder(c, 99, CeilDiv(j, c));
      }
    }
  }

  /** Sample r of a grain: the position less the pitch for every sample so far, or nothing once it has ended. */
  predicate IsSampleOfGrain(h: Heard, p: Params, r: nat, position: real) {
    h == if r >= Life(p.size) then Silent else Tap(position - (r + 1) as real * p.pitch)
  }

  lemma HeardInPeriod(s: State, p: Params, r: nat)
    requires p.limit > 1.0 && r < Period(p) && InPeriod(s, p, r)
    ensures Launches(s, p) && s.index == 0 <==> r == 0
    ensures IsSampleOfGrain(HeardNow(Launched(s, p)), p, r, Launched(s, p).position)
  {
    LaunchInPeriod(s, p, r);
    LifeAndSize(p.size, r);
  }

  lemma LifeAndSize(size: real, r: nat)
    ensures r < Life(size) <==> (r + 1) as real < size
  {
  }

  /**
   What is heard for constant parameters, however long: slot 0 is launched once every period, and heard for the life of
   its grain from there, at the stored position less the pitch for every sample. The position is the one given from the
   first launch in slot 99 on. The other 99 slots are never heard.
   */
  lemma {:induction false} HeardPeriodically(s: State, p: Params, j: nat)
    requires p.limit > 1.0 && s.count == 0.0 && s.index == 0 && s.phase == 0.0
    ensures Period(p) > 0
    ensures var t, r := Run(s, Constantly(p, j)), j % Period(p);
      && (Launches(t, p) && t.index == 0 <==> r == 0)
      && IsSampleOfGrain(HeardNow(Launched(t, p)), p, r, PositionAt(s, p, j))
  {
    RunInPeriod(s, p, j);
    HeardInPeriod(Run(s, Constantly(p, j)), p, j % Period(p));
    PositionInPeriod(s, p, j);
  }

  /** Because the program adds the distance that a faster grain catches up to the position, no delay is negative. */
  lemma {:induction false} NeverAheadOfTheInput(s: State, p: Params, j: nat)
    requires p.limit > 1.0 && s.count == 0.0 && s.index == 0 && s.phase == 0.0
    requires p.position >= 0.0 && p.position >= p.size * p.pitch && j >= Ceil(p.limit) * 99
    ensures var h := HeardNow(Launched(Run(s, Constantly(p, j)), p)); h.Tap? ==> h.delay >= 0.0
  {
    HeardPeriodically(s, p, j);
    LifeAndSize(p.size, j % Period(p));
    PartOfTheWay((j % Period(p) + 1) as real, p.size, p.pitch, p.position);
  }

  lemma PartOfTheWay(k: real, size: real, pitch: real, position: real)
    requires 0.0 <= k && position >= 0.0 && position >= size * pitch
    ensures k <= size ==> position - k * pitch >= 0.0
  {
    if pitch >= 0.0 {
      assert k <= size ==> (size - k) * pitch >= 0.0;
    } else {
      assert k * (-pitch) >= 0.0;
    }
  }

  // ---- the object ----

  class Granulator {
    const data: array2<real>
    var count: real
    var hisIndex: real

    ghost predicate Valid()
      reads this
    {
      data.Length0 == 6 && data.Length1 == SLOTS && 0.0 <= hisIndex < 100.0 && hisIndex.Floor as real == hisIndex
    }

    ghost function View(): State
      requires Valid()
      reads this, data
    {
      State(count, hisIndex.Floor, data[0, 0], data[1, 0], data[2, 0], data[5, 0])
    }

    constructor ()
      ensures Valid() && View() == IDLE
    {
      data := new real[6, 100]((i, j) => 0.0);
      count, hisIndex := 0.0, 0.0;
    }

    /** A read names a row and a slot, but every slot other than the first reads as 0. */
    function Peek(sampleIndex: real, channelOffset: nat): real
      requires Valid()
      reads this, data
    {
      if sampleIndex < 0.0 || sampleIndex >= data.Length0 as real then 0.0
      else if channelOffset >= 1 then 0.0
      else data[sampleIndex.Floor, channelOffset]
    }

    /** Writes one cell, mixed with what was there when overdubbing, or nothing outside the table. */
    method Poke(value: real, sampleIndex: real, channel: int, overdub: real)
      requires Valid()
      modifies data
      ensures forall i, j :: 0 <= i < 6 && 0 <= j < SLOTS ==>
        data[i, j] == if 0.0 <= sampleIndex && i == sampleIndex.Floor && j == channel
                      then value * (1.0 - overdub) + old(data[i, j]) * overdub else old(data[i, j])
    {
      var v := value;
      if 0.0 <= sampleIndex < data.Length0 as real && 0 <= channel < data.Length1 {
        if overdub != 0.0 {
          var currentValue := data[sampleIndex.Floor, channel];
          v := v * (1.0 - overdub) + currentValue * overdub;
        }
        data[sampleIndex.Floor, channel] := v;
      }
    }

    method CounterNext(limit: real) returns (c: real)
      modifies this`count
      ensures c == count == NextCount(old(count), limit)
      ensures c == if limit != 0.0 && old(count) + 1.0 >= limit then 0.0 else old(count) + 1.0
    {
      count := count + 1.0;
      if limit != 0.0 {
        if count >= limit {
          count := 0.0;
        }
      }
      c := count;
    }

    method Launch(p: Params)
      requires Valid()
      modifies this, data
      ensures Valid() && View() == Launched(old(View()), p)
    {
      var mCout := CounterNext(p.limit);
      if mCout == 1.0 {
        if Peek(0.0, hisIndex.Floor) == 0.0 {
          Poke(1.0, 0.0, hisIndex.Floor, 0.0);
          Poke(p.size, 1.0, hisIndex.Floor, 0.0);
          Poke(p.pitch, 5.0, hisIndex.Floor, 0.0);
          CursorWraps(hisIndex.Floor);
          hisIndex := Wrap(hisIndex + 1.0, 0.0, 100.0);
          Poke(p.position, 2.0, hisIndex.Floor, 0.0);
        }
      }
    }

    /** Ages every slot; `heard` is the tap of the last slot that plays. */
    method Age() returns (heard: Heard)
      requires Valid()
      modifies data
      ensures View() == Aged(old(View())) && heard == HeardNow(old(View()))
    {
      heard := Silent;
      var i := 0.0;
      ghost var k := 0;
      while i < 100.0
        invariant 0 <= k <= 100 && i == k as real && Valid()
        invariant k == 0 ==> View() == old(View()) && heard == Silent
        invariant k > 0 ==> View() == Aged(old(View())) && heard == HeardNow(old(View()))
        decreases 100 - k
      {
        var pCout := Peek(0.0, i.Floor);
        if pCout != 0.0 {
          var s := Peek(1.0, i.Floor);
          if pCout < s {
            heard := Tap(Peek(2.0, i.Floor) - pCout * Peek(5.0, i.Floor));
            Poke(pCout + 1.0, 0.0, i.Floor, 0.0);
          } else {
            Poke(0.0, 0.0, i.Floor, 0.0);
          }
        }
        i := i + 1.0;
        k := k + 1;
      }
    }

    /** The grain part of one sample. */
    method Perform(p: Params) returns (heard: Heard)
      requires Valid()
      modifies this, data
      ensures Valid() && View() == Tick(old(View()), p)
      ensures heard == HeardNow(Launched(old(View()), p))
    {
      Launch(p);
      heard := Age();
    }
  }
}
