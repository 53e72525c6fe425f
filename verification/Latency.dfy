/** The latency the processor reports, through its single-precision arithmetic
    (source/dsp/onnx/OnnxProcessor.cpp:91-95). */
module Latency {
  import opened Arithmetic

  const TWO_TO_24: int := 16777216

  /** What is used of binary32 rounding (IEEE 754, round to nearest): a relative error of at most 2^-24 between
      2^-24 and 2^24, far from underflow and overflow, and exact integers up to 2^24. */
  ghost predicate RoundsLikeBinary32(fl: real -> real) {
    && (forall x: real :: InRange(x) ==> -x <= (fl(x) - x) * TWO_TO_24 as real <= x)
    && (forall x: real :: 0.0 <= x <= TWO_TO_24 as real && x.Floor as real == x ==> fl(x) == x)
  }

  predicate InRange(x: real) {
    1.0 <= x * TWO_TO_24 as real && x <= TWO_TO_24 as real
  }

  /** The number the host is told: as many whole blocks as hold `total` samples, less one. */
  function Reported(total: nat, n: nat): int
    requires n > 0
  {
    n * CeilDiv(total, n) - n
  }

  method CalculateLatency(fl: real -> real, total: nat, n: nat) returns (latencyInSamples: int)
    requires RoundsLikeBinary32(fl)
    requires total > 0 && n > 0 && 2 * total + 2 * n < TWO_TO_24
    ensures latencyInSamples == Reported(total, n)
  {
    var latency := fl(fl(total as real) / fl(n as real));
    RoundedLatency(fl, total, n);
    var blocks;
    if latency == fl(latency.Floor as real) {
      blocks := latency.Floor;
    } else {
      blocks := fl(latency + 1.0).Floor;
    }
    latencyInSamples := blocks * n - n;
    BlocksToSamples(total, n, blocks);
  }

  lemma BlocksToSamples(total: nat, n: nat, blocks: int)
    requires n > 0 && blocks == CeilDiv(total, n)
    ensures blocks * n - n == Reported(total, n)
  {
  }

  /** The rounded quotient is recognised as whole exactly when it is, and either branch rounds it up. */
  lemma RoundedLatency(fl: real -> real, total: nat, n: nat)
    requires RoundsLikeBinary32(fl)
    requires total > 0 && n > 0 && 2 * total + 2 * n < TWO_TO_24
    ensures fl(total as real) == total as real && fl(n as real) == n as real
    ensures RoundsUp(fl, fl(total as real / n as real), CeilDiv(total, n))
  {
    WholeIsExact(fl, total);
    WholeIsExact(fl, n);
    if total % n == 0 {
      WholeRoundsUp(fl, total, n);
    } else {
      FractionRoundsUp(fl, total, n);
    }
  }

  ghost predicate RoundsUp(fl: real -> real, q: real, up: int) {
    if q == fl(q.Floor as real) then q.Floor == up else fl(q + 1.0).Floor == up
  }

  lemma WholeRoundsUp(fl: real -> real, total: nat, n: nat)
    requires RoundsLikeBinary32(fl) && 0 < n && total <= TWO_TO_24 && total % n == 0
    ensures RoundsUp(fl, fl(total as real / n as real), CeilDiv(total, n))
  {
    DivisibleQuotient(total, n);
    WholeIsExact(fl, total / n);
  }

  lemma FractionRoundsUp(fl: real -> real, total: nat, n: nat)
    requires RoundsLikeBinary32(fl)
    requires total > 0 && n > 0 && 2 * total + 2 * n < TWO_TO_24 && total % n != 0
    ensures RoundsUp(fl, fl(total as real / n as real), CeilDiv(total, n))
  {
    RoundedQuotient(fl, total, n);
    WholeIsExact(fl, total / n);
  }

  lemma WholeIsExact(fl: real -> real, k: nat)
    requires RoundsLikeBinary32(fl)
    ensures k <= TWO_TO_24 ==> fl(k as real) == k as real && (k as real).Floor == k
  {
  }

  lemma DivisibleQuotient(total: nat, n: nat)
    requires n > 0 && total % n == 0
    ensures total as real / n as real == (total / n) as real
    ensures CeilDiv(total, n) == total / n <= total
  {
    var k := total / n;
    assert total == k * n;
    assert k as real * n as real == total as real;
    assert (total + n - 1) / n == k by {
      assert total + n - 1 == k * n + (n - 1);
      DivModUnique(total + n - 1, n, k, n - 1);
    }
    assert k * n >= k;
  }

  /** A real strictly between k and k+1 by more than rounding can move it keeps its integer part. */
  lemma RoundingStaysBetween(fl: real -> real, x: real, k: nat, margin: real)
    requires RoundsLikeBinary32(fl)
    requires InRange(x) && x <= margin * TWO_TO_24 as real
    requires k as real + margin < x < (k + 1) as real - margin
    ensures x - margin <= fl(x) <= x + margin
    ensures k as real < fl(x) < (k + 1) as real && fl(x).Floor == k
  {
  }

  /** The quotient in units of 1/n: s is one n-th. */
  lemma QuotientInSteps(total: nat, n: nat, k: nat, r: nat, s: real)
    requires n > 0 && total == k * n + r && 0 < r < n && s * n as real == 1.0
    ensures s > 0.0
    ensures total as real / n as real == total as real * s == k as real + r as real * s
    ensures k as real + s <= total as real * s <= (k + 1) as real - s
  {
    assert (k * n) as real == k as real * n as real;
    assert k as real * n as real * s == k as real * (n as real * s);
    assert total as real == k as real * n as real + r as real;
    assert (total as real * s) * n as real == total as real * (s * n as real);
    assert (r - 1) as real * s >= 0.0;
    assert (n - 1 - r) as real * s >= 0.0;
  }

  /** Both rounding errors together are less than one n-th. */
  lemma ErrorsAreSmall(total: nat, n: nat, s: real)
    requires n > 0 && s > 0.0 && s * n as real == 1.0 && 2 * total + 2 * n < TWO_TO_24
    ensures var t := TWO_TO_24 as real;
      var e1, e2 := total as real * s / t, (total as real * s + 2.0) / t;
      e1 + e2 < s && e1 * t == total as real * s && e2 * t == total as real * s + 2.0
  {
    var t := TWO_TO_24 as real;
    assert (2 * total + 2 * n) as real * s < t * s;
    assert (2 * total + 2 * n) as real * s == 2.0 * (total as real * s) + 2.0 * (s * n as real);
  }

  /** The two roundings, of the quotient and of the quotient plus one, keep the integer part. */
  lemma TwoRoundings(fl: real -> real, x: real, k: nat, s: real, e1: real, e2: real)
    requires RoundsLikeBinary32(fl) && InRange(x) && x + 2.0 <= TWO_TO_24 as real && e1 > 0.0 && e2 > 0.0 && e1 + e2 < s
    requires e1 * TWO_TO_24 as real == x && e2 * TWO_TO_24 as real == x + 2.0
    requires k as real + s <= x <= (k + 1) as real - s
    ensures k as real < fl(x) < (k + 1) as real && fl(x).Floor == k && fl(fl(x) + 1.0).Floor == k + 1
  {
    RoundingStaysBetween(fl, x, k, e1);
    RoundingStaysBetween(fl, fl(x) + 1.0, k + 1, e2);
  }

  lemma Reciprocal(n: nat) returns (s: real)
    requires n > 0
    ensures s * n as real == 1.0
  {
    s := 1.0 / n as real;
  }

  lemma RoundedQuotient(fl: real -> real, total: nat, n: nat)
    requires RoundsLikeBinary32(fl)
    requires total > 0 && n > 0 && 2 * total + 2 * n < TWO_TO_24 && total % n != 0
    ensures var q := fl(total as real / n as real); var k := total / n;
      && k as real < q < (k + 1) as real && q.Floor == k <= TWO_TO_24
      && fl(q + 1.0).Floor == k + 1 == CeilDiv(total, n)
  {
    var k, r := total / n, total % n;
    var s := Reciprocal(n);
    RoundedInSteps(fl, total, n, k, r, s);
    CeilOfRest(total, n, k, r);
  }

  lemma RoundedInSteps(fl: real -> real, total: nat, n: nat, k: nat, r: nat, s: real)
    requires RoundsLikeBinary32(fl) && n > 0 && 2 * total + 2 * n < TWO_TO_24
    requires total == k * n + r && 0 < r < n && s * n as real == 1.0
    ensures var q := fl(total as real / n as real);
      k as real < q < (k + 1) as real && q.Floor == k && fl(q + 1.0).Floor == k + 1
  {
    QuotientInSteps(total, n, k, r, s);
    ErrorsAreSmall(total, n, s);
    var t, x := TWO_TO_24 as real, total as real * s;
    TwoRoundings(fl, x, k, s, x / t, (x + 2.0) / t);
  }

  lemma CeilOfRest(total: nat, n: nat, k: nat, r: nat)
    requires n > 0 && total == k * n + r && 0 < r < n
    ensures CeilDiv(total, n) == k + 1 && k <= total
  {
    assert (k + 1) * n == k * n + n;
    DivModUnique(total + n - 1, n, k + 1, r - 1);
    MulMonotone(k, 1, n);
  }
}
