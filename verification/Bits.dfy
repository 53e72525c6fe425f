/** Bitwise arithmetic on naturals, bit by bit, and the rounding to a power of two that rests on it
    (modules/RnboExport/rnbo/common/RNBO_AudioSignal.h:141-152). */
module Bits {
  import opened Arithmetic

  function Pow2(k: nat): (r: nat)
    ensures r >= 1
  {
    if k == 0 then 1 else 2 * Pow2(k - 1)
  }

  function And(x: nat, y: nat): nat {
    if x == 0 || y == 0 then 0 else (if x % 2 == 1 && y % 2 == 1 then 1 else 0) + 2 * And(x / 2, y / 2)
  }

  function Or(x: nat, y: nat): nat {
    if x == 0 then y else if y == 0 then x else (if x % 2 == 1 || y % 2 == 1 then 1 else 0) + 2 * Or(x / 2, y / 2)
  }

  function ShiftRight(x: nat, k: nat): nat
    decreases k
  {
    if k == 0 then x else ShiftRight(x / 2, k - 1)
  }

  /** The all-ones mask of a power of two acts as the remainder. */
  lemma {:induction false} MaskIsModulo(x: nat, k: nat)
    ensures And(x, Pow2(k) - 1) == x % Pow2(k)
    decreases k
  {
    if k > 0 {
      MaskIsModulo(x / 2, k - 1);
      MaskStep(x, Pow2(k - 1));
    }
  }

  lemma MaskStep(x: nat, p: nat)
    requires p > 0 && And(x / 2, p - 1) == x / 2 % p
    ensures And(x, 2 * p - 1) == x % (2 * p)
  {
    DoubleModulo(x, p);
    if x > 0 {
      LowBit(x, p);
    } else {
      assert And(0, 2 * p - 1) == 0;
    }
  }

  lemma LowBit(x: nat, p: nat)
    requires p > 0 && x > 0
    ensures And(x, 2 * p - 1) == x % 2 + 2 * And(x / 2, p - 1)
  {
    assert (2 * p - 1) / 2 == p - 1 && (2 * p - 1) % 2 == 1;
  }

  lemma DoubleModulo(x: nat, p: nat)
    requires p > 0
    ensures x % (2 * p) == x % 2 + 2 * (x / 2 % p)
  {
    var q, r := x / 2 / p, x / 2 % p;
    assert x / 2 == q * p + r;
    assert x == q * (2 * p) + (x % 2 + 2 * r);
    DivModUnique(x, 2 * p, q, x % 2 + 2 * r);
  }

  // ---- the shift-or cascade ----

  lemma {:induction false} ShiftsAdd(x: nat, j: nat, k: nat)
    ensures ShiftRight(ShiftRight(x, j), k) == ShiftRight(x, j + k)
    decreases j
  {
    if j > 0 {
      ShiftsAdd(x / 2, j - 1, k);
    }
  }

  lemma {:induction false} OrShifts(x: nat, y: nat, k: nat)
    ensures ShiftRight(Or(x, y), k) == Or(ShiftRight(x, k), ShiftRight(y, k))
    decreases k
  {
    if k > 0 {
      assert Or(x, y) / 2 == Or(x / 2, y / 2);
      OrShifts(x / 2, y / 2, k - 1);
    }
  }

  lemma {:induction false} OrBound(x: nat, y: nat, k: nat)
    requires x < Pow2(k) && y < Pow2(k)
    ensures Or(x, y) < Pow2(k)
    decreases k
  {
    if k > 0 {
      OrBound(x / 2, y / 2, k - 1);
    }
  }

  lemma {:induction false} ShiftBound(x: nat, j: nat, k: nat)
    requires x < Pow2(j + k)
    ensures ShiftRight(x, j) < Pow2(k)
    decreases j
  {
    if j > 0 {
      ShiftBound(x / 2, j - 1, k);
    }
  }

  /** x, below 2^len, has its top t of len bits set. */
  predicate TopOnes(x: nat, len: nat, t: nat) {
    t <= len && x < Pow2(len) && ShiftRight(x, len - t) == Pow2(t) - 1
  }

  function Min(a: nat, b: nat): nat {
    if a < b then a else b
  }

  /** The top m of an all-ones value's bits are all ones. */
  lemma {:induction false} OnesShift(t: nat, j: nat)
    requires j <= t
    ensures ShiftRight(Pow2(t) - 1, j) == Pow2(t - j) - 1
    decreases j
  {
    if j > 0 {
      assert (Pow2(t) - 1) / 2 == Pow2(t - 1) - 1;
      OnesShift(t - 1, j - 1);
    }
  }

  /** Filling the low m bits of a value whose other bits are t ones. */
  lemma {:induction false} OrFills(x: nat, m: nat, t: nat)
    requires ShiftRight(x, m) == Pow2(t) - 1
    ensures Or(x, Pow2(m) - 1) == Pow2(m + t) - 1
    decreases m
  {
    if m > 0 {
      var y := Pow2(m) - 1;
      assert y / 2 == Pow2(m - 1) - 1 && y % 2 == 1;
      OrFills(x / 2, m - 1, t);
    }
  }

  /** One line of the cascade doubles the run of ones at the top. */
  lemma CascadeStep(x: nat, len: nat, s: nat)
    requires s > 0 && TopOnes(x, len, Min(s, len))
    ensures TopOnes(Or(x, ShiftRight(x, s)), len, Min(2 * s, len))
  {
    if s >= len {
      assert x == Pow2(len) - 1;
      ShiftToZero(x, s, len);
    } else {
      CascadeGrows(x, len, s, Min(2 * s, len) - s);
    }
  }

  lemma CascadeGrows(x: nat, len: nat, s: nat, m: nat)
    requires m <= s && s + m <= len && TopOnes(x, len, s)
    ensures TopOnes(Or(x, ShiftRight(x, s)), len, s + m)
  {
    var j := len - s - m;
    var a := ShiftRight(x, j);
    ShiftsAdd(x, j, m);
    ShiftedTop(a, s, m);
    ShiftsAdd(x, s, j);
    ShiftsAdd(x, j, s);
    OrShifts(x, ShiftRight(x, s), j);
    OrFills(a, m, s);
    ShiftShrinks(x, s);
    OrBound(x, ShiftRight(x, s), len);
  }

  lemma {:induction false} ShiftShrinks(x: nat, k: nat)
    ensures ShiftRight(x, k) <= x
    decreases k
  {
    if k > 0 {
      ShiftShrinks(x / 2, k - 1);
    }
  }

  lemma ShiftToZero(x: nat, s: nat, len: nat)
    requires x < Pow2(len) && len <= s
    ensures ShiftRight(x, s) == 0
  {
    ShiftsAdd(x, len, s - len);
    ShiftBound(x, len, 0);
    ShiftShrinks(0, s - len);
  }

  /** If the bits of a above the low m are s ones and m <= s, then a shifted by s is m ones. */
  lemma ShiftedTop(a: nat, s: nat, m: nat)
    requires m <= s && ShiftRight(a, m) == Pow2(s) - 1
    ensures ShiftRight(a, s) == Pow2(m) - 1
  {
    var k := s - m;
    ShiftsAdd(a, m, k);
    OnesShift(s, k);
    assert s - k == m && m + k == s;
  }

  /** Every value has a length: its top bit is one. */
  lemma {:induction false} HasLength(x: nat) returns (len: nat)
    ensures TopOnes(x, len, Min(1, len))
    ensures len > 0 ==> x >= Pow2(len - 1)
  {
    if x == 0 {
      len := 0;
    } else {
      var l := HasLength(x / 2);
      len := l + 1;
      if l > 0 {
        assert ShiftRight(x, len - 1) == ShiftRight(x / 2, l - 1);
      }
    }
  }

  lemma {:induction false} Pow2Monotone(a: nat, b: nat)
    requires a < b
    ensures 2 * Pow2(a) <= Pow2(b)
    decreases b
  {
    if a < b - 1 {
      Pow2Monotone(a, b - 1);
    }
  }

  ghost predicate IsPowerOfTwo(r: int) {
    exists k: nat :: r == Pow2(k)
  }

  /** The 63-bit positive range holds powers of two up to 2 to the 62. */
  const LARGEST: nat := 0x4000_0000_0000_0000

  lemma LargestIsPower()
    ensures LARGEST == Pow2(62)
  {
    assert Pow2(3) == 8;
    PowersMultiply(3, 1);
    PowersMultiply(4, 3);
    PowersMultiply(7, 1);
    PowersMultiply(8, 7);
    PowersMultiply(15, 1);
    PowersMultiply(16, 15);
    PowersMultiply(31, 31);
  }

  lemma {:induction false} PowersMultiply(a: nat, b: nat)
    ensures Pow2(a + b) == Pow2(a) * Pow2(b)
    decreases a
  {
    if a > 0 {
      PowersMultiply(a - 1, b);
      assert Pow2(a) * Pow2(b) == 2 * (Pow2(a - 1) * Pow2(b));
    }
  }

  /** The least power of two not below v, for every v the signed 64-bit arithmetic can round. */
  method NextPowerOfTwo(v: nat) returns (r: nat)
    requires 1 <= v <= LARGEST
    ensures IsPowerOfTwo(r) && v <= r <= LARGEST
    ensures forall k: nat :: v <= Pow2(k) ==> r <= Pow2(k)
  {
    r := v - 1;
    ghost var len := HasLength(r);
    LengthFits(r, len);
    r := OrShifted(r, 1, len);
    r := OrShifted(r, 2, len);
    r := OrShifted(r, 4, len);
    r := OrShifted(r, 8, len);
    r := OrShifted(r, 16, len);
    r := OrShifted(r, 32, len);
    r := r + 1;
    LeastPower(v, len);
  }

  /** One line: v |= v >> s. */
  method OrShifted(v: nat, s: nat, ghost len: nat) returns (r: nat)
    requires s > 0 && TopOnes(v, len, Min(s, len))
    ensures TopOnes(r, len, Min(2 * s, len))
  {
    r := Or(v, ShiftRight(v, s));
    CascadeStep(v, len, s);
  }

  lemma LengthFits(x: nat, len: nat)
    requires x < LARGEST && (len > 0 ==> x >= Pow2(len - 1))
    ensures len <= 62
  {
    LargestIsPower();
    if len > 63 {
      Pow2Monotone(62, len - 1);
    }
  }

  lemma LeastPower(v: nat, len: nat)
    requires 1 <= v <= LARGEST && len <= 62 && v - 1 < Pow2(len) && (len > 0 ==> v - 1 >= Pow2(len - 1))
    ensures Pow2(len) <= LARGEST
    ensures forall k: nat :: v <= Pow2(k) ==> Pow2(len) <= Pow2(k)
  {
    LargestIsPower();
    if len < 62 {
      Pow2Monotone(len, 62);
    }
    forall k: nat | v <= Pow2(k)
      ensures Pow2(len) <= Pow2(k)
    {
      if k < len {
        if k < len - 1 {
          Pow2Monotone(k, len - 1);
        }
      } else if k > len {
        Pow2Monotone(len, k);
      }
    }
  }
}
