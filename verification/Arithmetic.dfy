/** Small facts of nonlinear arithmetic that several modules share. */
module Arithmetic {

  lemma MulMonotone(n: nat, a: nat, b: nat)
    requires a <= b
    ensures n * a <= n * b
  {
  }

  /** Quotient and remainder are determined by q * n + r. */
  lemma DivModUnique(a: nat, n: nat, q: nat, r: nat)
    requires n > 0 && a == q * n + r && r < n
    ensures a / n == q && a % n == r
  {
    var q', r' := a / n, a % n;
    assert a == n * q' + r';
    assert n * (q' + 1) == n * q' + n;
    assert n * (q + 1) == n * q + n;
    if q > q' {
      MulMonotone(n, q' + 1, q);
    } else if q < q' {
      MulMonotone(n, q + 1, q');
    }
  }

  lemma MulOrder(n: nat, a: nat, b: nat)
    requires n > 0
    ensures a < b <==> n * a < n * b
    ensures a < b <==> n * a <= n * b - n
  {
    if a < b {
      MulMonotone(n, a + 1, b);
    } else {
      MulMonotone(n, b, a);
    }
  }

  /** The quotient rounded up. */
  function CeilDiv(total: nat, n: nat): nat
    requires n > 0
  {
    (total + n - 1) / n
  }

  /** It is the least multiplier that reaches the total. */
  lemma CeilingMeaning(total: nat, n: nat, k: nat)
    requires n > 0
    ensures var g := CeilDiv(total, n);
      (n * k < total <==> k < g) && n * g >= total > n * g - n
  {
    var g, r := (total + n - 1) / n, (total + n - 1) % n;
    assert total + n - 1 == n * g + r;
    MulOrder(n, k, g);
  }

  lemma MulGap(n: nat, a: int, b: int)
    requires a >= b + 1
    ensures n * a >= n * b + n
  {
    var d := a - b - 1;
    MulMonotone(n, 0, d);
    MulSplits(n, a, b + 1);
    MulSplits(n, b, -1);
  }

  lemma MulSplits(n: int, a: int, b: int)
    ensures n * (a - b) == n * a - n * b
  {
  }

  lemma MulAssociates(a: int, b: int, c: int)
    ensures a * b * c == a * (b * c)
  {
  }
}
