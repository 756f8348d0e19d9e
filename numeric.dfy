/** Integer helpers shared by the unit conversion and version parsing models. */
module Numeric {

  /** Natural-number power, `base ** exp` in Python for a non-negative exponent. */
  function Pow(base: int, exp: nat): int
    decreases exp
  {
    if exp == 0 then 1 else base * Pow(base, exp - 1)
  }

  lemma {:induction false} PowPositive(base: int, exp: nat)
    requires base > 0
    ensures Pow(base, exp) > 0
    decreases exp
  {
    if exp > 0 {
      PowPositive(base, exp - 1);
    }
  }

  lemma {:induction false} PowAdd(base: int, e1: nat, e2: nat)
    ensures Pow(base, e1 + e2) == Pow(base, e1) * Pow(base, e2)
    decreases e1
  {
    if e1 > 0 {
      PowAdd(base, e1 - 1, e2);
      assert Pow(base, e1 + e2) == base * Pow(base, e1 - 1 + e2);
    }
  }

  lemma {:induction false} PowMul(base: int, e1: nat, e2: nat)
    ensures Pow(Pow(base, e1), e2) == Pow(base, e1 * e2)
    decreases e2
  {
    if e2 > 0 {
      PowMul(base, e1, e2 - 1);
      PowAdd(base, e1, e1 * (e2 - 1));
      assert e1 * e2 == e1 + e1 * (e2 - 1);
    }
  }

  lemma {:induction false} PowMonotone(base: int, e1: nat, e2: nat)
    requires base > 1 && e1 < e2
    ensures Pow(base, e1) < Pow(base, e2)
    decreases e2
  {
    PowPositive(base, e2 - 1);
    if e1 < e2 - 1 {
      PowMonotone(base, e1, e2 - 1);
    }
  }

  lemma MulAtLeast(k: int, m: int)
    requires k >= 1 && m > 0
    ensures k * m >= m
  {
  }

  /** Euclidean division is determined by quotient and remainder. */
  lemma DivModUnique(x: int, m: int, q: int, r: int)
    requires m > 0 && 0 <= r < m && x == q * m + r
    ensures x / m == q && x % m == r
  {
    var q', r' := x / m, x % m;
    assert x == q' * m + r';
    assert 0 <= r' < m;
    if q > q' {
      MulAtLeast(q - q', m);
    } else if q < q' {
      MulAtLeast(q' - q, m);
    }
  }

  lemma DivDiv(x: int, a: int, b: int)
    requires x >= 0 && a > 0 && b > 0
    ensures x / a / b == x / (a * b)
  {
    var q := x / a / b;
    var r := x / a % b;
    var s := x % a;
    assert x == (q * b + r) * a + s;
    assert x == q * (a * b) + (r * a + s);
    assert r * a + s < a * b by {
      assert r * a <= (b - 1) * a;
    }
    DivModUnique(x, a * b, q, r * a + s);
  }
}
