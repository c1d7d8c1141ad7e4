/** The few facts about products and remainders the other modules need, and the 64-bit bounds. */
module Arithmetic {

  const INT64_MAX: int := 0x7fff_ffff_ffff_ffff
  const INT64_MIN: int := -0x8000_0000_0000_0000
  const TWO64: int := 0x1_0000_0000_0000_0000
  const TWO32: int := 0x1_0000_0000

  type Int64 = x: int | INT64_MIN <= x <= INT64_MAX
  type Uint64 = x: int | 0 <= x < TWO64

  /** Conversion to std::int64_t: the representative of x modulo 2^64 in the signed range. */
  function ToInt64(x: int): (y: Int64)
    ensures INT64_MIN <= x <= INT64_MAX ==> y == x
  {
    (x - INT64_MIN) % TWO64 + INT64_MIN
  }

  /** Adding to a wrapped total wraps to the same value as adding first. */
  lemma WrapStep(x: int, y: int)
    ensures ToInt64(ToInt64(x) + y) == ToInt64(x + y)
  {
    var k := (x - INT64_MIN) / TWO64;
    assert ToInt64(x) == x - k * TWO64;
    var q := (x + y - INT64_MIN) / TWO64;
    DivModUnique(ToInt64(x) + y - INT64_MIN, q - k, (x + y - INT64_MIN) % TWO64, TWO64);
  }

  lemma MulMonotone(a: int, b: int, m: int)
    requires m >= 0 && a <= b
    ensures a * m <= b * m
  {
    assert (b - a) * m >= 0;
  }

  lemma RemainderZero(a: int, m: int)
    requires m > 0 && a % m == 0
    ensures a == (a / m) * m
  {}

  /** Quotient and remainder are determined by a == q * m + r with 0 <= r < m. */
  lemma DivModUnique(a: int, q: int, r: int, m: int)
    requires m > 0 && a == q * m + r && 0 <= r < m
    ensures a / m == q && a % m == r
  {
    var d := a / m;
    if d < q {
      MulMonotone(d + 1, q, m);
    } else if d > q {
      MulMonotone(q + 1, d, m);
    }
  }

  /** What n becomes in a range of m numbers from low on is the one number of that range congruent to it. */
  lemma HeldAs(n: int, x: int, low: int, m: int)
    requires m > 0 && low <= x < low + m
    ensures (n - low) % m + low == x <==> (n - x) % m == 0
  {
    var k := (n - low) / m;
    if (n - x) % m == 0 {
      DivModUnique(n - low, (n - x) / m, x - low, m);
    } else if (n - low) % m + low == x {
      DivModUnique(n - x, k, 0, m);
    }
  }

  lemma DivDiv(x: int, a: int, b: int)
    requires a > 0 && b > 0
    ensures a * b > 0
    ensures x / a / b == x / (a * b)
  {
    MulMonotone(1, a, b);
    var u, q := x / a, x / a / b;
    var r, s := x % a, u % b;
    MulMonotone(s + 1, b, a);
    calc {
      x;
      u * a + r;
      (q * b + s) * a + r;
      q * b * a + s * a + r;
      { assert q * b * a == q * (a * b); }
      q * (a * b) + (s * a + r);
    }
    assert s * a >= 0 by { MulMonotone(0, s, a); }
    DivModUnique(x, q, s * a + r, a * b);
  }
}
