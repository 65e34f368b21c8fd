/**
 * C's signed integer division, which truncates toward zero, stated over
 * Dafny's Euclidean division, with the facts about products and quotients
 * the WAV header proofs use.
 */
module CDivision {
  /** The magnitude of `x`. */
  function Abs(x: int): nat { if x < 0 then -x else x }

  /** C's integer division, which truncates toward zero. */
  function CDiv(a: int, b: int): int
    requires b != 0
  {
    var m: int := Abs(a) / Abs(b);
    if (a >= 0) == (b > 0) then m else -m
  }

  /**
   * The quotient truncates: the remainder it leaves is smaller than the
   * divisor in magnitude and has the sign of the dividend.
   */
  lemma {:induction false} CDivTruncates(a: int, b: int)
    requires b != 0
    ensures var r := a - CDiv(a, b) * b;
      Abs(r) < Abs(b) && (r == 0 || (r > 0) == (a > 0))
  {
    var n: int, d: int := Abs(a), Abs(b);
    var m: int, s: int := n / d, n % d;
    DivParts(n, d);
    var q := CDiv(a, b);
    QuotientTimesDivisor(b, m, q, a >= 0);
    var p := d * m;
    RemainderOfProduct(n, p, s, q, a, b);
  }

  /** Euclidean division of a natural number by a positive one, with the product non-negative. */
  lemma DivParts(n: int, d: int)
    requires n >= 0 && d > 0
    ensures n == d * (n / d) + n % d && 0 <= n % d < d && n / d >= 0 && d * (n / d) >= 0
  {
    if n / d >= 1 {
      MulAtLeast(d, n / d);
    }
  }

  /** Once `q * b` is known as the signed product `p`, the remainder is `s` with the dividend's sign. */
  lemma RemainderOfProduct(n: int, p: int, s: int, q: int, a: int, b: int)
    requires n == Abs(a) && b != 0
    requires n == p + s && 0 <= s < Abs(b) && p >= 0
    requires q * b == if a >= 0 then p else -p
    ensures var r := a - q * b;
      Abs(r) < Abs(b) && (r == 0 || (r > 0) == (a > 0))
  {
  }

  /** `q * b` is the magnitude product, signed as the dividend when `q` carries the sign rule of `CDiv`. */
  lemma QuotientTimesDivisor(b: int, m: int, q: int, nonneg: bool)
    requires b != 0
    requires q == if nonneg == (b > 0) then m else -m
    ensures q * b == if nonneg then Abs(b) * m else -(Abs(b) * m)
  {
    if b < 0 {
      assert m * b == -(m * (-b));
    }
  }

  /** A positive multiple of a positive number is at least that number. */
  lemma {:induction false} MulAtLeast(b: int, d: int)
    requires b > 0 && d >= 1
    ensures b * d >= b
    decreases d
  {
    if d > 1 {
      MulAtLeast(b, d - 1);
      assert b * d == b * (d - 1) + b;
    }
  }

  /** A negative multiple of a positive number is at most its negation. */
  lemma MulAtMost(b: int, d: int)
    requires b > 0 && d <= -1
    ensures b * d <= -b
  {
    MulAtLeast(b, -d);
    assert b * d == -(b * (-d));
  }

  /** Quotient and remainder are the only ones with `a == b * q + r` and `0 <= r < b`. */
  lemma DivUnique(a: int, b: int, q: int, r: int)
    requires b > 0 && a == b * q + r && 0 <= r < b
    ensures a / b == q && a % b == r
  {
    var q', r' := a / b, a % b;
    var d := q - q';
    assert b * d == r' - r by {
      assert b * q - b * q' == b * (q - q');
    }
    if d >= 1 {
      MulAtLeast(b, d);
    } else if d <= -1 {
      MulAtMost(b, d);
    }
  }

  /** Exact division truncates to the quotient. */
  lemma CDivExact(k: int, b: int)
    requires b > 0
    ensures CDiv(b * k, b) == k
  {
    if k >= 0 {
      DivUnique(b * k, b, k, 0);
    } else {
      assert Abs(b * k) == b * (-k);
      DivUnique(b * (-k), b, -k, 0);
    }
  }
}
