/** Division with rounding and powers of ten: the facts the fixed-point proofs rest on. */
module Arith {

  /** Greatest integer at or below `n / d`. */
  function FloorDiv(n: nat, d: nat): nat
    requires 0 < d
  {
    n / d
  }

  /** Least integer at or above `n / d`. */
  function CeilDiv(n: nat, d: nat): (c: nat)
    requires 0 < d
    ensures n / d <= c <= n / d + 1
  {
    n / d + if n % d != 0 then 1 else 0
  }

  function Pow10(n: nat): (r: nat)
    ensures 0 < r
  {
    if n == 0 then 1 else 10 * Pow10(n - 1)
  }

  lemma {:induction false} Pow10Add(a: nat, b: nat)
    ensures Pow10(a + b) == Pow10(a) * Pow10(b)
  {
    if b > 0 {
      Pow10Add(a, b - 1);
      assert Pow10(a + b) == 10 * Pow10(a + (b - 1));
      assert Pow10(a) * (10 * Pow10(b - 1)) == 10 * (Pow10(a) * Pow10(b - 1));
    }
  }

  /** Powers of ten are ordered by their exponents. */
  lemma {:induction false} Pow10Ordered(a: nat, b: nat)
    requires a <= b
    ensures Pow10(a) <= Pow10(b)
    ensures a < b ==> Pow10(a) < Pow10(b)
  {
    if a < b {
      Pow10Ordered(a, b - 1);
    }
  }

  lemma Distribute(d: int, x: int, y: int)
    ensures d * (x + y) == d * x + d * y
  {}

  lemma ProductOrdered(a: nat, b: nat, k: nat)
    ensures 0 <= a * k
    ensures a <= b ==> a * k <= b * k
  {}

  lemma ProductBound(a: nat, b: nat, m: nat, n: nat)
    requires a <= m && b <= n
    ensures 0 <= a * b <= m * n
  {}

  /** Distinct multiples of `d` are at least `d` apart. */
  lemma MultiplesApart(d: nat, x: int, y: int)
    requires 0 < d && x < y
    ensures d * x + d <= d * y
  {
    Distribute(d, x, y - x);
    ProductOrdered(1, y - x, d);
  }

  /** The quotient of `n` by `d` is the only `q` with `d * q <= n < d * q + d`. */
  lemma QuotientUnique(n: int, d: nat, q: int)
    requires 0 < d
    requires d * q <= n < d * q + d
    ensures n / d == q
    ensures n % d == n - d * q
  {
    var k := n / d;
    if k < q {
      MultiplesApart(d, k, q);
    } else if q < k {
      MultiplesApart(d, q, k);
    }
  }

  lemma DivOrdered(a: nat, b: nat, d: nat)
    requires 0 < d && a <= b
    ensures a / d <= b / d
    ensures CeilDiv(a, d) <= CeilDiv(b, d)
    ensures a / d <= CeilDiv(b, d)
  {
    var x, y := a / d, b / d;
    if y < x {
      MultiplesApart(d, y, x);
    }
  }

  /** Scaling a division by `s`, without mentioning a quotient. */
  lemma ScaleDivision(n: nat, d: nat, q: int, r: nat, s: nat)
    requires 0 < s && n == d * q + r && r < d
    ensures 0 < d * s && 0 <= n * s
    ensures n * s == (d * s) * q + r * s
    ensures 0 <= r * s < d * s
    ensures r * s == 0 <==> r == 0
  {}

  /** A factor common to numerator and denominator cancels, whichever way the quotient is rounded. */
  lemma CommonFactor(n: nat, d: nat, s: nat)
    requires 0 < d && 0 < s
    ensures 0 < d * s && 0 <= n * s
    ensures (n * s) / (d * s) == n / d
    ensures CeilDiv(n * s, d * s) == CeilDiv(n, d)
  {
    ScaleDivision(n, d, n / d, n % d, s);
    QuotientUnique(n * s, d * s, n / d);
  }

  /** Dividing an exact multiple rounds neither way. */
  lemma ExactMultiple(n: nat, d: nat)
    requires 0 < d
    ensures 0 <= n * d
    ensures (n * d) / d == n && (n * d) % d == 0
    ensures CeilDiv(n * d, d) == n
  {}

  /** How the quotient and remainder of a sum come from those of its parts. */
  lemma SumQuotient(a: nat, b: nat, d: nat)
    requires 0 < d
    ensures var carry := if a % d + b % d < d then 0 else 1;
            && (a + b) / d == a / d + b / d + carry
            && (a + b) % d == a % d + b % d - carry * d
  {
    var x, y := a / d, b / d;
    Distribute(d, x, y);
    if a % d + b % d < d {
      QuotientUnique(a + b, d, x + y);
    } else {
      Distribute(d, x + y, 1);
      QuotientUnique(a + b, d, x + y + 1);
    }
  }

  /**
   * Splitting a sum before rounding up costs at most one unit, and costs it exactly when both
   * parts leave remainders that fit together in one divisor.
   */
  lemma CeilSplit(a: nat, b: nat, d: nat)
    requires 0 < d
    ensures CeilDiv(a, d) + CeilDiv(b, d)
         == CeilDiv(a + b, d) + if 0 < a % d && 0 < b % d && a % d + b % d <= d then 1 else 0
  {
    SumQuotient(a, b, d);
  }

  /** The floor of a difference is the difference of floors, up to one unit and never below. */
  lemma FloorDifference(a: nat, b: nat, d: nat)
    requires 0 < d
    ensures b / d <= (a + b) / d
    ensures a / d <= (a + b) / d - b / d <= CeilDiv(a, d)
  {
    SumQuotient(a, b, d);
  }
}
