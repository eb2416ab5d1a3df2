/**
 * The exact value that both implementations of the contract's amount formula round: a price
 * scaled by 1e9 per underlying token, times a quantity in underlying atoms, in quote atoms.
 * Everything here is over unbounded integers.
 */
module FixedPoint {
  import opened Common
  import opened Arith

  const PRICE_SCALE_EXP: nat := 9
  const MAX_DECIMALS: nat := 18

  /** Atoms before division: `price * quantity * 10^quoteDecimals`. */
  function Scaled(price: nat, quantity: nat, quoteDecimals: nat): nat {
    price * quantity * Pow10(quoteDecimals)
  }

  /** The divisor `10^9 * 10^underlyingDecimals`. */
  function Divisor(underlyingDecimals: nat): (d: nat)
    ensures 0 < d
  {
    Pow10(PRICE_SCALE_EXP + underlyingDecimals)
  }

  /** `price * quantity * 10^q / 10^(9+u)`, rounded up or down. */
  function Exact(price: nat, quantity: nat, quoteDecimals: nat, underlyingDecimals: nat, ceil: bool): nat {
    var n := Scaled(price, quantity, quoteDecimals);
    var d := Divisor(underlyingDecimals);
    if ceil then CeilDiv(n, d) else FloorDiv(n, d)
  }

  /** Rounding: the amount times the divisor is within one divisor of the scaled product, on the right side. */
  lemma ExactRounds(price: nat, quantity: nat, quoteDecimals: nat, underlyingDecimals: nat)
    ensures var n, d := price * quantity * Pow10(quoteDecimals), Pow10(9 + underlyingDecimals);
            var floor := Exact(price, quantity, quoteDecimals, underlyingDecimals, false);
            var ceiling := Exact(price, quantity, quoteDecimals, underlyingDecimals, true);
            && d * floor <= n < d * floor + d
            && n <= d * ceiling < n + d
  {
    var n, d := price * quantity * Pow10(quoteDecimals), Pow10(9 + underlyingDecimals);
    assert n == d * (n / d) + n % d;
    Distribute(d, n / d, 1);
  }

  lemma ScaledOrdered(p: nat, p': nat, quantity: nat, quoteDecimals: nat)
    requires p <= p'
    ensures Scaled(p, quantity, quoteDecimals) <= Scaled(p', quantity, quoteDecimals)
  {}

  /** Exact amounts grow with the price, and rounding down never exceeds rounding up. */
  lemma ExactOrdered(p: nat, p': nat, quantity: nat, qd: nat, ud: nat)
    requires p <= p'
    ensures forall ceil :: Exact(p, quantity, qd, ud, ceil) <= Exact(p', quantity, qd, ud, ceil)
    ensures Exact(p, quantity, qd, ud, false) <= Exact(p', quantity, qd, ud, true)
  {
    ScaledOrdered(p, p', quantity, qd);
    DivOrdered(Scaled(p, quantity, qd), Scaled(p', quantity, qd), Divisor(ud));
  }

  lemma ScaledAdditive(a: nat, b: nat, quantity: nat, qd: nat)
    ensures Scaled(a + b, quantity, qd) == Scaled(a, quantity, qd) + Scaled(b, quantity, qd)
  {}

  /** Scale factors as both implementations compute them: powers of ten within `u128`. */
  lemma ScalesFit(decimals: nat)
    requires decimals <= MAX_DECIMALS
    ensures Pow10(decimals) <= 1_000_000_000_000_000_000
    ensures 1_000_000_000 * Pow10(decimals) == Divisor(decimals)
    ensures Divisor(decimals) <= U128_MAX
  {}

  /** Two `u64` factors multiply within `u128`, leaving room for a rounding increment. */
  lemma WideProductFits(a: u64, b: u64)
    ensures 0 <= a * b < U128_MAX
  {
    ProductBound(a, b, U64_MAX, U64_MAX);
  }

  /** When the quote scale does not exceed the divisor, their quotient divides exactly. */
  lemma DividingBranch(qd: nat, ud: nat)
    requires Pow10(qd) <= Divisor(ud)
    ensures var d := Divisor(ud) / Pow10(qd); 0 < d && Divisor(ud) == d * Pow10(qd)
  {
    var n := PRICE_SCALE_EXP + ud;
    assert qd <= n by {
      if n < qd {
        Pow10Ordered(n, qd);
      }
    }
    Pow10Add(n - qd, qd);
    ExactMultiple(Pow10(n - qd), Pow10(qd));
  }

  /** Otherwise the quote scale is an exact multiple of the divisor. */
  lemma MultiplyingBranch(qd: nat, ud: nat)
    requires Divisor(ud) < Pow10(qd)
    ensures Pow10(qd) == Pow10(qd) / Divisor(ud) * Divisor(ud)
  {
    var n := PRICE_SCALE_EXP + ud;
    assert n < qd by {
      if qd <= n {
        Pow10Ordered(qd, n);
      }
    }
    Pow10Add(qd - n, n);
    ExactMultiple(Pow10(qd - n), Pow10(n));
  }

  lemma Associate(a: int, b: int, c: int)
    ensures a * (b * c) == a * b * c
  {}

  /** The divided form computes the exact amount. */
  lemma DividedIsExact(price: nat, quantity: nat, qd: nat, ud: nat)
    requires Pow10(qd) <= Divisor(ud)
    ensures var d := Divisor(ud) / Pow10(qd);
            && 0 < d
            && price * quantity / d == Exact(price, quantity, qd, ud, false)
            && CeilDiv(price * quantity, d) == Exact(price, quantity, qd, ud, true)
  {
    DividingBranch(qd, ud);
    CommonFactor(price * quantity, Divisor(ud) / Pow10(qd), Pow10(qd));
  }

  /** The multiplied form computes the exact amount, and there is nothing to round. */
  lemma MultipliedIsExact(price: nat, quantity: nat, qd: nat, ud: nat, ceil: bool)
    requires Divisor(ud) < Pow10(qd)
    ensures price * quantity * (Pow10(qd) / Divisor(ud)) == Exact(price, quantity, qd, ud, ceil)
  {
    MultiplyingBranch(qd, ud);
    var n, m, d := price * quantity, Pow10(qd) / Divisor(ud), Divisor(ud);
    ProductOrdered(price, price, quantity);
    ProductOrdered(n, n, m);
    Associate(n, m, d);
    ExactMultiple(n * m, d);
  }
}
