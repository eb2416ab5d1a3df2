/** Cash-settled call and put spreads: collateral, payoff, settlement and premium. */
module Spreads {
  import opened Common
  import opened Arith
  import opened FixedPoint

  datatype SpreadType = CallSpread | PutSpread

  datatype SpreadError =
    | InvalidType
    | InvalidStrikes
    | InvalidPremium
    | Overflow
    | InvalidFee
    | InsufficientCollateral

  function Width(lower: u64, upper: u64): Result<u64, SpreadError> {
    if lower < upper then Success(upper - lower) else Failure(InvalidStrikes)
  }

  function ValidateStrikes(kind: SpreadType, lower: u64, upper: u64): Result<u64, SpreadError> {
    if kind == CallSpread && lower == 0 then Failure(InvalidStrikes) else Width(lower, upper)
  }

  function ValidatePremium(kind: SpreadType, lower: u64, upper: u64, quantity: u64,
        price: u64): Result<(), SpreadError>
  {
    var width :- ValidateStrikes(kind, lower, upper);
    if quantity == 0 || price == 0 || price >= width then Failure(InvalidPremium) else Success(())
  }

  /** Which strikes, quantity and price are accepted, and which complaint is made of the others. */
  lemma ValidatePremiumExactly(kind: SpreadType, lower: u64, upper: u64, quantity: u64, price: u64)
    ensures ValidateStrikes(kind, lower, upper)
         == if lower < upper && (kind == PutSpread || 0 < lower) then Success(upper - lower)
            else Failure(InvalidStrikes)
    ensures ValidatePremium(kind, lower, upper, quantity, price)
         == if upper <= lower || (kind == CallSpread && lower == 0) then Failure(InvalidStrikes)
            else if 0 < quantity && 0 < price < upper - lower then Success(())
            else Failure(InvalidPremium)
  {}

  /** An unchecked `u128` product: the caller must show it cannot overflow. */
  function WideMul(a: u128, b: u128): u128
    requires a * b <= U128_MAX
  {
    a * b
  }

  /** `quote_amount`, in the operations and widths of the source. */
  function QuoteAmount(price: u64, quantity: u64, quoteDecimals: u8, underlyingDecimals: u8,
        ceil: bool): Result<u64, SpreadError>
  {
    if quoteDecimals > 18 || underlyingDecimals > 18 then
      Failure(Overflow)
    else
      ScalesFit(quoteDecimals);
      ScalesFit(underlyingDecimals);
      WideProductFits(price, quantity);
      var quoteScale: u128 := Pow10(quoteDecimals);
      var denominator := WideMul(1_000_000_000, Pow10(underlyingDecimals));
      var numerator := WideMul(price, quantity);
      if quoteScale <= denominator then
        DividedIsExact(price, quantity, quoteDecimals, underlyingDecimals);
        var divisor := denominator / quoteScale;
        QuotientFits(numerator, divisor);
        var result: u128 := numerator / divisor + if ceil && numerator % divisor != 0 then 1 else 0;
        if result <= U64_MAX then Success(result) else Failure(Overflow)
      else
        var result := numerator * (quoteScale / denominator);
        if result > U128_MAX then Failure(Overflow)
        else if 0 <= result <= U64_MAX then Success(result)
        else Failure(Overflow)
  }

  /** The rounding increment of the divided form stays inside `u128`. */
  lemma QuotientFits(n: nat, d: nat)
    requires 0 < d && n < U128_MAX
    ensures 0 <= n / d < U128_MAX
  {}

  /**
   * `quote_amount` succeeds exactly when both decimals are at most 18 and the exact rounded
   * amount fits `u64`, and then returns that amount.
   */
  lemma QuoteAmountIsExact(price: u64, quantity: u64, quoteDecimals: u8, underlyingDecimals: u8, ceil: bool)
    ensures QuoteAmount(price, quantity, quoteDecimals, underlyingDecimals, ceil)
         == (var exact := Exact(price, quantity, quoteDecimals, underlyingDecimals, ceil);
             if quoteDecimals <= 18 && underlyingDecimals <= 18 && exact <= U64_MAX
             then Success(exact) else Failure(Overflow))
  {
    if quoteDecimals <= 18 && underlyingDecimals <= 18 {
      ScalesFit(underlyingDecimals);
      if Pow10(quoteDecimals) <= Divisor(underlyingDecimals) {
        DividedIsExact(price, quantity, quoteDecimals, underlyingDecimals);
      } else {
        MultipliedIsExact(price, quantity, quoteDecimals, underlyingDecimals, ceil);
      }
    }
  }

  datatype SpreadPremium = SpreadPremium(
    collateral: u64, grossPremium: u64, protocolFee: u64, netPremium: u64, prefundedQuote: u64)

  datatype SpreadSettlement = SpreadSettlement(holderPayoff: u64, writerReturn: u64)

  /** `u64::try_from(u128::from(amount) * u128::from(bps) / 10_000)` */
  function Fee(amount: u64, bps: u16): Result<u64, SpreadError> {
    var fee := amount * bps / 10_000;
    if 0 <= fee <= U64_MAX then Success(fee) else Failure(Overflow)
  }

  /** A rate of at most 100% never overflows and never exceeds the amount. */
  lemma FeeAtMostAmount(amount: u64, bps: u16)
    requires bps <= 10_000
    ensures Fee(amount, bps) == Success(amount * bps / 10_000)
    ensures 0 <= amount * bps / 10_000 <= amount
  {
    ProductOrdered(bps, 10_000, amount);
    DivOrdered(amount * bps, amount * 10_000, 10_000);
  }

  datatype SpreadTerms = SpreadTerms(
    kind: SpreadType, lower: u64, upper: u64, quantity: u64, quoteDecimals: u8, underlyingDecimals: u8)
  {
    function Quote(price: u64, ceil: bool): Result<u64, SpreadError> {
      QuoteAmount(price, quantity, quoteDecimals, underlyingDecimals, ceil)
    }

    function Collateral(): Result<u64, SpreadError> {
      var width :- Width(lower, upper);
      Quote(width, true)
    }

    /** The uncapped difference to the near strike, capped at the width. */
    function Intrinsic(settlementPrice: u64): u64
      requires lower < upper
    {
      var raw := match kind
        case CallSpread => SaturatingSub(settlementPrice, lower)
        case PutSpread => SaturatingSub(upper, settlementPrice);
      Min(raw, upper - lower)
    }

    function Payoff(settlementPrice: u64): Result<u64, SpreadError> {
      var width :- Width(lower, upper);
      Quote(Intrinsic(settlementPrice), true)
    }

    function Settle(settlementPrice: u64, actualCollateral: u64): Result<SpreadSettlement, SpreadError> {
      var required :- Collateral();
      if actualCollateral < required then
        Failure(InsufficientCollateral)
      else
        var holderPayoff :- Payoff(settlementPrice);
        if actualCollateral < holderPayoff then
          Failure(InsufficientCollateral)
        else
          Success(SpreadSettlement(holderPayoff, actualCollateral - holderPayoff))
    }

    /** The exact amount of `price` per unit on these terms. */
    function ExactQuote(price: nat, ceil: bool): nat {
      Exact(price, quantity, quoteDecimals, underlyingDecimals, ceil)
    }

    /** The exact per-unit fee on `price`, rounded down. */
    function UnitFee(price: u64, premiumBps: u16): (fee: u64)
      requires premiumBps <= 10_000
      ensures fee <= price
    {
      FeeAtMostAmount(price, premiumBps);
      price * premiumBps / 10_000
    }

    /**
     * Quoting within the collateral: any price up to the width quotes successfully, to its exact
     * amount, at most the collateral, whichever way it is rounded.
     */
    lemma QuotesWithinCollateral(price: u64, ceil: bool)
      requires Collateral().Success? && price <= upper - lower
      ensures Quote(price, ceil) == Success(ExactQuote(price, ceil))
      ensures ExactQuote(price, ceil) <= Collateral().value == ExactQuote(upper - lower, true)
    {
      QuoteAmountIsExact(upper - lower, quantity, quoteDecimals, underlyingDecimals, true);
      QuoteAmountIsExact(price, quantity, quoteDecimals, underlyingDecimals, ceil);
      ExactOrdered(price, upper - lower, quantity, quoteDecimals, underlyingDecimals);
    }

    /** Solvency: once collateral is computable, every settlement price pays at most that much. */
    lemma PayoffWithinCollateral(settlementPrice: u64)
      requires Collateral().Success?
      ensures Payoff(settlementPrice).Success?
      ensures Payoff(settlementPrice).value <= Collateral().value
    {
      QuotesWithinCollateral(Intrinsic(settlementPrice), true);
    }

    /**
     * Settlement succeeds exactly when collateral is computable and covered; the holder and the
     * writer then share all of it. The later underflow check can never be the one that fails.
     */
    lemma SettleConserves(settlementPrice: u64, actual: u64)
      ensures Settle(settlementPrice, actual).Success? <==> Collateral().Success? && Collateral().value <= actual
      ensures Settle(settlementPrice, actual).Success? ==>
                var s := Settle(settlementPrice, actual).value;
                && s.holderPayoff + s.writerReturn == actual
                && Success(s.holderPayoff) == Payoff(settlementPrice)
                && actual - Collateral().value <= s.writerReturn
      ensures Settle(settlementPrice, actual) == Failure(InsufficientCollateral) <==>
                Collateral().Success? && actual < Collateral().value
      ensures Collateral().Failure? ==> Settle(settlementPrice, actual) == Failure(Collateral().error)
    {
      if Collateral().Success? {
        PayoffWithinCollateral(settlementPrice);
      } else if lower < upper {
        QuoteAmountIsExact(upper - lower, quantity, quoteDecimals, underlyingDecimals, true);
      }
    }

    // ---- premium ----

    /** `premium`; the three bare subtractions of the source are discharged here. */
    function Premium(price: u64, premiumBps: u16, volumeBps: u16): Result<SpreadPremium, SpreadError> {
      var _ :- ValidatePremium(kind, lower, upper, quantity, price);
      if premiumBps > 10_000 || volumeBps > 10_000 then
        Failure(InvalidFee)
      else
        match Collateral()
        case Failure(e) => Failure(e)
        case Success(collateral) =>
          match (Quote(price, false), Quote(upper - lower, false))
          case (Failure(e), _) => Failure(e)
          case (_, Failure(e)) => Failure(e)
          case (Success(gross), Success(exposure)) =>
            if gross == 0 || gross >= collateral || exposure == 0 then
              Failure(InvalidPremium)
            else
              UnitFeeAtMostPrice(price, premiumBps);
              match Fee(price, premiumBps)
              case Failure(e) => Failure(e)
              case Success(unitFee) =>
                LowerPriceQuotesLess(price, unitFee);
                match (Quote(price - unitFee, false), Fee(exposure, volumeBps))
                case (Failure(e), _) => Failure(e)
                case (_, Failure(e)) => Failure(e)
                case (Success(afterFee), Success(volumeFee)) =>
                  var premiumFee: u64 := gross - afterFee;
                  var protocolFee := Min(premiumFee, volumeFee);
                  var net: u64 := gross - protocolFee;
                  Success(SpreadPremium(collateral, gross, protocolFee, net, collateral - net))
    }

    lemma UnitFeeAtMostPrice(price: u64, premiumBps: u16)
      requires premiumBps <= 10_000
      ensures Fee(price, premiumBps).Success? ==> Fee(price, premiumBps).value <= price
    {
      FeeAtMostAmount(price, premiumBps);
    }

    lemma LowerPriceQuotesLess(price: u64, unitFee: u64)
      requires unitFee <= price
      ensures Quote(price, false).Success? && Quote(price - unitFee, false).Success? ==>
                Quote(price - unitFee, false).value <= Quote(price, false).value
    {
      QuoteAmountIsExact(price, quantity, quoteDecimals, underlyingDecimals, false);
      QuoteAmountIsExact(price - unitFee, quantity, quoteDecimals, underlyingDecimals, false);
      ExactOrdered(price - unitFee, price, quantity, quoteDecimals, underlyingDecimals);
    }

    /**
     * The premium lost by lowering the unit price by `unitFee` is never negative and is the exact
     * fee amount rounded one way or the other.
     */
    lemma PremiumFeeNearExact(price: u64, unitFee: u64)
      requires Collateral().Success? && unitFee <= price <= upper - lower
      ensures Quote(price - unitFee, false) == Success(ExactQuote(price - unitFee, false))
      ensures Quote(price, false) == Success(ExactQuote(price, false))
      ensures ExactQuote(unitFee, false) <= ExactQuote(price, false) - ExactQuote(price - unitFee, false)
          <= ExactQuote(unitFee, true)
    {
      QuotesWithinCollateral(price, false);
      QuotesWithinCollateral(price - unitFee, false);
      ScaledAdditive(unitFee, price - unitFee, quantity, quoteDecimals);
      FloorDifference(Scaled(unitFee, quantity, quoteDecimals), Scaled(price - unitFee, quantity, quoteDecimals),
          Divisor(underlyingDecimals));
    }

    /** The first reason to refuse a premium, over exact amounts. */
    ghost function Refusal(price: u64, premiumBps: u16, volumeBps: u16): Option<SpreadError> {
      var valid := ValidatePremium(kind, lower, upper, quantity, price);
      if valid.Failure? then Some(valid.error)
      else if premiumBps > 10_000 || volumeBps > 10_000 then Some(InvalidFee)
      else if Collateral().Failure? then Some(Collateral().error)
      else if ExactQuote(price, false) == 0 || ExactQuote(price, false) >= ExactQuote(upper - lower, true)
              || ExactQuote(upper - lower, false) == 0 then Some(InvalidPremium)
      else None
    }

    /** When a premium exists, and which reason is reported when it does not; nothing else is ever refused. */
    lemma PremiumRefusals(price: u64, premiumBps: u16, volumeBps: u16)
      ensures Premium(price, premiumBps, volumeBps).Success? <==>
                && ValidatePremium(kind, lower, upper, quantity, price).Success?
                && premiumBps <= 10_000 && volumeBps <= 10_000
                && Collateral().Success?
                && 0 < ExactQuote(price, false) < ExactQuote(upper - lower, true)
                && 0 < ExactQuote(upper - lower, false)
      ensures Premium(price, premiumBps, volumeBps) == Failure(Overflow) ==> Collateral() == Failure(Overflow)
      ensures var refusal := Refusal(price, premiumBps, volumeBps);
              if refusal.Some? then Premium(price, premiumBps, volumeBps) == Failure(refusal.value)
              else Premium(price, premiumBps, volumeBps).Success?
    {
      if ValidatePremium(kind, lower, upper, quantity, price).Success? && Collateral().Success? {
        QuotesWithinCollateral(price, false);
        QuotesWithinCollateral(upper - lower, false);
        if premiumBps <= 10_000 && volumeBps <= 10_000 {
          FeeAtMostAmount(price, premiumBps);
          FeeAtMostAmount(ExactQuote(upper - lower, false), volumeBps);
          PremiumFeeNearExact(price, price * premiumBps / 10_000);
        }
      }
    }

    /**
     * The split of a successful premium: fee and net make up the gross, prefunding and net make up
     * the collateral, and the fee is the smaller of the volume fee and what lowering the unit price
     * by its fee costs, which is within one atom of the exact premium fee.
     */
    lemma PremiumSplits(price: u64, premiumBps: u16, volumeBps: u16)
      requires Premium(price, premiumBps, volumeBps).Success?
      ensures premiumBps <= 10_000 && 0 <= price * premiumBps / 10_000 <= price
      ensures var p := Premium(price, premiumBps, volumeBps).value;
              var volumeFee := ExactQuote(upper - lower, false) * volumeBps / 10_000;
              && Success(p.collateral) == Collateral()
              && p.netPremium + p.protocolFee == p.grossPremium == ExactQuote(price, false)
              && p.prefundedQuote + p.netPremium == p.collateral
              && 0 < p.grossPremium < p.collateral
              && 0 < p.prefundedQuote
              && p.protocolFee
                  == Min(ExactQuote(price, false) - ExactQuote(price - price * premiumBps / 10_000, false), volumeFee)
              && p.protocolFee <= volumeFee
              && p.protocolFee <= ExactQuote(UnitFee(price, premiumBps), true)
              && (p.protocolFee < volumeFee ==> ExactQuote(UnitFee(price, premiumBps), false) <= p.protocolFee)
    {
      PremiumRefusals(price, premiumBps, volumeBps);
      QuotesWithinCollateral(price, false);
      QuotesWithinCollateral(upper - lower, false);
      FeeAtMostAmount(price, premiumBps);
      PremiumFeeNearExact(price, UnitFee(price, premiumBps));
    }
  }

  // ---- shape of the payoff ----

  /** The settlement price, moved to the nearer strike when it lies beyond. */
  function Clamp(t: SpreadTerms, p: u64): u64 {
    if p <= t.lower then t.lower else if t.upper <= p then t.upper else p
  }

  /** What a spread is paid on: how far the clamped price is above the lower strike, or below the upper one. */
  function Leg(t: SpreadTerms, kind: SpreadType, p: u64): u64
    requires t.lower < t.upper
  {
    match kind
    case CallSpread => Clamp(t, p) - t.lower
    case PutSpread => t.upper - Clamp(t, p)
  }

  /** Collateral is the exact amount of the width, rounded up, for ordered strikes where it fits. */
  lemma CollateralExactly(t: SpreadTerms)
    ensures t.Collateral()
         == if t.upper <= t.lower then Failure(InvalidStrikes)
            else if t.quoteDecimals <= 18 && t.underlyingDecimals <= 18
                && t.ExactQuote(t.upper - t.lower, true) <= U64_MAX
            then Success(t.ExactQuote(t.upper - t.lower, true))
            else Failure(Overflow)
  {
    if t.lower < t.upper {
      QuoteAmountIsExact(t.upper - t.lower, t.quantity, t.quoteDecimals, t.underlyingDecimals, true);
    }
  }

  /** Exact payoff at every settlement price on computable collateral. */
  lemma PayoffIsExact(t: SpreadTerms, settlementPrice: u64)
    requires t.Collateral().Success?
    ensures t.Payoff(settlementPrice) == Success(t.ExactQuote(Leg(t, t.kind, settlementPrice), true))
    ensures t.Collateral().value == t.ExactQuote(t.upper - t.lower, true)
  {
    t.QuotesWithinCollateral(t.Intrinsic(settlementPrice), true);
  }

  /** Between the strikes a call is paid on its distance above the lower, a put on its distance below the upper. */
  lemma PayoffBetween(t: SpreadTerms, p: u64)
    requires t.Collateral().Success? && t.lower <= p <= t.upper
    ensures t.kind.CallSpread? ==> t.Payoff(p) == Success(t.ExactQuote(p - t.lower, true))
    ensures t.kind.PutSpread? ==> t.Payoff(p) == Success(t.ExactQuote(t.upper - p, true))
  {
    PayoffIsExact(t, p);
  }

  /** A call spread pays more as the price rises, a put spread less. */
  lemma PayoffMonotone(t: SpreadTerms, p: u64, p': u64)
    requires t.Collateral().Success? && p <= p'
    ensures t.Payoff(p).Success? && t.Payoff(p').Success?
    ensures t.kind.CallSpread? ==> t.Payoff(p).value <= t.Payoff(p').value
    ensures t.kind.PutSpread? ==> t.Payoff(p').value <= t.Payoff(p).value
  {
    PayoffIsExact(t, p);
    PayoffIsExact(t, p');
    var a, b := t.Intrinsic(p), t.Intrinsic(p');
    ExactOrdered(Min(a, b), if a <= b then b else a, t.quantity, t.quoteDecimals, t.underlyingDecimals);
  }

  /** Beyond the strikes the payoff is nothing on one side and the whole collateral on the other. */
  lemma PayoffAtBounds(t: SpreadTerms, p: u64)
    requires t.Collateral().Success?
    ensures p <= t.lower ==> t.Payoff(p) == Success(if t.kind.CallSpread? then 0 else t.Collateral().value)
    ensures t.upper <= p ==> t.Payoff(p) == Success(if t.kind.CallSpread? then t.Collateral().value else 0)
  {
    PayoffIsExact(t, p);
    ZeroQuotesZero(t);
  }

  lemma ZeroQuotesZero(t: SpreadTerms)
    ensures t.ExactQuote(0, true) == 0
  {}

  /** Whether rounding both legs up costs an extra atom at `p`: both leave a remainder and both fit one divisor. */
  predicate SplitsAnAtom(t: SpreadTerms, p: u64)
    requires t.lower < t.upper
  {
    var d := Divisor(t.underlyingDecimals);
    var c := Scaled(Leg(t, CallSpread, p), t.quantity, t.quoteDecimals) % d;
    var q := Scaled(Leg(t, PutSpread, p), t.quantity, t.quoteDecimals) % d;
    0 < c && 0 < q && c + q <= d
  }

  /**
   * Parity: a call and a put spread on the same strikes together pay the collateral, plus one atom
   * exactly when rounding splits an atom between them.
   */
  lemma SpreadParity(t: SpreadTerms, p: u64)
    requires t.Collateral().Success?
    ensures var call := t.(kind := CallSpread).Payoff(p);
            var put := t.(kind := PutSpread).Payoff(p);
            && call.Success? && put.Success?
            && call.value + put.value == t.Collateral().value + if SplitsAnAtom(t, p) then 1 else 0
  {
    var call, put := t.(kind := CallSpread), t.(kind := PutSpread);
    assert call.Collateral() == put.Collateral() == t.Collateral();
    PayoffIsExact(call, p);
    PayoffIsExact(put, p);
    var c, q := Leg(t, CallSpread, p), Leg(t, PutSpread, p);
    assert c + q == t.upper - t.lower && Leg(call, CallSpread, p) == c && Leg(put, PutSpread, p) == q;
    ScaledAdditive(c, q, t.quantity, t.quoteDecimals);
    CeilSplit(Scaled(c, t.quantity, t.quoteDecimals), Scaled(q, t.quantity, t.quoteDecimals),
        Divisor(t.underlyingDecimals));
  }

  /** No atom is ever split when quote atoms are at least as fine as the scaled product. */
  lemma MultiplyingBranchIsExact(t: SpreadTerms, p: u64)
    requires t.lower < t.upper && Divisor(t.underlyingDecimals) < Pow10(t.quoteDecimals)
    ensures !SplitsAnAtom(t, p)
  {
    var d := Divisor(t.underlyingDecimals);
    var i := Leg(t, CallSpread, p);
    MultiplyingBranch(t.quoteDecimals, t.underlyingDecimals);
    var m := Pow10(t.quoteDecimals) / d;
    assert Scaled(i, t.quantity, t.quoteDecimals) == i * t.quantity * m * d;
    QuotientUnique(i * t.quantity * m * d, d, i * t.quantity * m);
  }

  /** The extra atom does occur: one unit of width on each side of the price, far below one quote atom. */
  lemma ParityCanExceedCollateral()
    ensures exists t: SpreadTerms, p: u64 :: t.Collateral().Success? && SplitsAnAtom(t, p)
  {
    var t := SpreadTerms(CallSpread, 1, 3, 1, 0, 0);
    assert Pow10(0) == 1;
    assert Divisor(0) == 1_000_000_000;
    QuoteAmountIsExact(2, 1, 0, 0, true);
    assert t.Collateral() == Success(1);
    assert SplitsAnAtom(t, 2);
  }
}
