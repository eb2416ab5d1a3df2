/** Contract amount math for physically settled options. */
module Amounts {
  import opened Common
  import opened Arith
  import opened FixedPoint
  import Spreads

  /** `scaled_quote_amount`, in the operations and widths of the source. */
  function ScaledQuoteAmount(perUnit: u64, quantity: u64, quoteDecimals: u8, underlyingDecimals: u8): Option<u64> {
    if quoteDecimals > 18 || underlyingDecimals > 18 then
      None
    else
      ScalesFit(quoteDecimals);
      ScalesFit(underlyingDecimals);
      WideProductFits(perUnit, quantity);
      var quoteScale: u128 := Pow10(quoteDecimals);
      var denominator: u128 := 1_000_000_000 * Pow10(underlyingDecimals);
      var numerator: u128 := perUnit * quantity;
      if quoteScale <= denominator then
        DividedIsExact(perUnit, quantity, quoteDecimals, underlyingDecimals);
        var amount := numerator / (denominator / quoteScale);
        if 0 <= amount <= U64_MAX then Some(amount) else None
      else
        var amount := numerator * (quoteScale / denominator);
        if amount > U128_MAX then None
        else if 0 <= amount <= U64_MAX then Some(amount)
        else None
  }

  /**
   * The physical formula is the exact floor whenever that fits, and agrees on every input with
   * the spread formula rounded down.
   */
  lemma ScaledQuoteAmountIsExact(perUnit: u64, quantity: u64, quoteDecimals: u8, underlyingDecimals: u8)
    ensures ScaledQuoteAmount(perUnit, quantity, quoteDecimals, underlyingDecimals)
         == (var exact := Exact(perUnit, quantity, quoteDecimals, underlyingDecimals, false);
             if quoteDecimals <= 18 && underlyingDecimals <= 18 && exact <= U64_MAX
             then Some(exact) else None)
    ensures ScaledQuoteAmount(perUnit, quantity, quoteDecimals, underlyingDecimals)
         == (var spread := Spreads.QuoteAmount(perUnit, quantity, quoteDecimals, underlyingDecimals, false);
             if spread.Success? then Some(spread.value) else None)
  {
    if quoteDecimals <= 18 && underlyingDecimals <= 18 {
      ScalesFit(underlyingDecimals);
      if Pow10(quoteDecimals) <= Divisor(underlyingDecimals) {
        DividedIsExact(perUnit, quantity, quoteDecimals, underlyingDecimals);
      } else {
        MultipliedIsExact(perUnit, quantity, quoteDecimals, underlyingDecimals, false);
      }
    }
    Spreads.QuoteAmountIsExact(perUnit, quantity, quoteDecimals, underlyingDecimals, false);
  }

  datatype PhysicalPremium = PhysicalPremium(grossPremium: u64, protocolFee: u64, netPremium: u64)

  /** A fill: price and strike per unit, quantity, and the two mints' decimals. */
  datatype Fill = Fill(price: u64, strike: u64, quantity: u64, underlyingDecimals: u8, quoteDecimals: u8)
  {
    function Quote(perUnit: u64): Option<u64> {
      ScaledQuoteAmount(perUnit, quantity, quoteDecimals, underlyingDecimals)
    }

    function ExactQuote(perUnit: nat, ceil: bool): nat {
      Exact(perUnit, quantity, quoteDecimals, underlyingDecimals, ceil)
    }

    function UnitFee(premiumBps: u16): (fee: u64)
      requires premiumBps <= 10_000
      ensures fee <= price
    {
      Spreads.FeeAtMostAmount(price, premiumBps);
      price * premiumBps / 10_000
    }

    /** Lowering the unit price keeps a fitting quote fitting and costs the exact fee, rounded. */
    lemma LowerPriceQuotes(unitFee: u64)
      requires unitFee <= price && Quote(price).Some?
      ensures Quote(price) == Some(ExactQuote(price, false))
      ensures Quote(price - unitFee) == Some(ExactQuote(price - unitFee, false))
      ensures ExactQuote(unitFee, false) <= ExactQuote(price, false) - ExactQuote(price - unitFee, false)
          <= ExactQuote(unitFee, true)
    {
      ScaledQuoteAmountIsExact(price, quantity, quoteDecimals, underlyingDecimals);
      ScaledQuoteAmountIsExact(price - unitFee, quantity, quoteDecimals, underlyingDecimals);
      ExactOrdered(price - unitFee, price, quantity, quoteDecimals, underlyingDecimals);
      ScaledAdditive(unitFee, price - unitFee, quantity, quoteDecimals);
      FloorDifference(Scaled(unitFee, quantity, quoteDecimals), Scaled(price - unitFee, quantity, quoteDecimals),
          Divisor(underlyingDecimals));
    }

    /** `physical_premium`; its two bare subtractions are discharged here. */
    function Premium(premiumBps: u16, volumeBps: u16): Option<PhysicalPremium> {
      if premiumBps > 10_000 || volumeBps > 10_000 then
        None
      else
        match Quote(price)
        case None => None
        case Some(gross) =>
          Spreads.FeeAtMostAmount(price, premiumBps);
          LowerPriceQuotes(UnitFee(premiumBps));
          match Spreads.Fee(price, premiumBps)
          case Failure(_) => None
          case Success(unitFee) =>
            match Quote(price - unitFee)
            case None => None
            case Some(afterFee) =>
              var premiumFee: u64 := gross - afterFee;
              match Quote(strike)
              case None => None
              case Some(notional) =>
                match Spreads.Fee(notional, volumeBps)
                case Failure(_) => None
                case Success(volumeFee) =>
                  var protocolFee := Min(premiumFee, volumeFee);
                  Some(PhysicalPremium(gross, protocolFee, gross - protocolFee))
    }

    /**
     * A physical premium exists exactly when both rates are at most 100%, both decimals at most 18
     * and both exact amounts fit; it then splits the gross, with a fee bounded by both fees.
     */
    lemma PremiumSplits(premiumBps: u16, volumeBps: u16)
      ensures Premium(premiumBps, volumeBps).Some? <==>
                && premiumBps <= 10_000 && volumeBps <= 10_000
                && quoteDecimals <= 18 && underlyingDecimals <= 18
                && ExactQuote(price, false) <= U64_MAX && ExactQuote(strike, false) <= U64_MAX
      ensures Premium(premiumBps, volumeBps).Some? ==>
                var p := Premium(premiumBps, volumeBps).value;
                var volumeFee := ExactQuote(strike, false) * volumeBps / 10_000;
                && p.netPremium + p.protocolFee == p.grossPremium == ExactQuote(price, false)
                && 0 <= price * premiumBps / 10_000 <= price
                && p.protocolFee
                    == Min(ExactQuote(price, false) - ExactQuote(price - price * premiumBps / 10_000, false), volumeFee)
                && p.protocolFee <= volumeFee
                && p.protocolFee <= ExactQuote(UnitFee(premiumBps), true)
                && (p.protocolFee < volumeFee ==> ExactQuote(UnitFee(premiumBps), false) <= p.protocolFee)
    {
      ScaledQuoteAmountIsExact(price, quantity, quoteDecimals, underlyingDecimals);
      ScaledQuoteAmountIsExact(strike, quantity, quoteDecimals, underlyingDecimals);
      if premiumBps <= 10_000 && volumeBps <= 10_000 && Quote(price).Some? {
        Spreads.FeeAtMostAmount(price, premiumBps);
        LowerPriceQuotes(UnitFee(premiumBps));
        if Quote(strike).Some? {
          Spreads.FeeAtMostAmount(Quote(strike).value, volumeBps);
        }
      }
    }
  }
}
