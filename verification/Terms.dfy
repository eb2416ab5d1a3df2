/** Public option terms and the contract's four-product representation of them. */
module Terms {
  import opened Common

  datatype PositionType = CoveredCallType | CashSecuredPutType | CallSpreadType | PutSpreadType | CashPutType {
    predicate IsSpread() {
      CallSpreadType? || PutSpreadType? || CashPutType?
    }

    predicate IsPut() {
      CashSecuredPutType? || PutSpreadType? || CashPutType?
    }
  }

  datatype OptionTerms =
    | CashPut(strike: u64)
    | CoveredCall(strike: u64)
    | CashSecuredPut(strike: u64)
    | CallSpread(lower: u64, upper: u64)
    | PutSpread(lower: u64, upper: u64)
  {
    function PositionType(): PositionType {
      match this
      case CashPut(_) => CashPutType
      case CoveredCall(_) => CoveredCallType
      case CashSecuredPut(_) => CashSecuredPutType
      case CallSpread(_, _) => CallSpreadType
      case PutSpread(_, _) => PutSpreadType
    }

    predicate IsSpread() {
      PositionType().IsSpread()
    }

    /** The physical strike, or a spread's lower strike; a cash put's own strike. */
    function Strike(): u64 {
      match this
      case CashPut(k) => k
      case CoveredCall(k) => k
      case CashSecuredPut(k) => k
      case CallSpread(l, _) => l
      case PutSpread(l, _) => l
    }

    function UpperStrike(): Option<u64> {
      match this
      case CashPut(k) => Some(k)
      case CoveredCall(_) => None
      case CashSecuredPut(_) => None
      case CallSpread(_, u) => Some(u)
      case PutSpread(_, u) => Some(u)
    }

    function ToChain(): ChainTerms {
      match this
      case CashPut(k) => ChainPutSpread(0, k)
      case CoveredCall(k) => ChainCoveredCall(k)
      case CashSecuredPut(k) => ChainCashSecuredPut(k)
      case CallSpread(l, u) => ChainCallSpread(l, u)
      case PutSpread(l, u) => ChainPutSpread(l, u)
    }
  }

  datatype ChainTerms =
    | ChainCoveredCall(strike: u64)
    | ChainCashSecuredPut(strike: u64)
    | ChainCallSpread(lower: u64, upper: u64)
    | ChainPutSpread(lower: u64, upper: u64)
  {
    /** The contract's discriminant. */
    function Code(): u8 {
      match this
      case ChainCoveredCall(_) => 0
      case ChainCashSecuredPut(_) => 1
      case ChainCallSpread(_, _) => 2
      case ChainPutSpread(_, _) => 3
    }

    function Strike(): u64 {
      match this
      case ChainCoveredCall(k) => k
      case ChainCashSecuredPut(k) => k
      case ChainCallSpread(l, _) => l
      case ChainPutSpread(l, _) => l
    }

    function UpperStrike(): Option<u64> {
      match this
      case ChainCoveredCall(_) => None
      case ChainCashSecuredPut(_) => None
      case ChainCallSpread(_, u) => Some(u)
      case ChainPutSpread(_, u) => Some(u)
    }
  }

  /** Chain terms as a user names them; a put spread from zero is called a cash put. */
  function FromChain(c: ChainTerms): OptionTerms {
    match c
    case ChainCoveredCall(k) => CoveredCall(k)
    case ChainCashSecuredPut(k) => CashSecuredPut(k)
    case ChainCallSpread(l, u) => CallSpread(l, u)
    case ChainPutSpread(l, u) => if l == 0 then CashPut(u) else PutSpread(l, u)
  }

  function FromParts(code: u8, strike: u64, upper: Option<u64>): Option<ChainTerms> {
    if code == 0 && upper.None? && strike > 0 then Some(ChainCoveredCall(strike))
    else if code == 1 && upper.None? && strike > 0 then Some(ChainCashSecuredPut(strike))
    else if code == 2 && upper.Some? && strike > 0 && upper.value > strike then
        Some(ChainCallSpread(strike, upper.value))
    else if code == 3 && upper.Some? && upper.value > strike then Some(ChainPutSpread(strike, upper.value))
    else None
  }

  /** A put spread with a zero lower strike: the one shape that has a second name. */
  predicate Unnormalized(t: OptionTerms) {
    t.PutSpread? && t.lower == 0
  }

  /**
   * The conversions are inverse except on the unnormalized shape, and only that shape makes two terms share a chain
   * form.
   */
  lemma ChainRoundTrip(a: OptionTerms, b: OptionTerms, c: ChainTerms)
    ensures FromChain(a.ToChain()) == a <==> !Unnormalized(a)
    ensures FromChain(c).ToChain() == c && !Unnormalized(FromChain(c))
    ensures a != b && a.ToChain() == b.ToChain() <==>
              || (Unnormalized(a) && b == CashPut(a.upper))
              || (Unnormalized(b) && a == CashPut(b.upper))
  {}

  /** Each product's chain code and strikes, and which products are spreads and which are puts. */
  lemma ProductTable(k: u64, l: u64, u: u64)
    ensures var c := CoveredCall(k).ToChain(); c.Code() == 0 && c.Strike() == k && c.UpperStrike() == None
    ensures var c := CashSecuredPut(k).ToChain(); c.Code() == 1 && c.Strike() == k && c.UpperStrike() == None
    ensures var c := CallSpread(l, u).ToChain(); c.Code() == 2 && c.Strike() == l && c.UpperStrike() == Some(u)
    ensures var c := PutSpread(l, u).ToChain(); c.Code() == 3 && c.Strike() == l && c.UpperStrike() == Some(u)
    ensures var c := CashPut(k).ToChain(); c.Code() == 3 && c.Strike() == 0 && c.UpperStrike() == Some(k)
    ensures CallSpread(l, u).IsSpread() && PutSpread(l, u).IsSpread() && CashPut(k).IsSpread()
    ensures !CoveredCall(k).IsSpread() && !CashSecuredPut(k).IsSpread()
    ensures CashSecuredPut(k).PositionType().IsPut() && PutSpread(l, u).PositionType().IsPut()
    ensures CashPut(k).PositionType().IsPut()
    ensures !CoveredCall(k).PositionType().IsPut() && !CallSpread(l, u).PositionType().IsPut()
  {}

  /** Parts are accepted exactly for the chain terms they are the parts of, with admissible strikes. */
  lemma PartsExactly(code: u8, strike: u64, upper: Option<u64>, c: ChainTerms)
    ensures FromParts(code, strike, upper) == Some(c) <==>
              && c.Code() == code && c.Strike() == strike && c.UpperStrike() == upper
              && (code == 3 || 0 < strike) && (upper.Some? ==> strike < upper.value)
  {}

  /** Reading back the parts of chain terms gives those terms exactly when their strikes are admissible. */
  lemma PartsRoundTrip(c: ChainTerms)
    ensures FromParts(c.Code(), c.Strike(), c.UpperStrike())
         == if (c.ChainPutSpread? || c.Strike() > 0) && (c.UpperStrike().Some? ==> c.Strike() < c.UpperStrike().value)
            then Some(c) else None
  {}
}
