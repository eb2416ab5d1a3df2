/** Binding a broadcast request for quote, resolving a quote on it, and the bytes that quote signs. */
module Quote {
  import opened Common
  import opened Bytes
  import opened Terms
  import opened Orders
  import Spreads

  /** A point in time: whole seconds since the epoch, negative before it, and the nanoseconds within the second. */
  datatype Instant = Instant(seconds: int, nanos: nat)

  datatype Descriptor = Descriptor(
    chainId: u64, programId: Bytes32, isPut: bool, underlying: Bytes32, quote: Bytes32, collateral: Bytes32,
    settlement: Bytes32, expiry: Instant, market: Bytes32)

  datatype Rfq = Rfq(
    id: nat, side: TakerSide, terms: OptionTerms, quantity: u64, taker: Bytes32, options: seq<OptionTerms>,
    market: Descriptor)

  datatype QuoteError =
    | Order(order: OrderError)
    | Strikes(spread: Spreads.SpreadError)
    | MarketBinding(what: string)
    | TermsNotOffered(requested: OptionTerms, offered: seq<OptionTerms>)
    | Missing(field: string)
    | ValidUntilAfterMarketExpiry(validUntil: u64, limit: u64)
    | ValidUntilTooSoon(validUntil: u64, limit: u64)
    | ValidUntilWithinSettlementBuffer(validUntil: u64, limit: u64)

  /** The market address derived from program, underlying mint, quote mint, expiry and put flag. */
  type Derivation = (Bytes32, Bytes32, Bytes32, u64, bool) -> Bytes32

  datatype Binding = Binding(
    rfqId: nat, chainId: u64, programId: Bytes32, market: Bytes32, marketExpiry: u64, taker: Bytes32,
    terms: OptionTerms, quantity: u64, offered: seq<OptionTerms>, side: TakerSide)

  const I64_MAX: int := 0x7FFF_FFFF_FFFF_FFFF

  /** `SpreadType::try_from` of a chain discriminant. */
  function SpreadKind(code: u8): Result<Spreads.SpreadType, Spreads.SpreadError> {
    if code == 2 then Success(Spreads.CallSpread)
    else if code == 3 then Success(Spreads.PutSpread)
    else Failure(Spreads.InvalidType)
  }

  /** The spread branch of the binding. */
  function CheckSpread(terms: OptionTerms, quantity: u64, options: seq<OptionTerms>): Result<(), QuoteError> {
    if terms.UpperStrike().None? then Failure(MarketBinding("spread terms"))
    else if terms.PositionType() != CashPutType && terms.Strike() == 0 then Failure(Strikes(Spreads.InvalidStrikes))
    else
      var kind := SpreadKind(terms.ToChain().Code());
      if kind.Failure? then Failure(Strikes(kind.error))
      else
        var width := Spreads.ValidateStrikes(kind.value, terms.ToChain().Strike(), terms.UpperStrike().value);
        if width.Failure? then Failure(Strikes(width.error))
        else if quantity == 0 || |options| != 1 || options[0] != terms then Failure(MarketBinding("spread pair"))
        else Success(())
  }

  predicate Alien(option: OptionTerms, terms: OptionTerms) {
    option.IsSpread() || option.PositionType() != terms.PositionType()
  }

  /** `validate_market_binding`: the market address and its expiry. */
  function CheckMarket(rfq: Rfq, program: Bytes32, derive: Derivation): Result<u64, QuoteError> {
    var d := rfq.market;
    var collateral := if rfq.terms.IsSpread() || d.isPut then d.quote else d.underlying;
    var settlement := if rfq.terms.IsSpread() || !d.isPut then d.quote else d.underlying;
    if d.chainId != 0 then Failure(MarketBinding("chain_id"))
    else if d.programId != program then Failure(MarketBinding("program_id"))
    else if d.isPut != rfq.terms.PositionType().IsPut() then Failure(MarketBinding("terms"))
    else if d.collateral != collateral || d.settlement != settlement then
        Failure(MarketBinding("collateral/settlement mint"))
    else if d.expiry.seconds < 0 || d.expiry.nanos != 0 || d.expiry.seconds > I64_MAX then
        Failure(MarketBinding("expiry_ts"))
    else if d.market != derive(program, d.underlying, d.quote, d.expiry.seconds, d.isPut) then
      Failure(MarketBinding("market_pda"))
    else Success(d.expiry.seconds)
  }

  /** The options other than the requested terms, in order. */
  function Alternatives(options: seq<OptionTerms>, terms: OptionTerms): seq<OptionTerms> {
    if options == [] then []
    else
      var rest := Alternatives(options[..|options| - 1], terms);
      if options[|options| - 1] != terms then rest + [options[|options| - 1]] else rest
  }

  /** What `from_broadcast_for_program` decides. */
  function Bind(rfq: Rfq, program: Bytes32, derive: Derivation): Result<Binding, QuoteError> {
    var _ :- if rfq.terms.IsSpread() then CheckSpread(rfq.terms, rfq.quantity, rfq.options)
             else if exists k :: 0 <= k < |rfq.options| && Alien(rfq.options[k], rfq.terms)
                  then Failure(MarketBinding("physical order_options"))
             else Success(());
    var expiry :- CheckMarket(rfq, program, derive);
    Success(Binding(rfq.id, rfq.market.chainId, program, rfq.market.market, expiry, rfq.taker, rfq.terms, rfq.quantity,
                    [rfq.terms] + Alternatives(rfq.options, rfq.terms), rfq.side))
  }

  /** `from_broadcast_for_program` */
  method FromBroadcast(rfq: Rfq, program: Bytes32, derive: Derivation) returns (r: Result<Binding, QuoteError>)
    ensures r == Bind(rfq, program, derive)
  {
    if rfq.terms.IsSpread() {
      var checked := CheckSpread(rfq.terms, rfq.quantity, rfq.options);
      if checked.Failure? {
        return Failure(checked.error);
      }
    } else {
      for i := 0 to |rfq.options|
        invariant forall k :: 0 <= k < i ==> !Alien(rfq.options[k], rfq.terms)
      {
        if Alien(rfq.options[i], rfq.terms) {
          return Failure(MarketBinding("physical order_options"));
        }
      }
    }
    var expiry := CheckMarket(rfq, program, derive);
    if expiry.Failure? {
      return Failure(expiry.error);
    }
    var offered := [rfq.terms];
    for i := 0 to |rfq.options|
      invariant offered == [rfq.terms] + Alternatives(rfq.options[..i], rfq.terms)
    {
      assert rfq.options[..i + 1][..i] == rfq.options[..i];
      if rfq.options[i] != rfq.terms {
        offered := offered + [rfq.options[i]];
      }
    }
    assert rfq.options[..|rfq.options|] == rfq.options;
    r := Success(Binding(rfq.id, rfq.market.chainId, program, rfq.market.market, expiry.value, rfq.taker, rfq.terms,
                         rfq.quantity, offered, rfq.side));
  }

  /**
   * The offered terms are the requested ones, once and first, and every other option as often and in the order sent.
   */
  lemma {:induction false} AlternativesMeans(options: seq<OptionTerms>, terms: OptionTerms)
    ensures terms !in Alternatives(options, terms)
    ensures multiset(Alternatives(options, terms)) == multiset(options)[terms := 0]
  {
    if options != [] {
      var init, last := options[..|options| - 1], options[|options| - 1];
      AlternativesMeans(init, terms);
      assert options == init + [last];
    }
  }

  // ---- the builder ----

  datatype Builder = Builder(
    binding: Binding, terms: OptionTerms, price: Option<u64>, validUntil: Option<u64>, minValidUntil: Option<u64>,
    bufferEnd: Option<u64>, nonce: Option<u64>, maker: Option<Bytes32>)

  datatype Resolved = Resolved(price: u64, validUntil: u64, nonce: u64, maker: Bytes32)

  function Required<T>(value: Option<T>, field: string): Result<T, QuoteError> {
    if value.Some? then Success(value.value) else Failure(Missing(field))
  }

  /** `resolve` */
  function Resolve(q: Builder): Result<Resolved, QuoteError> {
    if q.terms !in q.binding.offered then Failure(TermsNotOffered(q.terms, q.binding.offered))
    else
      var validUntil :- Required(q.validUntil, "valid_until");
      var earliest :- Required(q.minValidUntil, "min_valid_until");
      if validUntil > q.binding.marketExpiry then
          Failure(ValidUntilAfterMarketExpiry(validUntil, q.binding.marketExpiry))
      else if validUntil < earliest then Failure(ValidUntilTooSoon(validUntil, earliest))
      else if q.bufferEnd.Some? && validUntil <= q.bufferEnd.value then
        Failure(ValidUntilWithinSettlementBuffer(validUntil, q.bufferEnd.value))
      else
        var price :- Required(q.price, "price");
        var nonce :- Required(q.nonce, "nonce");
        var maker :- Required(q.maker, "maker_owner");
        Success(Resolved(price, validUntil, nonce, maker))
  }

  /** The fields of `args_for` that both layouts share. */
  function OrderOf(q: Builder, r: Resolved): OrderFields {
    OrderFields(q.binding.chainId, q.binding.programId, q.binding.side, q.binding.market, q.binding.quantity, r.price,
             r.validUntil, r.maker, q.binding.taker, r.nonce)
  }

  /** `spread_args_for` */
  function SpreadArgsFor(q: Builder, r: Resolved): Result<SpreadArgs, QuoteError> {
    var kind := SpreadKind(q.terms.ToChain().Code());
    if kind.Failure? then Failure(Strikes(kind.error))
    else if q.terms.UpperStrike().None? then Failure(MarketBinding("spread terms"))
    else Success(SpreadArgs(OrderOf(q, r), kind.value, q.terms.ToChain().Strike(), q.terms.UpperStrike().value))
  }

  /** The bytes whose digest is the quote's order id, from `resolve` and `order_id`. */
  ghost function Signed(q: Builder): Result<bytes, QuoteError> {
    var r :- Resolve(q);
    if q.terms.IsSpread() then
      var a :- SpreadArgsFor(q, r);
      var valid := Spreads.ValidatePremium(a.kind, a.lower, a.upper, a.order.quantity, a.order.grossPrice);
      if valid.Failure? then Failure(Strikes(valid.error)) else Success(SpreadPreimage(a))
    else Success(PhysicalPreimage(OrderOf(q, r), q.terms.PositionType().IsPut(), q.terms.Strike()))
  }

  method PreimageOf(q: Builder) returns (r: Result<array<u8>, QuoteError>)
    ensures Signed(q).Failure? ==> r == Failure(Signed(q).error)
    ensures Signed(q).Success? ==> r.Success? && fresh(r.value) && r.value[..] == Signed(q).value
  {
    var resolved :- Resolve(q);
    if q.terms.IsSpread() {
      var a :- SpreadArgsFor(q, resolved);
      var built := BuildSpreadPreimage(a);
      if built.Failure? {
        return Failure(Strikes(built.error));
      }
      return Success(built.value);
    }
    var built := BuildOrderPreimage(PhysicalArgs(OrderOf(q, resolved), q.terms.PositionType(), q.terms.Strike()));
    r := match built case Success(b) => Success(b) case Failure(e) => Failure(Order(e));
  }

  // ---- what an accepted binding offers ----

  lemma {:induction false} OfferedFrom(options: seq<OptionTerms>, terms: OptionTerms, t: OptionTerms)
    requires t in Alternatives(options, terms)
    ensures t in options && t != terms
  {
    var init, last := options[..|options| - 1], options[|options| - 1];
    if t in Alternatives(init, terms) {
      OfferedFrom(init, terms, t);
    }
  }

  /**
   * Everything an accepted binding offers was sent, has the requested product and side of the market, and is
   * normalized.
   */
  lemma OfferedIsSound(rfq: Rfq, program: Bytes32, derive: Derivation, b: Binding, t: OptionTerms)
    requires Bind(rfq, program, derive) == Success(b) && t in b.offered
    ensures t == rfq.terms || t in rfq.options
    ensures t.PositionType() == rfq.terms.PositionType() && t.PositionType().IsPut() == rfq.market.isPut
    ensures !Unnormalized(t)
  {
    if t != rfq.terms {
      assert t in Alternatives(rfq.options, rfq.terms);
      OfferedFrom(rfq.options, rfq.terms, t);
      var k :| 0 <= k < |rfq.options| && rfq.options[k] == t;
      if !rfq.terms.IsSpread() {
        assert !Alien(rfq.options[k], rfq.terms);
      }
    }
  }

  /** A put spread with a zero lower strike is refused before anything else is looked at. */
  lemma ZeroLowerRefused(rfq: Rfq, program: Bytes32, derive: Derivation)
    requires Unnormalized(rfq.terms)
    ensures Bind(rfq, program, derive) == Failure(Strikes(Spreads.InvalidStrikes))
  {}

  // ---- what is accepted and what is refused ----

  /** Terms, quantity and options that can be quoted on. */
  ghost predicate TermsAccepted(rfq: Rfq) {
    match rfq.terms
    case CoveredCall(_) => forall k :: 0 <= k < |rfq.options| ==> rfq.options[k].CoveredCall?
    case CashSecuredPut(_) => forall k :: 0 <= k < |rfq.options| ==> rfq.options[k].CashSecuredPut?
    case CallSpread(l, u) => 0 < l < u && 0 < rfq.quantity && rfq.options == [rfq.terms]
    case PutSpread(l, u) => 0 < l < u && 0 < rfq.quantity && rfq.options == [rfq.terms]
    case CashPut(k) => 0 < k && 0 < rfq.quantity && rfq.options == [rfq.terms]
  }

  /** Collateral and settlement mints of each product. */
  ghost predicate MintsAccepted(terms: OptionTerms, d: Descriptor) {
    match terms
    case CoveredCall(_) => d.collateral == d.underlying && d.settlement == d.quote
    case CashSecuredPut(_) => d.collateral == d.quote && d.settlement == d.underlying
    case CallSpread(_, _) => d.collateral == d.quote && d.settlement == d.quote
    case PutSpread(_, _) => d.collateral == d.quote && d.settlement == d.quote
    case CashPut(_) => d.collateral == d.quote && d.settlement == d.quote
  }

  /** A market that belongs to the expected program and to the terms. */
  ghost predicate MarketAccepted(rfq: Rfq, program: Bytes32, derive: Derivation) {
    var d := rfq.market;
    && d.chainId == 0 && d.programId == program
    && d.isPut == (rfq.terms.CashSecuredPut? || rfq.terms.PutSpread? || rfq.terms.CashPut?)
    && MintsAccepted(rfq.terms, d)
    && d.expiry.nanos == 0 && 0 <= d.expiry.seconds <= 0x7FFF_FFFF_FFFF_FFFF
    && d.market == derive(program, d.underlying, d.quote, d.expiry.seconds, d.isPut)
  }

  /** A request is bound exactly when its terms and its market are acceptable, and then to its own values. */
  lemma BindExactly(rfq: Rfq, program: Bytes32, derive: Derivation)
    ensures Bind(rfq, program, derive).Success? <==> TermsAccepted(rfq) && MarketAccepted(rfq, program, derive)
    ensures Bind(rfq, program, derive).Success? ==>
              var b := Bind(rfq, program, derive).value;
              && b.rfqId == rfq.id && b.chainId == 0 && b.programId == program && b.market == rfq.market.market
              && b.marketExpiry == rfq.market.expiry.seconds && b.taker == rfq.taker && b.terms == rfq.terms
              && b.quantity == rfq.quantity && b.side == rfq.side
              && b.offered == [rfq.terms] + Alternatives(rfq.options, rfq.terms)
  {
    CheckSpreadExactly(rfq);
    CheckMarketExactly(rfq, program, derive);
    if !rfq.terms.IsSpread() {
      AliensExactly(rfq);
    }
  }

  lemma CheckSpreadExactly(rfq: Rfq)
    ensures rfq.terms.IsSpread() ==>
              (CheckSpread(rfq.terms, rfq.quantity, rfq.options).Success? <==> TermsAccepted(rfq))
  {
    if |rfq.options| == 1 {
      assert rfq.options == [rfq.options[0]];
    }
  }

  lemma CheckMarketExactly(rfq: Rfq, program: Bytes32, derive: Derivation)
    ensures CheckMarket(rfq, program, derive).Success? <==> MarketAccepted(rfq, program, derive)
    ensures CheckMarket(rfq, program, derive).Success? ==>
              CheckMarket(rfq, program, derive).value == rfq.market.expiry.seconds
  {}

  lemma AliensExactly(rfq: Rfq)
    requires !rfq.terms.IsSpread()
    ensures TermsAccepted(rfq) <==> forall k :: 0 <= k < |rfq.options| ==> !Alien(rfq.options[k], rfq.terms)
  {}

  /** The claim a refusal of a request makes. */
  ghost predicate RefusalTrue(rfq: Rfq, program: Bytes32, derive: Derivation, e: QuoteError) {
    var d := rfq.market;
    match e
    case Strikes(error) =>
      error == Spreads.InvalidStrikes && rfq.terms.IsSpread() && rfq.terms.UpperStrike().Some?
      && (|| (rfq.terms.Strike() == 0 && !rfq.terms.CashPut?)
          || rfq.terms.UpperStrike().value <= rfq.terms.ToChain().Strike())
    case MarketBinding(what) =>
      if what == "spread pair" then rfq.terms.IsSpread() && (rfq.quantity == 0 || rfq.options != [rfq.terms])
      else if what == "physical order_options" then !rfq.terms.IsSpread() && !TermsAccepted(rfq)
      else if what == "chain_id" then d.chainId != 0
      else if what == "program_id" then d.programId != program
      else if what == "terms" then d.isPut != (rfq.terms.CashSecuredPut? || rfq.terms.PutSpread? || rfq.terms.CashPut?)
      else if what == "collateral/settlement mint" then !MintsAccepted(rfq.terms, d)
      else if what == "expiry_ts" then d.expiry.nanos != 0 || !(0 <= d.expiry.seconds <= 0x7FFF_FFFF_FFFF_FFFF)
      else what == "market_pda" && 0 <= d.expiry.seconds <= U64_MAX
           && d.market != derive(program, d.underlying, d.quote, d.expiry.seconds, d.isPut)
    case _ => false
  }

  lemma SpreadRefusalTrue(rfq: Rfq, program: Bytes32, derive: Derivation)
    requires rfq.terms.IsSpread() && CheckSpread(rfq.terms, rfq.quantity, rfq.options).Failure?
    ensures RefusalTrue(rfq, program, derive, CheckSpread(rfq.terms, rfq.quantity, rfq.options).error)
  {
    if |rfq.options| == 1 {
      assert rfq.options == [rfq.options[0]];
    }
  }

  lemma MarketRefusalTrue(rfq: Rfq, program: Bytes32, derive: Derivation)
    requires CheckMarket(rfq, program, derive).Failure?
    ensures RefusalTrue(rfq, program, derive, CheckMarket(rfq, program, derive).error)
  {}

  /** Whatever a refused request is told is so. */
  lemma BindRefusesTruly(rfq: Rfq, program: Bytes32, derive: Derivation)
    requires Bind(rfq, program, derive).Failure?
    ensures RefusalTrue(rfq, program, derive, Bind(rfq, program, derive).error)
  {
    if rfq.terms.IsSpread() && CheckSpread(rfq.terms, rfq.quantity, rfq.options).Failure? {
      SpreadRefusalTrue(rfq, program, derive);
    } else {
      if !rfq.terms.IsSpread() {
        AliensExactly(rfq);
      }
      if CheckMarket(rfq, program, derive).Failure? {
        MarketRefusalTrue(rfq, program, derive);
      }
    }
  }

  /** Whatever a quote that does not resolve is told is so. */
  lemma ResolveRefusesTruly(q: Builder)
    requires Resolve(q).Failure?
    ensures match Resolve(q).error
            case TermsNotOffered(requested, offered) =>
              requested == q.terms && offered == q.binding.offered && requested !in offered
            case Missing(field) =>
              || (field == "valid_until" && q.validUntil.None?) || (field == "min_valid_until" && q.minValidUntil.None?)
              || (field == "price" && q.price.None?) || (field == "nonce" && q.nonce.None?)
              || (field == "maker_owner" && q.maker.None?)
            case ValidUntilAfterMarketExpiry(v, limit) =>
              q.validUntil == Some(v) && limit == q.binding.marketExpiry && limit < v
            case ValidUntilTooSoon(v, limit) => q.validUntil == Some(v) && q.minValidUntil == Some(limit) && v < limit
            case ValidUntilWithinSettlementBuffer(v, limit) =>
              q.validUntil == Some(v) && q.bufferEnd == Some(limit) && v <= limit
            case _ => false
  {}

  // ---- what a signed quote commits to ----

  /** Everything the maker agrees to: the shared order fields and the full public terms. */
  datatype Commitment = Commitment(order: OrderFields, terms: OptionTerms)

  function Commits(q: Builder): Commitment
    requires Resolve(q).Success?
  {
    Commitment(OrderOf(q, Resolve(q).value), q.terms)
  }

  /** On normalized terms, equal preimages mean equal commitments. */
  lemma SignedDetermines(q: Builder, q': Builder)
    requires Signed(q).Success? && Signed(q').Success? && !Unnormalized(q.terms) && !Unnormalized(q'.terms)
    ensures Signed(q) == Signed(q') <==> Commits(q) == Commits(q')
  {
    var r, r' := Resolve(q).value, Resolve(q').value;
    if q.terms.IsSpread() && q'.terms.IsSpread() {
      SpreadInjective(SpreadArgsFor(q, r).value, SpreadArgsFor(q', r').value);
      SpreadTermsDetermined(q.terms, q'.terms);
    } else if !q.terms.IsSpread() && !q'.terms.IsSpread() {
      PhysicalInjective(OrderOf(q, r), q.terms.PositionType().IsPut(), q.terms.Strike(),
                        OrderOf(q', r'), q'.terms.PositionType().IsPut(), q'.terms.Strike());
    }
  }

  lemma SpreadTermsDetermined(t: OptionTerms, t': OptionTerms)
    requires t.IsSpread() && t'.IsSpread() && !Unnormalized(t) && !Unnormalized(t')
    ensures t == t' <==> t.ToChain().Code() == t'.ToChain().Code() && t.ToChain().Strike() == t'.ToChain().Strike()
                         && t.UpperStrike() == t'.UpperStrike()
  {}

  /**
   * Signed terms are unambiguous: two quotes on accepted bindings sign the same bytes exactly when they agree on side,
   * full terms, chain, program, market, quantity, price, expiry, maker, taker and nonce.
   */
  lemma SignedUnambiguous(rfq: Rfq, program: Bytes32, q: Builder, rfq': Rfq, program': Bytes32, q': Builder,
        derive: Derivation)
    requires Bind(rfq, program, derive) == Success(q.binding) && Signed(q).Success?
    requires Bind(rfq', program', derive) == Success(q'.binding) && Signed(q').Success?
    ensures Signed(q) == Signed(q') <==> Commits(q) == Commits(q')
  {
    OfferedIsSound(rfq, program, derive, q.binding, q.terms);
    OfferedIsSound(rfq', program', derive, q'.binding, q'.terms);
    SignedDetermines(q, q');
  }

  /** Some quote is accepted and signed. */
  lemma SomeQuoteSigned() returns (rfq: Rfq, program: Bytes32, q: Builder, derive: Derivation)
    ensures Bind(rfq, program, derive) == Success(q.binding) && Signed(q).Success?
  {
    program := Zeros(32);
    derive := (p, u, v, e, f) => Zeros(32);
    var market := Descriptor(0, program, false, program, program, program, program, Instant(1, 0), program);
    rfq := Rfq(0, Buy, CoveredCall(1), 1, program, [], market);
    q := Builder(Bind(rfq, program, derive).value, rfq.terms, Some(1), Some(1), Some(0), None, Some(1), Some(program));
  }

  /** What acceptance says of the market. */
  lemma BoundMarket(rfq: Rfq, program: Bytes32, derive: Derivation, b: Binding)
    requires Bind(rfq, program, derive) == Success(b)
    ensures var d := rfq.market;
            && d.chainId == b.chainId == 0 && d.programId == b.programId == program && d.market == b.market
            && d.expiry == Instant(b.marketExpiry, 0)
                && b.market == derive(program, d.underlying, d.quote, b.marketExpiry, d.isPut)
            && d.collateral == (if rfq.terms.IsSpread() || d.isPut then d.quote else d.underlying)
            && d.settlement == (if rfq.terms.IsSpread() || !d.isPut then d.quote else d.underlying)
  {}

  /** What a market address is derived from. */
  datatype MarketInputs = MarketInputs(program: Bytes32, underlying: Bytes32, quote: Bytes32, expiry: int, isPut: bool)

  function InputsOf(program: Bytes32, d: Descriptor): MarketInputs {
    MarketInputs(program, d.underlying, d.quote, d.expiry.seconds, d.isPut)
  }

  /** Two different inputs that derive one market address. */
  ghost predicate Collide(derive: Derivation, x: MarketInputs, y: MarketInputs) {
    && x != y && 0 <= x.expiry <= U64_MAX && 0 <= y.expiry <= U64_MAX
    && derive(x.program, x.underlying, x.quote, x.expiry, x.isPut)
        == derive(y.program, y.underlying, y.quote, y.expiry, y.isPut)
  }

  /** Bindings to one market with one product have the same descriptor, or exhibit a collision of the derivation. */
  lemma MarketFixesDescriptor(
      rfq: Rfq, program: Bytes32, rfq': Rfq, program': Bytes32, derive: Derivation, b: Binding, b': Binding)
    requires Bind(rfq, program, derive) == Success(b) && Bind(rfq', program', derive) == Success(b')
    requires b.market == b'.market && rfq.terms.PositionType() == rfq'.terms.PositionType()
    ensures var x, y := InputsOf(program, rfq.market), InputsOf(program', rfq'.market);
            && (rfq.market == rfq'.market <==> x == y)
            && (rfq.market == rfq'.market || Collide(derive, x, y))
  {
    BoundMarket(rfq, program, derive, b);
    BoundMarket(rfq', program', derive, b');
  }

  /**
   * Equal signed bytes mean the same whole descriptor, mints, expiry and put flag included, unless two different
   * markets of the program derive one address.
   */
  lemma SignedFixesMarket(
      rfq: Rfq, program: Bytes32, q: Builder, rfq': Rfq, program': Bytes32, q': Builder, derive: Derivation)
    requires Bind(rfq, program, derive) == Success(q.binding) && Signed(q).Success?
    requires Bind(rfq', program', derive) == Success(q'.binding) && Signed(q').Success?
    requires Signed(q) == Signed(q')
    ensures program == program'
    ensures rfq.market == rfq'.market || Collide(derive, InputsOf(program, rfq.market), InputsOf(program, rfq'.market))
  {
    SignedUnambiguous(rfq, program, q, rfq', program', q', derive);
    assert Commits(q).order.market == Commits(q').order.market;
    assert Commits(q).order.programId == Commits(q').order.programId;
    BoundMarket(rfq, program, derive, q.binding);
    BoundMarket(rfq', program', derive, q'.binding);
    OfferedIsSound(rfq, program, derive, q.binding, q.terms);
    OfferedIsSound(rfq', program', derive, q'.binding, q'.terms);
    MarketFixesDescriptor(rfq, program, rfq', program', derive, q.binding, q'.binding);
  }

  /**
   * Without the binding's refusal the layouts would confuse a cash put with the zero-lower put spread of its strike.
   */
  lemma UnnormalizedCollides(q: Builder, q': Builder, k: u64)
    requires q.terms == CashPut(k) && q' == q.(terms := PutSpread(0, k))
    requires q.terms in q.binding.offered && q'.terms in q.binding.offered
    ensures Signed(q) == Signed(q')
  {}

  // ---- the message beside the signature ----

  /** A quote message without its signature. */
  datatype Message = Message(
    rfqId: nat, terms: OptionTerms, side: TakerSide, price: u64, validUntil: u64, nonce: u64, orderId: Bytes32)

  function Assemble(q: Builder, r: Resolved, orderId: Bytes32): Message {
    Message(q.binding.rfqId, q.terms, q.binding.side, r.price, r.validUntil, r.nonce, orderId)
  }

  /** The documented layout of an order on public terms. */
  function Laid(o: OrderFields, terms: OptionTerms): bytes {
    match terms
    case CoveredCall(k) => Joined(Fields(o, 0, k), 13)
    case CashSecuredPut(k) => Joined(Fields(o, 1, k), 13)
    case CallSpread(l, u) => Joined(Fields(o, 2, l) + [U64(u)], 14)
    case PutSpread(l, u) => Joined(Fields(o, 3, l) + [U64(u)], 14)
    case CashPut(k) => Joined(Fields(o, 3, 0) + [U64(k)], 14)
  }

  /** The order a server reads from the request it broadcast, the maker's owner and the message it received. */
  function ServerOrder(rfq: Rfq, maker: Bytes32, m: Message): OrderFields {
    OrderFields(rfq.market.chainId, rfq.market.programId, m.side, rfq.market.market, rfq.quantity, m.price,
                m.validUntil, maker, rfq.taker, m.nonce)
  }

  lemma SpreadLaid(a: SpreadArgs, terms: OptionTerms)
    requires terms.IsSpread() && a.lower == terms.ToChain().Strike() && Some(a.upper) == terms.UpperStrike()
    requires KindByte(a.kind) == terms.ToChain().Code()
    ensures SpreadPreimage(a) == Laid(a.order, terms)
  {
    SpreadLayout(a);
  }

  /** The signed bytes are the documented layout of what the quote commits to. */
  lemma SignedIsLaid(q: Builder)
    requires Signed(q).Success?
    ensures Signed(q).value == Laid(Commits(q).order, Commits(q).terms)
  {
    var r := Resolve(q).value;
    if q.terms.IsSpread() {
      SpreadLaid(SpreadArgsFor(q, r).value, q.terms);
    } else {
      PhysicalLayout(OrderOf(q, r), q.terms.PositionType().IsPut(), q.terms.Strike());
    }
  }

  /** The tag and the side of the signed bytes, as literal bytes. */
  lemma SignedHeader(q: Builder)
    requires Signed(q).Success?
    ensures |Signed(q).value| >= 46
    ensures Signed(q).value[..4] == [0x41, 0x43, 0x54, 0x41]
    ensures Signed(q).value[44] == (if q.binding.side == Buy then 1 else 0)
  {
    var r := Resolve(q).value;
    if q.terms.IsSpread() {
      SpreadHeader(SpreadArgsFor(q, r).value);
    } else {
      PhysicalHeader(OrderOf(q, r), q.terms.PositionType().IsPut(), q.terms.Strike());
    }
  }

  lemma ServerReadsOrder(rfq: Rfq, program: Bytes32, derive: Derivation, q: Builder, orderId: Bytes32)
    requires Bind(rfq, program, derive) == Success(q.binding) && Resolve(q).Success?
    ensures ServerOrder(rfq, q.maker.value, Assemble(q, Resolve(q).value, orderId)) == Commits(q).order
  {
    BoundMarket(rfq, program, derive, q.binding);
  }

  /**
   * A quote resolves exactly when it is complete, on offered terms and inside the window, and then to the values given.
   */
  lemma ResolveExactly(q: Builder, price: u64, validUntil: u64, nonce: u64, maker: Bytes32)
    ensures Resolve(q) == Success(Resolved(price, validUntil, nonce, maker)) <==>
              && q.price == Some(price) && q.validUntil == Some(validUntil) && q.nonce == Some(nonce)
                  && q.maker == Some(maker)
              && q.terms in q.binding.offered
              && q.minValidUntil.Some? && q.minValidUntil.value <= validUntil <= q.binding.marketExpiry
              && (q.bufferEnd.Some? ==> q.bufferEnd.value < validUntil)
  {}

  /** A spread's strikes are in order, and its quantity and price positive and the price below the width. */
  ghost predicate PricedWithin(terms: OptionTerms, quantity: u64, price: u64) {
    match terms
    case CallSpread(lower, upper) => 0 < lower < upper && 0 < quantity && 0 < price < upper - lower
    case PutSpread(lower, upper) => lower < upper && 0 < quantity && 0 < price < upper - lower
    case CashPut(strike) => 0 < quantity && 0 < price < strike
    case _ => true
  }

  /** A quote is signed exactly when it resolves and, for a spread, is priced within its strikes. */
  lemma SignedExactly(q: Builder)
    ensures Signed(q).Success? <==> Resolve(q).Success? && PricedWithin(q.terms, q.binding.quantity, q.price.value)
    ensures Resolve(q).Failure? ==> Signed(q) == Failure(Resolve(q).error)
    ensures Resolve(q).Success? && Signed(q).Failure? ==>
              Signed(q).error == Strikes(Spreads.InvalidStrikes) || Signed(q).error == Strikes(Spreads.InvalidPremium)
  {
    if q.terms.IsSpread() && q.price.Some? {
      var lower, upper := q.terms.ToChain().Strike(), q.terms.UpperStrike().value;
      var kind := if q.terms.CallSpread? then Spreads.CallSpread else Spreads.PutSpread;
      Spreads.ValidatePremiumExactly(kind, lower, upper, q.binding.quantity, q.price.value);
    }
  }

  /** A resolved quote is on terms the request offered and expires by the market's expiry. */
  lemma ResolvedInWindow(rfq: Rfq, program: Bytes32, derive: Derivation, q: Builder)
    requires Bind(rfq, program, derive) == Success(q.binding) && Resolve(q).Success?
    ensures q.terms == rfq.terms || q.terms in rfq.options
    ensures Resolve(q).value.validUntil <= rfq.market.expiry.seconds && rfq.market.expiry.nanos == 0
  {
    OfferedIsSound(rfq, program, derive, q.binding, q.terms);
    BoundMarket(rfq, program, derive, q.binding);
  }

  /**
   * The message and the signed bytes come from the same values: a server rebuilds exactly the signed bytes, and so the
   * order id, from the request it broadcast, the maker's owner and the message alone.
   */
  lemma ServerRebuilds(rfq: Rfq, program: Bytes32, derive: Derivation, q: Builder, hash: bytes -> Bytes32)
    requires Bind(rfq, program, derive) == Success(q.binding) && Signed(q).Success?
    ensures var m := Assemble(q, Resolve(q).value, hash(Signed(q).value));
            && m.rfqId == rfq.id && m.side == rfq.side
                && Laid(ServerOrder(rfq, q.maker.value, m), m.terms) == Signed(q).value
            && m.orderId == hash(Laid(ServerOrder(rfq, q.maker.value, m), m.terms))
  {
    SignedIsLaid(q);
    ServerReadsOrder(rfq, program, derive, q, hash(Signed(q).value));
  }
}
