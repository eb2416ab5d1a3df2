/** Wrapping native SOL to fund a position: what is budgeted, what is refused, and what the transaction then does. */
module Wsol {
  import opened Common
  import opened Bytes
  import Amounts
  import FixedPoint

  type Key = Bytes32

  datatype WsolError =
    | InvalidAccountData
    | InvalidNativeTokenProgram(program: Key)
    | MissingFundingAccount(account: Key)
    | SettlementAmountOverflow
    | NativeSolBudgetOverflow
    | InsufficientNativeSol(needed: u64, available: u64)

  // ---- the budget ----

  datatype Budget = Budget(owner: Key, wrap: u64, rent: u64, reserve: u64) {
    /** `required_lamports`: three checked additions. */
    function Required(fee: u64): Result<u64, WsolError> {
      var a := CheckedAdd(wrap, rent);
      var b := if a.Some? then CheckedAdd(a.value, fee) else None;
      var c := if b.Some? then CheckedAdd(b.value, reserve) else None;
      if c.Some? then Success(c.value) else Failure(NativeSolBudgetOverflow)
    }

    /** `validate` */
    function Validate(available: u64, fee: u64): Result<(), WsolError> {
      var needed :- Required(fee);
      if available < needed then Failure(InsufficientNativeSol(needed, available)) else Success(())
    }

    /** The checked additions never decide differently from unbounded ones. */
    lemma ValidateIsExact(available: u64, fee: u64)
      ensures Validate(available, fee).Success? <==> wrap + rent + fee + reserve <= available
      ensures Validate(available, fee) == Failure(NativeSolBudgetOverflow) <==> wrap + rent + fee + reserve > U64_MAX
      ensures available < wrap + rent + fee + reserve <= U64_MAX ==>
                Validate(available, fee) == Failure(InsufficientNativeSol(wrap + rent + fee + reserve, available))
    {}
  }

  datatype Decision = NotNeeded | Wrap(lamports: u64) | Insufficient(needed: u64, available: u64)

  /** `decide_wrap`: the saturating pre-check. */
  function DecideWrap(existing: u64, expected: u64, balance: u64, reserve: u64, rent: u64): Decision {
    if existing >= expected then NotNeeded
    else
      var wrap: u64 := expected - existing;
      var needed := SaturatingAdd(SaturatingAdd(wrap, rent), reserve);
      if balance < needed then Insufficient(needed, balance) else Wrap(wrap)
  }

  /**
   * The pre-check never refuses a balance that covers the exact sum, wraps exactly the shortfall, and lets a balance
   * that does not cover it through only when that balance is the largest there is.
   */
  lemma DecideWrapIsExact(existing: u64, expected: u64, balance: u64, reserve: u64, rent: u64)
    ensures var d := DecideWrap(existing, expected, balance, reserve, rent);
            && (d.NotNeeded? <==> existing >= expected)
            && (d.Wrap? ==> existing + d.lamports == expected && d.lamports > 0)
            && (d.Wrap? <==>
                  existing < expected && (expected - existing + rent + reserve <= balance || balance == U64_MAX))
            && (d.Insufficient? ==>
                  && balance < d.needed && d.available == balance
                  && d.needed == Min(expected - existing + rent + reserve, U64_MAX))
  {}

  /** The largest balance does get through without covering the sum, and the final check then refuses it. */
  lemma UncoveredWrapPasses()
    ensures DecideWrap(0, 1, U64_MAX, U64_MAX, 1) == Wrap(1) && U64_MAX < 1 + 1 + U64_MAX
    ensures Budget(seq(32, i => 0), 1, 1, U64_MAX).Validate(U64_MAX, 0) == Failure(NativeSolBudgetOverflow)
  {}

  // ---- planning ----

  /** The ids of the token program and of the native mint. */
  datatype Ids = Ids(tokenProgram: Key, nativeMint: Key)

  datatype Account = Account(program: Key, data: bytes)

  function ReadU64(b: bytes): u64
    requires |b| == 8
  {
    Widths();
    FromLe(b)
  }

  /** `parse_wsol_balance` */
  function ParseBalance(ids: Ids, account: Account, owner: Key, program: Key): Result<u64, WsolError> {
    if account.program != program || |account.data| < 72 then Failure(InvalidAccountData)
    else if account.data[..32] != ids.nativeMint || account.data[32..64] != owner then Failure(InvalidAccountData)
    else Success(ReadU64(account.data[64..72]))
  }

  /** An account of the token program that holds `n` wrapped lamports of `owner`, byte by byte. */
  ghost predicate HoldsWsol(ids: Ids, account: Account, owner: Key, program: Key, n: u64) {
    && account.program == program && |account.data| >= 72
    && account.data[..32] == ids.nativeMint && account.data[32..64] == owner && account.data[64..72] == ToLe(n, 8)
  }

  /** A balance is read exactly from an account that holds it; any other account is refused. */
  lemma ParseBalanceExactly(ids: Ids, account: Account, owner: Key, program: Key, n: u64)
    ensures ParseBalance(ids, account, owner, program) == Success(n) <==> HoldsWsol(ids, account, owner, program, n)
    ensures ParseBalance(ids, account, owner, program).Failure? ==>
              ParseBalance(ids, account, owner, program) == Failure(InvalidAccountData)
  {
    Widths();
    FromToLe(n, 8);
    if ParseBalance(ids, account, owner, program) == Success(n) {
      ToFromLe(account.data[64..72]);
    }
  }

  datatype Ix =
    | CreateAccount(payer: Key, account: Key)
    | Transfer(source: Key, target: Key, lamports: u64)
    | SyncNative(account: Key)
    | Deposit(holder: Key, account: Key, position: Key)

  datatype FundArgs = FundArgs(
    holder: Key, feePayer: Key, fundingAta: Key, positionAta: Key, program: Key, expected: u64, reserve: u64,
    createAtas: bool)
  {
    /** Rent for new token accounts comes out of the holder's balance. */
    predicate HolderPays() {
      createAtas && feePayer == holder
    }
  }

  /** What the node answers while planning. */
  datatype Answers = Answers(funding: Option<Account>, position: Option<Account>, balance: u64, rent: u64)

  datatype WrapPlan = NoWrap | WrapWith(instructions: seq<Ix>, budget: Budget)

  /** The wrapped balance and the rent still to pay for the funding account. */
  function FundingState(ids: Ids, a: FundArgs, chain: Answers): Result<(u64, u64), WsolError> {
    match chain.funding
    case Some(account) =>
      var existing :- ParseBalance(ids, account, a.holder, a.program);
      Success((existing, 0))
    case None =>
      if a.createAtas then Success((0, if a.feePayer == a.holder then chain.rent else 0))
      else Failure(MissingFundingAccount(a.fundingAta))
  }

  /** The holder has `existing` wrapped lamports: in the account read, or none in an account still to be created. */
  ghost predicate FundingHas(ids: Ids, a: FundArgs, chain: Answers, existing: u64) {
    match chain.funding
    case Some(account) => HoldsWsol(ids, account, a.holder, a.program, existing)
    case None => a.createAtas && existing == 0
  }

  /** The funding account is read as what it holds, and only a missing one the holder creates costs rent. */
  lemma FundingStateExactly(ids: Ids, a: FundArgs, chain: Answers, existing: u64)
    ensures FundingHas(ids, a, chain, existing) <==>
              FundingState(ids, a, chain)
                == Success((existing, if chain.funding.None? && a.feePayer == a.holder then chain.rent else 0))
    ensures chain.funding.None? && !a.createAtas ==>
              FundingState(ids, a, chain) == Failure(MissingFundingAccount(a.fundingAta))
  {
    if chain.funding.Some? {
      ParseBalanceExactly(ids, chain.funding.value, a.holder, a.program, existing);
    }
  }

  function PositionRent(a: FundArgs, chain: Answers): u64 {
    if a.HolderPays() && chain.position.None? then chain.rent else 0
  }

  /** `plan_wsol_wrap` */
  function Plan(ids: Ids, a: FundArgs, chain: Answers): Result<WrapPlan, WsolError> {
    var state :- FundingState(ids, a, chain);
    if state.0 >= a.expected then Success(NoWrap)
    else
      match DecideWrap(state.0, a.expected, chain.balance, a.reserve, SaturatingAdd(state.1, PositionRent(a, chain)))
      case NotNeeded => Success(NoWrap)
      case Insufficient(needed, available) => Failure(InsufficientNativeSol(needed, available))
      case Wrap(lamports) =>
        var rent := CheckedAdd(state.1, PositionRent(a, chain));
        if rent.None? then Failure(NativeSolBudgetOverflow)
        else Success(WrapWith([Transfer(a.holder, a.fundingAta, lamports), SyncNative(a.fundingAta)],
                              Budget(a.holder, lamports, rent.value, a.reserve)))
  }

  /** How many token accounts the holder pays to create. */
  function MissingPaid(a: FundArgs, chain: Answers): nat {
    if !a.HolderPays() then 0
    else (if chain.funding.None? then 1 else 0) + (if chain.position.None? then 1 else 0)
  }

  lemma RentOf(ids: Ids, a: FundArgs, chain: Answers)
    requires FundingState(ids, a, chain).Success?
    ensures chain.rent * MissingPaid(a, chain) == FundingState(ids, a, chain).value.1 + PositionRent(a, chain)
  {}

  ghost predicate PlansWrap(plan: Result<WrapPlan, WsolError>) {
    plan.Success? && plan.value.WrapWith?
  }

  /** The wrap a readable funding account needs, the rent, and the reserve: what a plan must find in the balance. */
  function Needed(a: FundArgs, chain: Answers, existing: u64): int {
    a.expected - existing + chain.rent * MissingPaid(a, chain) + a.reserve
  }

  /**
   * A plan tops what the holder has wrapped up to exactly the settlement, charges rent once per missing account the
   * holder pays for, and exists exactly when the balance it read covers the exact sum - or is the largest balance there
   * is, while the rents alone still add up.
   */
  lemma PlanIsExact(ids: Ids, a: FundArgs, chain: Answers, existing: u64)
    requires FundingHas(ids, a, chain, existing) && existing < a.expected
    ensures var plan := Plan(ids, a, chain);
            && (PlansWrap(plan) ==>
                  && existing + plan.value.budget.wrap == a.expected
                  && plan.value.budget.rent == chain.rent * MissingPaid(a, chain)
                  && plan.value.budget.owner == a.holder && plan.value.budget.reserve == a.reserve
                  && plan.value.instructions
                      == [Transfer(a.holder, a.fundingAta, plan.value.budget.wrap), SyncNative(a.fundingAta)])
            && (PlansWrap(plan) <==>
                  || Needed(a, chain, existing) <= chain.balance
                  || (chain.balance == U64_MAX && chain.rent * MissingPaid(a, chain) <= U64_MAX))
            && !(plan.Success? && plan.value.NoWrap?)
            && (plan.Failure? ==>
                  plan.error == if chain.balance == U64_MAX then NativeSolBudgetOverflow
                                else InsufficientNativeSol(Min(Needed(a, chain, existing), U64_MAX), chain.balance))
  {
    FundingStateExactly(ids, a, chain, existing);
    RentOf(ids, a, chain);
  }

  /** Nothing is wrapped exactly when the holder already has the settlement wrapped. */
  lemma NoWrapExactly(ids: Ids, a: FundArgs, chain: Answers, existing: u64)
    requires FundingHas(ids, a, chain, existing)
    ensures Plan(ids, a, chain) == Success(NoWrap) <==> a.expected <= existing
  {
    FundingStateExactly(ids, a, chain, existing);
  }

  ghost predicate Accepted(plan: Result<WrapPlan, WsolError>, available: u64, fee: u64) {
    PlansWrap(plan) && plan.value.budget.Validate(available, fee).Success?
  }

  /**
   * Pre-check and final check together, on one balance: accepted exactly when it covers wrap, rent, fee and reserve.
   */
  lemma ChecksAreExact(ids: Ids, a: FundArgs, chain: Answers, existing: u64, fee: u64)
    requires FundingHas(ids, a, chain, existing) && existing < a.expected
    ensures Accepted(Plan(ids, a, chain), chain.balance, fee) <==> Needed(a, chain, existing) + fee <= chain.balance
  {
    PlanIsExact(ids, a, chain, existing);
    var plan := Plan(ids, a, chain);
    if PlansWrap(plan) {
      plan.value.budget.ValidateIsExact(chain.balance, fee);
    }
  }

  // ---- the instruction list ----

  function DepositIx(a: FundArgs): Ix {
    Deposit(a.holder, a.fundingAta, a.positionAta)
  }

  function Creations(a: FundArgs): seq<Ix> {
    if a.createAtas then [CreateAccount(a.feePayer, a.fundingAta), CreateAccount(a.feePayer, a.positionAta)] else []
  }

  function FundIxs(a: FundArgs): seq<Ix> {
    Creations(a) + [DepositIx(a)]
  }

  datatype Prepared = Prepared(instructions: seq<Ix>, budget: Option<Budget>)

  function Prepare(ids: Ids, a: FundArgs, chain: Answers): Result<Prepared, WsolError> {
    var plan :- Plan(ids, a, chain);
    match plan
    case NoWrap => Success(Prepared(FundIxs(a), None))
    case WrapWith(wrap, budget) => Success(Prepared(Creations(a) + wrap + [DepositIx(a)], Some(budget)))
  }

  /** What a physically settled position is funded with. */
  datatype Settlement =
    | CallSettlement(strike: u64, quantity: u64, quoteDecimals: u8, underlyingDecimals: u8)
    | PutSettlement(quantity: u64)

  /** `required_settlement` of the two physical products. */
  function RequiredSettlement(s: Settlement): Result<u64, WsolError> {
    match s
    case PutSettlement(quantity) => Success(quantity)
    case CallSettlement(strike, quantity, quoteDecimals, underlyingDecimals) =>
      var amount := Amounts.ScaledQuoteAmount(strike, quantity, quoteDecimals, underlyingDecimals);
      if amount.Some? then Success(amount.value) else Failure(SettlementAmountOverflow)
  }

  /** A call is funded with the exact strike amount rounded down, if its decimals are supported and it fits. */
  lemma SettlementIsExact(s: Settlement)
    requires s.CallSettlement?
    ensures RequiredSettlement(s)
         == (var exact := FixedPoint.Exact(s.strike, s.quantity, s.quoteDecimals, s.underlyingDecimals, false);
             if s.quoteDecimals <= 18 && s.underlyingDecimals <= 18 && exact <= U64_MAX
             then Success(exact) else Failure(SettlementAmountOverflow))
  {
    Amounts.ScaledQuoteAmountIsExact(s.strike, s.quantity, s.quoteDecimals, s.underlyingDecimals);
  }

  datatype NativeSolFunding = Disabled | WrapIfNeeded(reserve: u64)

  datatype FundRequest = FundRequest(
    holder: Key, feePayer: Key, fundingAta: Key, positionAta: Key, mint: Key, program: Key, createAtas: bool,
    native: NativeSolFunding, settlement: Settlement)
  {
    function Funding(expected: u64, reserve: u64): FundArgs {
      FundArgs(holder, feePayer, fundingAta, positionAta, program, expected, reserve, createAtas)
    }

    /** The request as far as its instructions are concerned. */
    function Plain(): FundArgs {
      Funding(0, 0)
    }

    /** Wrapping is enabled and would be of the settlement mint. */
    predicate Wraps(ids: Ids) {
      native.WrapIfNeeded? && mint == ids.nativeMint
    }
  }

  /** `build_fund_position_ixs`: the account creations asked for, then the deposit. */
  method BuildFundIxs(q: FundRequest) returns (ixs: seq<Ix>)
    ensures ixs == FundIxs(q.Plain())
  {
    ixs := [];
    if q.createAtas {
      ixs := ixs + [CreateAccount(q.feePayer, q.fundingAta)];
      ixs := ixs + [CreateAccount(q.feePayer, q.positionAta)];
    }
    ixs := ixs + [DepositIx(q.Plain())];
  }

  /** The native path: plan, then pop the deposit, extend by the wrap and push the deposit back. */
  method PrepareWrapped(ids: Ids, a: FundArgs, built: seq<Ix>, chain: Answers) returns (r: Result<Prepared, WsolError>)
    requires built == FundIxs(a)
    ensures r == Prepare(ids, a, chain)
  {
    var ixs := built;
    var plan :- Plan(ids, a, chain);
    if plan.NoWrap? {
      return Success(Prepared(ixs, None));
    }
    var deposit := ixs[|ixs| - 1];
    ixs := ixs[..|ixs| - 1];
    ixs := ixs + plan.instructions;
    ixs := ixs + [deposit];
    r := Success(Prepared(ixs, Some(plan.budget)));
  }

  /**
   * The funding path of `prepare_fund_position`. Without wrapping, or for another mint, the instructions are left as
   * built; otherwise the settlement and the program are checked, and the wrap pair, if any, sits immediately before the
   * unchanged deposit, after everything that preceded it.
   */
  method PrepareFundPosition(ids: Ids, q: FundRequest, chain: Answers) returns (r: Result<Prepared, WsolError>)
    ensures !q.Wraps(ids) ==> r == Success(Prepared(FundIxs(q.Plain()), None))
    ensures q.Wraps(ids) <==> q.native.WrapIfNeeded? && q.mint == ids.nativeMint
    ensures q.Wraps(ids) ==>
              var expected := RequiredSettlement(q.settlement);
              r == if expected.Failure? then Failure(expected.error)
                   else if expected.value == 0 then Failure(InvalidAccountData)
                   else if q.program != ids.tokenProgram then Failure(InvalidNativeTokenProgram(q.program))
                   else Prepare(ids, FundArgs(q.holder, q.feePayer, q.fundingAta, q.positionAta, q.program,
                                              expected.value, q.native.reserve, q.createAtas), chain)
    ensures r.Success? ==>
              var created := [CreateAccount(q.feePayer, q.fundingAta), CreateAccount(q.feePayer, q.positionAta)];
              var wrap := if r.value.budget.None? then []
                  else [Transfer(q.holder, q.fundingAta, r.value.budget.value.wrap), SyncNative(q.fundingAta)];
              && r.value.instructions
                  == (if q.createAtas then created else []) + wrap + [Deposit(q.holder, q.fundingAta, q.positionAta)]
              && (r.value.budget.Some? ==> q.Wraps(ids))
  {
    var ixs := BuildFundIxs(q);
    if q.native.Disabled? {
      return Success(Prepared(ixs, None));
    }
    if q.mint != ids.nativeMint {
      return Success(Prepared(ixs, None));
    }
    var expected :- RequiredSettlement(q.settlement);
    if expected == 0 {
      return Failure(InvalidAccountData);
    }
    if q.program != ids.tokenProgram {
      return Failure(InvalidNativeTokenProgram(q.program));
    }
    r := PrepareWrapped(ids, q.Funding(expected, q.native.reserve), ixs, chain);
  }

  // ---- what the transaction does ----

  /** The holder's lamports, the two token accounts, and lamports sent to the funding account but not yet synced. */
  datatype Ledger = Ledger(lamports: nat, funding: Option<nat>, position: Option<nat>, unsynced: nat)

  /** A new token account is paid for by the holder or by someone else. */
  function PayRent(a: FundArgs, rent: nat, payer: Key, l: Ledger): Option<Ledger> {
    if payer != a.holder then Some(l) else if l.lamports < rent then None else Some(l.(lamports := l.lamports - rent))
  }

  /** The effect of each instruction on the accounts it names, which must be these; creation is idempotent. */
  function Exec(a: FundArgs, rent: nat, ix: Ix, l: Ledger): Option<Ledger> {
    match ix
    case CreateAccount(payer, account) =>
      if account == a.fundingAta then
        if l.funding.Some? then Some(l)
        else var paid := PayRent(a, rent, payer, l); if paid.None? then None else Some(paid.value.(funding := Some(0)))
      else if account == a.positionAta then
        if l.position.Some? then Some(l)
        else var paid := PayRent(a, rent, payer, l); if paid.None? then None else Some(paid.value.(position := Some(0)))
      else None
    case Transfer(source, target, lamports) =>
      if source != a.holder || target != a.fundingAta || l.lamports < lamports then None
      else Some(l.(lamports := l.lamports - lamports, unsynced := l.unsynced + lamports))
    case SyncNative(account) =>
      if account != a.fundingAta || l.funding.None? then None
      else Some(l.(funding := Some(l.funding.value + l.unsynced), unsynced := 0))
    case Deposit(holder, account, position) =>
      if holder != a.holder || account != a.fundingAta || position != a.positionAta then None
      else if l.funding.None? || l.position.None? || l.funding.value < a.expected then None
      else Some(l.(funding := Some(l.funding.value - a.expected), position := Some(l.position.value + a.expected)))
  }

  function ExecAll(a: FundArgs, rent: nat, ixs: seq<Ix>, l: Option<Ledger>): Option<Ledger> {
    if ixs == [] || l.None? then l else ExecAll(a, rent, ixs[1..], Exec(a, rent, ixs[0], l.value))
  }

  /**
   * The accounts are as the planner read them: the wrapped balance always, and the position's token account where the
   * planner reads it, which is when the holder pays for creations.
   */
  ghost predicate Shows(ids: Ids, a: FundArgs, chain: Answers, l: Ledger) {
    && a.fundingAta != a.positionAta
    && Wrapped(l) <= U64_MAX && FundingHas(ids, a, chain, Wrapped(l))
    && (l.funding.Some? <==> chain.funding.Some?)
    && (a.HolderPays() ==> (l.position.Some? <==> chain.position.Some?))
  }

  /** What the holder has wrapped. */
  function Wrapped(l: Ledger): nat {
    if l.funding.Some? then l.funding.value else 0
  }

  /** The position's token account once the creations are done. */
  function Opened(a: FundArgs, position: Option<nat>): Option<nat> {
    if position.None? && a.createAtas then Some(0) else position
  }

  lemma {:induction false} ExecSplit(a: FundArgs, rent: nat, x: seq<Ix>, y: seq<Ix>, l: Option<Ledger>)
    ensures ExecAll(a, rent, x + y, l) == ExecAll(a, rent, y, ExecAll(a, rent, x, l))
    decreases |x|
  {
    if x == [] {
      assert x + y == y;
    } else if l.Some? {
      assert (x + y)[1..] == x[1..] + y;
      ExecSplit(a, rent, x[1..], y, Exec(a, rent, x[0], l.value));
    }
  }

  lemma {:induction false} ExecPair(a: FundArgs, rent: nat, x: Ix, y: Ix, l: Ledger)
    ensures var mid := Exec(a, rent, x, l);
            ExecAll(a, rent, [x, y], Some(l)) == if mid.None? then None else Exec(a, rent, y, mid.value)
  {
    var mid := Exec(a, rent, x, l);
    assert [x, y][1..] == [y] && [y][1..] == [];
    if mid.Some? {
      var end := Exec(a, rent, y, mid.value);
      assert ExecAll(a, rent, [y][1..], end) == end;
      assert ExecAll(a, rent, [y], mid) == end;
    }
  }

  /** After the creations the funding account exists, and the holder has paid rent once per missing account. */
  lemma {:induction false} CreationsExec(ids: Ids, a: FundArgs, chain: Answers, l: Ledger)
    requires Shows(ids, a, chain, l)
    ensures var done := ExecAll(a, chain.rent, Creations(a), Some(l));
            var rent := chain.rent * MissingPaid(a, chain);
            && (done.None? <==> l.lamports < rent)
            && (done.Some? ==>
                  done.value == Ledger(l.lamports - rent, Some(Wrapped(l)), Opened(a, l.position), l.unsynced))
  {
    FundingStateExactly(ids, a, chain, Wrapped(l));
    RentOf(ids, a, chain);
    if a.createAtas {
      ExecPair(a, chain.rent, CreateAccount(a.feePayer, a.fundingAta), CreateAccount(a.feePayer, a.positionAta), l);
    }
  }

  /** The wrap pair and the deposit, on a funding account that needs the wrap. */
  lemma {:induction false} WrapExec(a: FundArgs, rent: nat, wrap: u64, l: Ledger)
    requires l.funding.Some? && l.funding.value + wrap == a.expected
    ensures ExecAll(a, rent, [Transfer(a.holder, a.fundingAta, wrap), SyncNative(a.fundingAta)] + [DepositIx(a)],
        Some(l))
         == if l.lamports < wrap || l.position.None? then None
            else Some(Ledger(l.lamports - wrap, Some(l.unsynced), Some(l.position.value + a.expected), 0))
  {
    var pair := [Transfer(a.holder, a.fundingAta, wrap), SyncNative(a.fundingAta)];
    ExecSplit(a, rent, pair, [DepositIx(a)], Some(l));
    ExecPair(a, rent, pair[0], pair[1], l);
    assert [DepositIx(a)][1..] == [];
  }

  /** The end of a budgeted funding: failed, or the position settled in full for the wrap and the rent. */
  function Settled(a: FundArgs, budget: Budget, l: Ledger): Option<Ledger> {
    var position := Opened(a, l.position);
    if l.lamports < budget.wrap + budget.rent || position.None? then None
    else Some(Ledger(l.lamports - budget.wrap - budget.rent, Some(l.unsynced), Some(position.value + a.expected), 0))
  }

  /** The creations, the wrap pair and the deposit, one after the other. */
  lemma {:induction false} ExecSpliced(a: FundArgs, rent: nat, wrap: u64, l: Ledger, made: Option<Ledger>)
    requires made == ExecAll(a, rent, Creations(a), Some(l))
    requires made.Some? ==> made.value.funding.Some? && made.value.funding.value + wrap == a.expected
    ensures var pair := [Transfer(a.holder, a.fundingAta, wrap), SyncNative(a.fundingAta)];
            ExecAll(a, rent, Creations(a) + pair + [DepositIx(a)], Some(l))
              == if made.None? || made.value.lamports < wrap || made.value.position.None? then None
                 else Some(Ledger(made.value.lamports - wrap, Some(made.value.unsynced),
                                  Some(made.value.position.value + a.expected), 0))
  {
    var pair := [Transfer(a.holder, a.fundingAta, wrap), SyncNative(a.fundingAta)];
    assert Creations(a) + pair + [DepositIx(a)] == Creations(a) + (pair + [DepositIx(a)]);
    ExecSplit(a, rent, Creations(a), pair + [DepositIx(a)], Some(l));
    if made.Some? {
      WrapExec(a, rent, wrap, made.value);
    }
  }

  /** Running what was prepared: it fails or leaves the balance less rent and wrap. */
  lemma {:induction false} ExecPrepared(ids: Ids, a: FundArgs, chain: Answers, l: Ledger)
    requires Shows(ids, a, chain, l) && PlansWrap(Plan(ids, a, chain))
    ensures var prepared := Prepare(ids, a, chain).value;
            prepared.budget.Some?
                && ExecAll(a, chain.rent, prepared.instructions, Some(l)) == Settled(a, prepared.budget.value, l)
  {
    NoWrapExactly(ids, a, chain, Wrapped(l));
    PlanIsExact(ids, a, chain, Wrapped(l));
    CreationsExec(ids, a, chain, l);
    ExecSpliced(a, chain.rent, Plan(ids, a, chain).value.budget.wrap, l, ExecAll(a, chain.rent, Creations(a), Some(l)));
  }

  /** On the ledger's side: a settled end with the reserve left is exactly a validated budget and a position account. */
  lemma SettledExactly(a: FundArgs, budget: Budget, l: Ledger, available: u64, fee: u64)
    requires budget.reserve == a.reserve && fee <= available && l.lamports == available - fee
    ensures var end := Settled(a, budget, l);
            && (end.Some? && end.value.lamports >= a.reserve <==>
                  budget.Validate(available, fee).Success? && (a.createAtas || l.position.Some?))
            && (end.Some? ==>
                  && end.value.position == Some((if l.position.Some? then l.position.value else 0) + a.expected)
                  && end.value.funding == Some(l.unsynced) && end.value.unsynced == 0)
  {
    budget.ValidateIsExact(available, fee);
  }

  /**
   * What the two checks decide: the prepared instructions, run on a balance less the fee, all succeed and leave the
   * holder the reserve if and only if the budget validates against that balance and the position's token account exists
   * or is created. They then settle the position in full, and only what was unsynced before is left wrapped.
   */
  lemma {:induction false} BudgetDecidesExecution(ids: Ids, a: FundArgs, chain: Answers, l: Ledger,
        available: u64, fee: u64)
    requires Shows(ids, a, chain, l) && PlansWrap(Plan(ids, a, chain))
    ensures var prepared := Prepare(ids, a, chain).value;
            var end := if available < fee then None
                else ExecAll(a, chain.rent, prepared.instructions, Some(l.(lamports := available - fee)));
            && prepared.budget.Some?
            && (end.Some? && end.value.lamports >= a.reserve <==>
                  prepared.budget.value.Validate(available, fee).Success? && (a.createAtas || l.position.Some?))
            && (end.Some? ==>
                  && end.value.position == Some((if l.position.Some? then l.position.value else 0) + a.expected)
                  && end.value.funding == Some(l.unsynced) && end.value.unsynced == 0)
  {
    NoWrapExactly(ids, a, chain, Wrapped(l));
    PlanIsExact(ids, a, chain, Wrapped(l));
    var budget := Plan(ids, a, chain).value.budget;
    if fee <= available {
      var paid := l.(lamports := available - fee);
      ExecPrepared(ids, a, chain, paid);
      SettledExactly(a, budget, paid, available, fee);
    } else {
      budget.ValidateIsExact(available, fee);
    }
  }

  /** A token account of `owner` with nothing in it. */
  function EmptyAccount(ids: Ids, owner: Key): Account {
    Account(ids.tokenProgram, ids.nativeMint + owner + ToLe(0, 8))
  }

  lemma EmptyAccountHolds(ids: Ids, owner: Key)
    ensures HoldsWsol(ids, EmptyAccount(ids, owner), owner, ids.tokenProgram, 0)
  {
    var data := EmptyAccount(ids, owner).data;
    assert data[..32] == ids.nativeMint && data[32..64] == owner && data[64..72] == ToLe(0, 8);
  }

  /** A validated budget whose deposit fails: nothing is created, and the position's token account was never read. */
  lemma ValidatedDepositCanFail() returns (ids: Ids, a: FundArgs, chain: Answers, l: Ledger)
    ensures Shows(ids, a, chain, l) && PlansWrap(Plan(ids, a, chain)) && l.lamports == 1000
    ensures Plan(ids, a, chain).value.budget.Validate(1000, 0).Success?
    ensures ExecAll(a, chain.rent, Prepare(ids, a, chain).value.instructions, Some(l)) == None
  {
    var zero: Key := seq(32, i => 0);
    var one: Key := seq(32, i => 1);
    assert zero[0] != one[0];
    ids := Ids(zero, zero);
    a := FundArgs(zero, zero, zero, one, zero, 1, 0, false);
    chain := Answers(Some(EmptyAccount(ids, zero)), None, 1000, 0);
    l := Ledger(1000, Some(0), None, 0);
    EmptyAccountHolds(ids, zero);
    PlanIsExact(ids, a, chain, 0);
    Plan(ids, a, chain).value.budget.ValidateIsExact(1000, 0);
    ExecPrepared(ids, a, chain, l);
  }
}
