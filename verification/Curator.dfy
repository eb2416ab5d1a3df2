/**
 * The curator's swap: one transaction when it fits, otherwise a stage and an unstage with a fresh
 * plan between them, over a driver whose reads and sends may fail and whose process may restart.
 */
module Curator {
  import opened Common
  import opened Crank

  type Signature = nat

  datatype StagingStep = Stage | Unstage

  datatype Asset = Asset(mint: Pubkey, tokenProgram: Pubkey)

  datatype SwapKind =
    | Rebalance(secondToMain: bool)
    | RecoverySwap
    | ClosingSwap
    | RecoveryStage(asset: Asset, generation: u64)
    | Staging(step: StagingStep, leg: Leg, stagedAsset: Asset, stagedGeneration: u64)

  predicate IsStage(kind: SwapKind) {
    kind.Staging? && kind.step.Stage?
  }

  predicate IsUnstage(kind: SwapKind) {
    kind.Staging? && kind.step.Unstage?
  }

  /** A transaction to send; its instructions and tables are not part of the model. */
  datatype TxParts = TxParts(kind: SwapKind)

  datatype Plan = Single(parts: TxParts) | Staged(stage: TxParts, unstage: TxParts) {
    function First(): TxParts {
      if Single? then parts else stage
    }
  }

  datatype Outcome = Executed(signatures: seq<Signature>) | Recovered(signature: Signature)

  datatype Error =
    | Driver(reason: string)
    | NotStaging
    | NoOpenSlot
    | NotFullSlotUnstage
    | StageError(signature: Signature, source: Error)

  /** What one call sent, in order, and what it returned. */
  datatype Call = Call(sent: seq<TxParts>, result: Result<Outcome, Error>)

  /** After the first send: the call's result, or nothing when a confirmed stage asks for the second half. */
  function AfterFirst(plan: Plan, send: Result<Signature, Error>): Option<Result<Outcome, Error>> {
    match send
    case Failure(e) => Some(Failure(e))
    case Success(signature) =>
      if plan.Single? then
        Some(Success(if IsUnstage(plan.parts.kind) then Recovered(signature) else Executed([signature])))
      else if !plan.stage.kind.Staging? then
        Some(Failure(StageError(signature, NotStaging)))
      else
        None
  }

  /** After the second refresh: the full-slot unstage to send, or the call's failure. */
  function Completion(stage: TxParts, signature: Signature, refresh: Result<Plan, Error>): Result<TxParts, Error>
    requires stage.kind.Staging?
  {
    match refresh
    case Failure(e) => Failure(StageError(signature, e))
    case Success(next) =>
      if !next.Single? then
        Failure(StageError(signature, NoOpenSlot))
      else if !IsUnstage(next.parts.kind)
           || next.parts.kind.stagedAsset != stage.kind.stagedAsset
           || next.parts.kind.stagedGeneration != stage.kind.stagedGeneration then
        Failure(StageError(signature, NotFullSlotUnstage))
      else
        Success(next.parts)
  }

  /** After the second send. */
  function AfterSecond(stage: TxParts, signature: Signature, unstage: TxParts, send: Result<Signature, Error>)
    : Result<Outcome, Error>
    requires stage.kind.Staging? && unstage.kind.Staging?
  {
    match send
    case Failure(e) => Failure(StageError(signature, e))
    case Success(completion) =>
      Success(if unstage.kind.leg == stage.kind.leg then Recovered(completion) else Executed([signature, completion]))
  }

  /**
   * The decisions of `execute`, as a function of what the driver would answer to its first and
   * second refresh and its first and second send. Answers it never asks for are not looked at.
   */
  function Decide(
      refresh1: Result<Plan, Error>, send1: Result<Signature, Error>,
      refresh2: Result<Plan, Error>, send2: Result<Signature, Error>): Call
  {
    if refresh1.Failure? then
      Call([], Failure(refresh1.error))
    else
      var plan := refresh1.value;
      var early := AfterFirst(plan, send1);
      if early.Some? then
        Call([plan.First()], early.value)
      else
        var unstage := Completion(plan.stage, send1.value, refresh2);
        if unstage.Failure? then Call([plan.stage], Failure(unstage.error))
        else Call([plan.stage, unstage.value], AfterSecond(plan.stage, send1.value, unstage.value, send2))
  }

  /** A staged plan whose stage was confirmed. */
  predicate StageConfirmed(refresh: Result<Plan, Error>, send: Result<Signature, Error>) {
    refresh.Success? && refresh.value.Staged? && send.Success?
  }

  /**
   * For every driver, however it answers: at most two transactions; the second only after a staged plan's confirmed
   * stage, and it is an unstage of the same asset and generation. Once that stage confirmed, a failure always carries
   * its signature; every other failure is the driver's own error, unchanged.
   */
  lemma AnyDriver(
      refresh1: Result<Plan, Error>, send1: Result<Signature, Error>,
      refresh2: Result<Plan, Error>, send2: Result<Signature, Error>)
    ensures var call := Decide(refresh1, send1, refresh2, send2);
            && |call.sent| <= 2
            && (|call.sent| == 2 ==>
                  && StageConfirmed(refresh1, send1)
                  && call.sent[0] == refresh1.value.stage && call.sent[0].kind.Staging?
                  && IsUnstage(call.sent[1].kind)
                  && call.sent[1].kind.stagedAsset == call.sent[0].kind.stagedAsset
                  && call.sent[1].kind.stagedGeneration == call.sent[0].kind.stagedGeneration)
            && (StageConfirmed(refresh1, send1) && call.result.Failure? ==>
                  call.result.error.StageError? && call.result.error.signature == send1.value)
            && (!StageConfirmed(refresh1, send1) && call.result.Failure? ==>
                  || (call.sent == [] && refresh1 == Failure(call.result.error))
                  || (|call.sent| == 1 && send1 == Failure(call.result.error)))
            && (call.result.Success? && call.result.value.Executed? ==> |call.result.value.signatures| == |call.sent|)
            && (refresh1.Success? && refresh1.value.Single? && send1.Success?
                ==> |call.sent| == 1 && call.result.Success?)
  {}

  // ---- the driver against the chain ----

  datatype Intent = Buy(amount: u64) | Sell(amount: u64) | Redeem(amount: u64)

  /** What a refresh reads besides the slot, and how the resulting transactions fit. */
  datatype Fit = FitsSingle | FitsStaged | FitsNeither

  datatype Snapshot =
    | Unavailable(reason: string)
    | Snapshot(safety: Safety, phase: Phase, activeExpiry: u64, now: u64, maturity: u64, fit: Fit)

  /** An amount left in the slot; a zero amount reads back as a closed slot, and a stage must leave some. */
  type Positive = x: u64 | 0 < x witness 1

  /** The fate of a sent transaction that the chain would accept: lost, landed unconfirmed, or confirmed. */
  datatype Fate = Lost | Unresolved(amount: Positive, at: u64) | Landed(signature: Signature, amount: Positive, at: u64)

  /** `recovery_buy`: which way an open slot is unstaged, or whether the intent may start. */
  function RecoveryBuy(slot: Option<StagedSlot>, intent: Intent, s: Snapshot): Result<bool, Error>
    requires s.Snapshot?
  {
    if slot.Some? then
      Success(slot.value.fromLeg.Main? && s.now <= s.maturity && s.safety == Normal && s.phase == Active
          && s.now < s.activeExpiry)
    else match intent
      case Buy(_) => if s.now >= s.maturity then Failure(Driver("cannot buy matured PT")) else Success(true)
      case Sell(_) => if s.now > s.maturity then Failure(Driver("use Redeem after maturity")) else Success(false)
      case Redeem(_) => if s.now <= s.maturity then Failure(Driver("PT redemption requires maturity"))
          else Success(false)
  }

  /** The plan a refresh returns: always made from the slot as it is on chain. */
  function PlanFor(asset: Asset, chain: StagingState, intent: Intent, s: Snapshot): Result<Plan, Error> {
    if s.Unavailable? then
      Failure(Driver(s.reason))
    else if chain.open.None? && intent.amount == 0 then
      Failure(Driver("invalid curator amount or deadline"))
    else if chain.open.Some? && chain.open.value.mint != asset.mint then
      Failure(Driver("unsupported open staging mint"))
    else
      var buy :- RecoveryBuy(chain.open, intent, s);
      if chain.open.Some? then
        if s.fit.FitsNeither? then Failure(Driver("curator transaction does not fit"))
        else Success(Single(TxParts(Staging(Unstage, if buy then Second else Main, asset, chain.generation))))
      else if s.fit.FitsSingle? then
        Success(Single(TxParts(Rebalance(!buy))))
      else if chain.generation + 1 > U64_MAX then
        Failure(Driver("staging generation overflow"))
      else if s.fit.FitsNeither? then
        Failure(Driver("curator transaction does not fit"))
      else
        var generation: u64 := chain.generation + 1;
        Success(Staged(
          TxParts(Staging(Stage, if buy then Main else Second, asset, generation)),
          TxParts(Staging(Unstage, if buy then Second else Main, asset, generation))))
  }

  /**
   * The program's rule: a stage opens a closed slot with the next generation, an unstage closes the open one of its
   * own.
   */
  predicate Accepts(chain: StagingState, kind: SwapKind) {
    match kind
    case Staging(Stage, _, _, generation) => chain.open.None? && generation == chain.generation + 1
    case Staging(Unstage, _, asset, generation) =>
      chain.open.Some? && chain.open.value.mint == asset.mint && generation == chain.generation
    case _ => chain.open.None?
  }

  function Land(chain: StagingState, kind: SwapKind, amount: Positive, at: u64): StagingState {
    if !kind.Staging? then chain
    else if kind.step.Stage? then
        StagingState(kind.stagedGeneration, Some(StagedSlot(kind.stagedAsset.mint, kind.leg, amount, at)))
    else chain.(open := None)
  }

  /** A send on record: the slot before and after it, and whether it landed, and its signature if confirmed. */
  datatype Sent = Sent(kind: SwapKind, before: StagingState, after: StagingState, landed: bool,
      signature: Option<Signature>)

  /** The chain's slot, everything sent so far, and the environment's remaining choices. */
  datatype World = World(chain: StagingState, log: seq<Sent>, snapshots: seq<Snapshot>, fates: seq<Fate>)

  function NextSnapshot(w: World): (Snapshot, World) {
    if w.snapshots == [] then (Unavailable("no more snapshots"), w)
    else (w.snapshots[0], w.(snapshots := w.snapshots[1..]))
  }

  function NextFate(w: World): (Fate, World) {
    if w.fates == [] then (Lost, w) else (w.fates[0], w.(fates := w.fates[1..]))
  }

  /** A refresh re-reads the slot and plans from it; it changes nothing on chain. */
  function Refresh(asset: Asset, w: World, intent: Intent): (Result<Plan, Error>, World) {
    var (s, w') := NextSnapshot(w);
    (PlanFor(asset, w.chain, intent, s), w')
  }

  /** A send lands or not when sent; only a landed one is ever confirmed. */
  function Send(w: World, parts: TxParts): (Result<Signature, Error>, World) {
    var (fate, w') := NextFate(w);
    var landed := Accepts(w.chain, parts.kind) && !fate.Lost?;
    var confirmed := landed && fate.Landed?;
    var after := if landed then Land(w.chain, parts.kind, fate.amount, fate.at) else w.chain;
    (if confirmed then Success(fate.signature) else Failure(Driver("submission/confirmation unresolved")),
     w'.(chain := after, log := w.log
         + [Sent(parts.kind, w.chain, after, landed, if confirmed then Some(fate.signature) else None)]))
  }

  /** One call of `execute` in the world. */
  function Execute(asset: Asset, w: World, intent: Intent): (Result<Outcome, Error>, World) {
    var (plan, w1) := Refresh(asset, w, intent);
    if plan.Failure? then
      (Failure(plan.error), w1)
    else
      var (signature, w2) := Send(w1, plan.value.First());
      var early := AfterFirst(plan.value, signature);
      if early.Some? then
        (early.value, w2)
      else
        Finish(asset, w2, intent, plan.value.stage, signature.value)
  }

  /** The second half of a call, after `stage` was confirmed. */
  function Finish(asset: Asset, w: World, intent: Intent, stage: TxParts,
        signature: Signature): (Result<Outcome, Error>, World)
    requires stage.kind.Staging?
  {
    var (next, w') := Refresh(asset, w, intent);
    var unstage := Completion(stage, signature, next);
    if unstage.Failure? then
      (Failure(unstage.error), w')
    else
      var (completion, w'') := Send(w', unstage.value);
      (AfterSecond(stage, signature, unstage.value, completion), w'')
  }

  /** What the driver answered in one call, as far as it was asked. */
  datatype Answers = Answers(
    refresh1: Result<Plan, Error>, send1: Result<Signature, Error>,
    refresh2: Result<Plan, Error>, send2: Result<Signature, Error>)
  {
    function Call(): Call {
      Decide(refresh1, send1, refresh2, send2)
    }
  }

  /** The answers the world gives to one call; what it was not asked is left as a failure. */
  function AnswersOf(asset: Asset, w: World, intent: Intent): Answers {
    var unasked := Driver("not asked");
    var (refresh1, w1) := Refresh(asset, w, intent);
    if refresh1.Failure? then Answers(refresh1, Failure(unasked), Failure(unasked), Failure(unasked))
    else
      var (send1, w2) := Send(w1, refresh1.value.First());
      if AfterFirst(refresh1.value, send1).Some? then Answers(refresh1, send1, Failure(unasked), Failure(unasked))
      else
        var (refresh2, w3) := Refresh(asset, w2, intent);
        var unstage := Completion(refresh1.value.stage, send1.value, refresh2);
        if unstage.Failure? then Answers(refresh1, send1, refresh2, Failure(unasked))
        else Answers(refresh1, send1, refresh2, Send(w3, unstage.value).0)
  }

  lemma SendLogs(w: World, parts: TxParts)
    ensures KindsFrom(Send(w, parts).1.log, |w.log|) == [parts.kind] && w.log <= Send(w, parts).1.log
  {}

  /** The kinds of the records from `at` on. */
  function KindsFrom(log: seq<Sent>, at: nat): seq<SwapKind>
    requires at <= |log|
  {
    seq(|log| - at, i requires 0 <= i < |log| - at => log[at + i].kind)
  }

  function Kinds(parts: seq<TxParts>): seq<SwapKind> {
    seq(|parts|, i requires 0 <= i < |parts| => parts[i].kind)
  }

  /** The second half decides as the answers to its refresh and its send say, and sends the unstage they name. */
  lemma FinishDecides(asset: Asset, w: World, intent: Intent, stage: TxParts, signature: Signature)
    requires stage.kind.Staging?
    ensures var (refresh, w1) := Refresh(asset, w, intent);
            var unstage := Completion(stage, signature, refresh);
            var (r, w') := Finish(asset, w, intent, stage, signature);
            && (unstage.Failure? ==> r == Failure(unstage.error) && w'.log == w.log)
            && (unstage.Success? ==>
                  && r == AfterSecond(stage, signature, unstage.value, Send(w1, unstage.value).0)
                  && w.log <= w'.log && KindsFrom(w'.log, |w.log|) == [unstage.value.kind])
  {
    var (refresh, w1) := Refresh(asset, w, intent);
    var unstage := Completion(stage, signature, refresh);
    if unstage.Success? {
      SendLogs(w1, unstage.value);
    }
  }

  /** A call in the world decides as `Decide` does on the driver's answers. */
  lemma ExecuteDecides(asset: Asset, w: World, intent: Intent)
    ensures Execute(asset, w, intent).0 == AnswersOf(asset, w, intent).Call().result
  {
    var (refresh1, w1) := Refresh(asset, w, intent);
    if refresh1.Success? {
      var (send1, w2) := Send(w1, refresh1.value.First());
      if AfterFirst(refresh1.value, send1).None? {
        FinishDecides(asset, w2, intent, refresh1.value.stage, send1.value);
      }
    }
  }

  lemma KindsChain(a: seq<Sent>, b: seq<Sent>, c: seq<Sent>)
    requires a <= b <= c
    ensures KindsFrom(c, |a|) == KindsFrom(b, |a|) + KindsFrom(c, |b|)
  {}

  /** What a call that goes on to its second half sends. */
  lemma LateSends(asset: Asset, w: World, w2: World, intent: Intent, stage: TxParts, signature: Signature)
    requires stage.kind.Staging? && w.log <= w2.log && KindsFrom(w2.log, |w.log|) == [stage.kind]
    ensures var unstage := Completion(stage, signature, Refresh(asset, w2, intent).0);
            var log := Finish(asset, w2, intent, stage, signature).1.log;
            && w.log <= log
            && KindsFrom(log, |w.log|) == Kinds(if unstage.Success? then [stage, unstage.value] else [stage])
  {
    FinishDecides(asset, w2, intent, stage, signature);
    KindsChain(w.log, w2.log, Finish(asset, w2, intent, stage, signature).1.log);
  }

  /** And sends exactly what they name, in order. */
  lemma ExecuteSends(asset: Asset, w: World, intent: Intent)
    ensures var sent := AnswersOf(asset, w, intent).Call().sent;
            var log := Execute(asset, w, intent).1.log;
            w.log <= log && KindsFrom(log, |w.log|) == Kinds(sent)
  {
    var (refresh1, w1) := Refresh(asset, w, intent);
    if refresh1.Success? {
      var first := refresh1.value.First();
      var (send1, w2) := Send(w1, first);
      SendLogs(w1, first);
      if AfterFirst(refresh1.value, send1).None? {
        LateSends(asset, w, w2, intent, refresh1.value.stage, send1.value);
      }
    }
  }

  /** The mutable driver the source drives. */
  class ChainDriver {
    const asset: Asset
    var world: World

    constructor (asset: Asset, world: World)
      ensures this.asset == asset && this.world == world
    {
      this.asset, this.world := asset, world;
    }

    method DoRefresh(intent: Intent) returns (plan: Result<Plan, Error>)
      modifies this
      ensures (plan, world) == Refresh(asset, old(world), intent)
    {
      var (p, w) := Refresh(asset, world, intent);
      world := w;
      plan := p;
    }

    method DoSend(parts: TxParts) returns (signature: Result<Signature, Error>)
      modifies this
      ensures (signature, world) == Send(old(world), parts)
    {
      var (s, w) := Send(world, parts);
      world := w;
      signature := s;
    }
  }

  /** `execute`, step by step on the driver. */
  method RunExecute(driver: ChainDriver, intent: Intent) returns (outcome: Result<Outcome, Error>)
    modifies driver
    ensures (outcome, driver.world) == Execute(driver.asset, old(driver.world), intent)
  {
    var plan := driver.DoRefresh(intent);
    if plan.Failure? {
      return Failure(plan.error);
    }
    var signature := driver.DoSend(plan.value.First());
    if signature.Failure? {
      return Failure(signature.error);
    }
    if plan.value.Single? {
      if IsUnstage(plan.value.parts.kind) {
        return Success(Recovered(signature.value));
      }
      return Success(Executed([signature.value]));
    }
    var kind := plan.value.stage.kind;
    if !kind.Staging? {
      return Failure(StageError(signature.value, NotStaging));
    }
    var next := driver.DoRefresh(intent);
    if next.Failure? {
      return Failure(StageError(signature.value, next.error));
    }
    if !next.value.Single? {
      return Failure(StageError(signature.value, NoOpenSlot));
    }
    var completionKind := next.value.parts.kind;
    if !IsUnstage(completionKind)
       || completionKind.stagedAsset != kind.stagedAsset || completionKind.stagedGeneration != kind.stagedGeneration {
      return Failure(StageError(signature.value, NotFullSlotUnstage));
    }
    var completion := driver.DoSend(next.value.parts);
    if completion.Failure? {
      return Failure(StageError(signature.value, completion.error));
    }
    if completionKind.leg == kind.leg {
      outcome := Success(Recovered(completion.value));
    } else {
      outcome := Success(Executed([signature.value, completion.value]));
    }
  }

  // ---- one call ----

  /** A stage, if it is one, against a closed slot and with the next generation. */
  predicate Timely(kind: SwapKind, slot: StagingState) {
    IsStage(kind) ==> slot.open.None? && kind.stagedGeneration == slot.generation + 1
  }

  /** The slot moved by the program's rule if the send landed, else not at all; only a landed send is confirmed. */
  predicate Moved(s: Sent) {
    && (s.landed ==> Accepts(s.before, s.kind))
    && (s.signature.Some? ==> s.landed)
    && (if s.landed && IsStage(s.kind) then
          && s.after.generation == s.before.generation + 1
          && s.after.open.Some? && s.after.open.value.mint == s.kind.stagedAsset.mint
              && s.after.open.value.fromLeg == s.kind.leg
        else if s.landed && IsUnstage(s.kind) then
          s.after == s.before.(open := None)
        else
          s.after == s.before)
  }

  /** A record is proper: a stage was sent against a closed slot, and the slot moved by the program's rule. */
  predicate Proper(s: Sent) {
    Timely(s.kind, s.before) && Moved(s)
  }

  /** The log of a stretch of the run, whose slot moved from `start` to `end` by these sends and nothing else. */
  ghost predicate History(start: StagingState, log: seq<Sent>, end: StagingState) {
    && (forall k :: 0 <= k < |log| ==> Proper(log[k]))
    && (forall k :: 0 <= k < |log| - 1 ==> log[k].after == log[k + 1].before)
    && (if log == [] then start == end else log[0].before == start && log[|log| - 1].after == end)
  }

  /** The shape of a plan made from the slot. */
  lemma PlanShape(asset: Asset, chain: StagingState, intent: Intent, s: Snapshot)
    requires PlanFor(asset, chain, intent, s).Success?
    ensures var plan := PlanFor(asset, chain, intent, s).value;
            if chain.open.Some? then
              && plan.Single? && IsUnstage(plan.parts.kind)
              && plan.parts.kind.stagedAsset == asset && plan.parts.kind.stagedGeneration == chain.generation
              && chain.open.value.mint == asset.mint
            else if plan.Single? then
              plan.parts.kind.Rebalance?
            else
              && IsStage(plan.stage.kind) && plan.stage.kind.stagedAsset == asset
              && plan.stage.kind.stagedGeneration == chain.generation + 1
  {}

  /** The program accepts every plan in the state it was made from, and its unstage once its stage has landed. */
  lemma PlanAccepted(asset: Asset, chain: StagingState, intent: Intent, s: Snapshot, amount: Positive, at: u64)
    requires PlanFor(asset, chain, intent, s).Success?
    ensures var plan := PlanFor(asset, chain, intent, s).value;
            && Accepts(chain, plan.First().kind)
            && (plan.Staged? ==> Accepts(Land(chain, plan.stage.kind, amount, at), plan.unstage.kind))
  {}

  /**
   * Which plan is made, from an available snapshot: an open slot goes to the second leg only while a purchase from main
   * can still be completed, else back to main; a closed slot starts the intent in its own direction, in its own time.
   */
  lemma PlanTable(asset: Asset, chain: StagingState, intent: Intent, s: Snapshot)
    requires s.Snapshot?
    ensures var plan := PlanFor(asset, chain, intent, s);
            if chain.open.Some? then
              && (plan.Success? <==> chain.open.value.mint == asset.mint && !s.fit.FitsNeither?)
              && (plan.Success? ==>
                    var leg := if Completes(chain.open.value, s) then Second else Main;
                    plan.value == UnstageTo(leg, asset, chain.generation))
            else
              && (plan.Success? <==>
                    && intent.amount > 0 && InTime(intent, s)
                    && (s.fit.FitsSingle? || (s.fit.FitsStaged? && chain.generation < U64_MAX)))
              && (plan.Success? && s.fit.FitsSingle? ==> plan.value == Single(TxParts(Rebalance(!intent.Buy?))))
              && (plan.Success? && s.fit.FitsStaged? && intent.Buy? ==>
                    plan.value == StageBetween(Main, Second, asset, chain.generation + 1))
              && (plan.Success? && s.fit.FitsStaged? && !intent.Buy? ==>
                    plan.value == StageBetween(Second, Main, asset, chain.generation + 1))
  {}

  function UnstageTo(leg: Leg, asset: Asset, generation: u64): Plan {
    Single(TxParts(Staging(Unstage, leg, asset, generation)))
  }

  function StageBetween(source: Leg, target: Leg, asset: Asset, generation: u64): Plan {
    Staged(TxParts(Staging(Stage, source, asset, generation)), TxParts(Staging(Unstage, target, asset, generation)))
  }

  /** A purchase staged from main can still be completed. */
  ghost predicate Completes(slot: StagedSlot, s: Snapshot)
    requires s.Snapshot?
  {
    slot.fromLeg == Main && s.now <= s.maturity && s.now < s.activeExpiry && s.safety == Normal && s.phase == Active
  }

  /** Buying is for before maturity, selling for up to it, redeeming for after it. */
  ghost predicate InTime(intent: Intent, s: Snapshot)
    requires s.Snapshot?
  {
    match intent
    case Buy(_) => s.now < s.maturity
    case Sell(_) => s.now <= s.maturity
    case Redeem(_) => s.maturity < s.now
  }

  function ToOption(r: Result<Signature, Error>): Option<Signature> {
    if r.Success? then Some(r.value) else None
  }

  /** `sent` is what the send of `kind` from `w` to `w'` recorded. */
  ghost predicate Records(w: World, w': World, kind: SwapKind, signature: Option<Signature>, sent: Sent) {
    && w'.log == w.log + [sent] && sent.kind == kind && Moved(sent)
    && sent.before == w.chain && sent.after == w'.chain && sent.signature == signature
  }

  /** Every send, whatever its fate, adds one record that accounts for the slot. */
  lemma SendRecords(w: World, parts: TxParts) returns (sent: Sent)
    ensures var (r, w') := Send(w, parts);
            Records(w, w', parts.kind, ToOption(r), sent) && (r.Failure? ==> r.error.Driver?)
  {
    var (r, w') := Send(w, parts);
    sent := w'.log[|w.log|];
  }

  predicate DriverError(e: Error) {
    e.Driver? || (e.StageError? && e.source.Driver?)
  }

  /** What one call may do: the sends it adds, what they mean, and how its result relates to them. */
  ghost predicate SafeCall(w: World, r: Result<Outcome, Error>, w': World, added: seq<Sent>) {
    && w'.log == w.log + added
    && |added| <= 2
    && History(w.chain, added, w'.chain)
    && (|added| == 2 ==>
          && IsStage(added[0].kind) && added[0].signature.Some? && IsUnstage(added[1].kind)
          && added[1].kind.stagedAsset == added[0].kind.stagedAsset
          && added[1].kind.stagedGeneration == added[0].kind.stagedGeneration)
    && (r.Success? ==>
          && w'.chain.open.None? && added != [] && added[|added| - 1].signature.Some?
          && r.value == if IsUnstage(added[|added| - 1].kind)
              && (|added| == 1 || added[1].kind.leg == added[0].kind.leg)
                        then Recovered(added[|added| - 1].signature.value)
                        else Executed(if |added| == 1 then [added[0].signature.value]
                            else [added[0].signature.value, added[1].signature.value]))
    && (r.Failure? ==>
          && DriverError(r.error)
          && (r.error.StageError? <==> added != [] && IsStage(added[0].kind) && added[0].signature.Some?)
          && (r.error.StageError? ==> added[0].signature == Some(r.error.signature)))
    && (w.chain.open.Some? && added != [] ==>
          |added| == 1 && IsUnstage(added[0].kind) && added[0].kind.stagedGeneration == w.chain.generation)
  }

  /** The second half: after a confirmed stage the slot is open, so the fresh plan is its full unstage. */
  lemma FinishIsSafe(asset: Asset, w: World, w2: World, intent: Intent, stage: TxParts, signature: Signature,
        sent: Sent)
      returns (added: seq<Sent>)
    requires w.chain.open.None? && Records(w, w2, stage.kind, Some(signature), sent) && Timely(stage.kind, w.chain)
    requires IsStage(stage.kind) && stage.kind.stagedAsset == asset
    ensures added != [] && added[0] == sent
    ensures var (r, w') := Finish(asset, w2, intent, stage, signature); SafeCall(w, r, w', added)
  {
    var (next, w3) := Refresh(asset, w2, intent);
    added := [sent];
    if next.Success? {
      PlanShape(asset, w2.chain, intent, NextSnapshot(w2).0);
      var sent2 := SendRecords(w3, next.value.parts);
      added := [sent, sent2];
      assert w3.log + [sent2] == w.log + added;
    }
  }

  /** The first half: a failed refresh, an unconfirmed first send, or a single-transaction plan. */
  lemma FirstSendIsSafe(asset: Asset, w: World, w1: World, w2: World, intent: Intent, plan: Plan,
        signature: Result<Signature, Error>, sent: Sent)
    requires w1.log == w.log && w1.chain == w.chain && (signature.Failure? ==> signature.error.Driver?)
    requires Records(w1, w2, plan.First().kind, ToOption(signature), sent)
    requires exists s :: PlanFor(asset, w.chain, intent, s) == Success(plan)
    requires signature.Failure? || plan.Single?
    ensures AfterFirst(plan, signature).Some? && SafeCall(w, AfterFirst(plan, signature).value, w2, [sent])
  {
    var s :| PlanFor(asset, w.chain, intent, s) == Success(plan);
    PlanShape(asset, w.chain, intent, s);
  }

  /**
   * One call, whatever the driver reads and whatever becomes of its sends: at most two sends and no stage against an
   * open slot; success leaves the slot closed and reports the confirmed signatures, as recovered when the slot was
   * unstaged without reaching the other leg; a failure after a confirmed stage carries its signature; an open slot is
   * only ever unstaged; and the only failures are the driver's own, so the checks on the second plan never fire.
   */
  lemma ExecuteIsSafe(asset: Asset, w: World, intent: Intent) returns (added: seq<Sent>)
    ensures SafeCall(w, Execute(asset, w, intent).0, Execute(asset, w, intent).1, added)
  {
    var (plan, w1) := Refresh(asset, w, intent);
    if plan.Failure? {
      added := [];
      assert w1.log == w.log + [];
    } else {
      PlanShape(asset, w.chain, intent, NextSnapshot(w).0);
      var sent := SendRecords(w1, plan.value.First());
      var (signature, w2) := Send(w1, plan.value.First());
      if plan.value.Staged? && signature.Success? {
        added := FinishIsSafe(asset, w, w2, intent, plan.value.stage, signature.value, sent);
      } else {
        added := [sent];
        FirstSendIsSafe(asset, w, w1, w2, intent, plan.value, signature, sent);
      }
    }
  }

  // ---- every run of calls ----

  /** Calls one after another; a process that dies mid-call is one whose next driver call failed. */
  function Calls(asset: Asset, w: World, intents: seq<Intent>): World
    decreases |intents|
  {
    if intents == [] then w else Execute(asset, Calls(asset, w, intents[..|intents| - 1]), intents[|intents| - 1]).1
  }

  /** `added` extends the log of `w` to that of `w'`, and accounts for its slot. */
  ghost predicate Extends(w: World, w': World, added: seq<Sent>) {
    w'.log == w.log + added && History(w.chain, added, w'.chain)
  }

  lemma ExtendsJoins(w: World, w1: World, w2: World, a: seq<Sent>, b: seq<Sent>)
    requires Extends(w, w1, a) && Extends(w1, w2, b)
    ensures Extends(w, w2, a + b)
  {}

  lemma ExecuteExtends(asset: Asset, w: World, intent: Intent) returns (added: seq<Sent>)
    ensures Extends(w, Execute(asset, w, intent).1, added) && |added| <= 2
  {
    added := ExecuteIsSafe(asset, w, intent);
  }

  lemma {:induction false} CallsKeepHistory(asset: Asset, w: World, intents: seq<Intent>) returns (added: seq<Sent>)
    ensures Extends(w, Calls(asset, w, intents), added) && |added| <= 2 * |intents|
    decreases |intents|
  {
    if intents == [] {
      added := [];
      assert w.log == w.log + [];
    } else {
      var before := Calls(asset, w, intents[..|intents| - 1]);
      added := CallsKeepHistory(asset, w, intents[..|intents| - 1]);
      var more := ExecuteExtends(asset, before, intents[|intents| - 1]);
      ExtendsJoins(w, before, Calls(asset, w, intents), added, more);
      added := added + more;
    }
  }

  function LandedStages(log: seq<Sent>): nat {
    if log == [] then 0
    else LandedStages(log[..|log| - 1]) + if log[|log| - 1].landed && IsStage(log[|log| - 1].kind) then 1 else 0
  }

  function LandedUnstages(log: seq<Sent>): nat {
    if log == [] then 0
    else LandedUnstages(log[..|log| - 1]) + if log[|log| - 1].landed && IsUnstage(log[|log| - 1].kind) then 1 else 0
  }

  function OpenCount(s: StagingState): nat {
    if s.open.Some? then 1 else 0
  }

  /** Slots opened and not closed are the slot still open, and each opening used the next generation. */
  lemma {:induction false} SlotsBalance(start: StagingState, log: seq<Sent>, end: StagingState)
    requires History(start, log, end)
    ensures OpenCount(end) + LandedUnstages(log) == OpenCount(start) + LandedStages(log)
    ensures end.generation == start.generation + LandedStages(log)
  {
    if log != [] {
      var init := log[..|log| - 1];
      var mid := log[|log| - 1].before;
      assert History(start, init, mid);
      SlotsBalance(start, init, mid);
    }
  }

  /** Generations never repeat: of two landed stages the later one has the larger generation. */
  lemma {:induction false} GenerationsIncrease(start: StagingState, log: seq<Sent>, end: StagingState, i: nat, j: nat)
    requires History(start, log, end) && i < j < |log|
    ensures log[i].after.generation <= log[j].before.generation
    ensures log[i].landed && IsStage(log[i].kind) && log[j].landed && IsStage(log[j].kind) ==>
              log[i].kind.stagedGeneration < log[j].kind.stagedGeneration
    decreases j
  {
    if i + 1 < j {
      GenerationsIncrease(start, log, end, i, j - 1);
      assert log[j - 1].after == log[j].before;
    }
  }

  /**
   * Over every sequence of calls, with any failures and restarts between and within them: no stage
   * is sent against an open slot, at most two transactions are sent per call, every slot opened is
   * closed or still open, and no generation is used twice.
   */
  lemma RestartsAreSafe(asset: Asset, w: World, intents: seq<Intent>) returns (added: seq<Sent>)
    ensures var w' := Calls(asset, w, intents);
            && w'.log == w.log + added && |added| <= 2 * |intents|
            && (forall k :: 0 <= k < |added| && IsStage(added[k].kind) ==> added[k].before.open.None?)
            && OpenCount(w'.chain) + LandedUnstages(added) == OpenCount(w.chain) + LandedStages(added)
            && w'.chain.generation == w.chain.generation + LandedStages(added)
    ensures forall i, j | 0 <= i < j < |added| ::
              added[i].landed && IsStage(added[i].kind) && added[j].landed && IsStage(added[j].kind) ==>
                added[i].kind.stagedGeneration < added[j].kind.stagedGeneration
  {
    added := CallsKeepHistory(asset, w, intents);
    var end := Calls(asset, w, intents).chain;
    SlotsBalance(w.chain, added, end);
    forall i, j | 0 <= i < j < |added|
      ensures added[i].landed && IsStage(added[i].kind) && added[j].landed && IsStage(added[j].kind) ==>
                added[i].kind.stagedGeneration < added[j].kind.stagedGeneration
    {
      GenerationsIncrease(w.chain, added, end, i, j);
    }
    forall k | 0 <= k < |added| && IsStage(added[k].kind)
      ensures added[k].before.open.None?
    {
      assert Proper(added[k]);
    }
  }

  // ---- fitting a quote ----

  datatype PlanError = DoesNotFit | OtherError(reason: string)

  const BUDGETS: seq<nat> := [48, 36, 24, 12]

  /** The budgets asked for, in order, and the answer: the loop of `fit_with_quotes`. */
  method FitWithQuotes<Q, P>(fetch: nat -> Result<Q, PlanError>, plan: Q -> Result<P, PlanError>)
    returns (r: Result<P, PlanError>, asked: seq<nat>)
    ensures 1 <= |asked| <= 4 && asked == [48, 36, 24, 12][..|asked|]
    ensures forall k :: 0 <= k < |asked| - 1 ==> TooBig(fetch, plan, asked[k])
    ensures r == Attempt(fetch, plan, asked[|asked| - 1])
    ensures |asked| < 4 ==> !TooBig(fetch, plan, asked[|asked| - 1])
  {
    asked := [];
    r := Failure(DoesNotFit);
    for i := 0 to |BUDGETS|
      invariant asked == BUDGETS[..i]
      invariant forall k :: 0 <= k < i ==> TooBig(fetch, plan, BUDGETS[k])
      invariant i < 4
    {
      var budget := BUDGETS[i];
      asked := asked + [budget];
      var quote := fetch(budget);
      if quote.Failure? {
        return Failure(quote.error), asked;
      }
      var planned := plan(quote.value);
      if planned.Success? {
        return planned, asked;
      }
      if planned.error.DoesNotFit? && budget != 12 {
        continue;
      }
      return Failure(planned.error), asked;
    }
  }

  function Attempt<Q, P>(fetch: nat -> Result<Q, PlanError>, plan: Q -> Result<P, PlanError>,
        budget: nat): Result<P, PlanError>
  {
    var quote :- fetch(budget);
    plan(quote)
  }

  /** A quote was fetched at this budget and its plan did not fit. */
  predicate TooBig<Q, P>(fetch: nat -> Result<Q, PlanError>, plan: Q -> Result<P, PlanError>, budget: nat) {
    fetch(budget).Success? && plan(fetch(budget).value).Failure? && plan(fetch(budget).value).error.DoesNotFit?
  }
}
