/** The capital crank: which step a vault's state calls for, and the window clock that paces it. */
module Crank {
  import opened Common

  datatype Phase = Idle | Active | Settling | ProcessingCapital

  datatype Safety = Normal | Frozen | EmergencyUnwind | WithdrawOnly | Closing

  datatype Leg = Main | Second

  datatype StagedSlot = StagedSlot(mint: Pubkey, fromLeg: Leg, amount: u64, stagedAt: u64)

  /** The slot a staged swap leaves its asset in, open or as it last was. */
  datatype StagingState = StagingState(generation: u64, open: Option<StagedSlot>)

  datatype CapitalStep =
    | CloseDeposits
    | OpenDeposits
    | ComputeEquity
    | ProcessWithdrawals
    | ProcessDeposits
    | FinalizeCycle

  /** Durations and instants are in one unit; the model does not depend on which. */
  type Duration = nat
  type Instant = nat

  datatype WindowClock = WindowClock(openFor: Option<Duration>, closedFor: Option<Duration>)

  datatype WindowPolicy = WindowPolicy(reopen: bool, depositWindow: Duration, tradingWindow: Duration)

  datatype VaultView = VaultView(
    phase: Phase, safety: Safety, equityComputed: bool, acceptingDeposits: bool,
    pendingDeposits: u32, pendingWithdrawals: u32, staging: StagingState)
  {
    predicate Pending() {
      pendingDeposits > 0 || pendingWithdrawals > 0
    }
  }

  /** The arms of the match, in source order. */
  function StepFor(view: VaultView, window: WindowClock, policy: WindowPolicy): Option<CapitalStep> {
    var normalIdle := view.safety == Normal && view.phase == Idle;
    if view.safety == WithdrawOnly && view.phase == Idle && view.pendingWithdrawals > 0 then
      Some(ProcessWithdrawals)
    else if (view.safety == Frozen || view.safety == Closing || view.safety == WithdrawOnly)
        && view.pendingDeposits > 0 then
      Some(ProcessDeposits)
    else if (view.safety == Normal || view.safety == Frozen) && view.phase == ProcessingCapital then
      Some(CapitalWork(view))
    else if view.safety == Frozen && view.phase == Idle && view.pendingWithdrawals > 0 then
      Some(if view.equityComputed then ProcessWithdrawals else ComputeEquity)
    else if normalIdle && !view.Pending() && view.acceptingDeposits then
      if window.openFor.Some? && window.openFor.value >= policy.depositWindow then Some(CloseDeposits) else None
    else if normalIdle && !view.Pending() then
      if policy.reopen && !view.equityComputed && window.closedFor.Some?
          && window.closedFor.value >= policy.tradingWindow
      then Some(OpenDeposits) else None
    else if normalIdle && view.acceptingDeposits then
      Some(CloseDeposits)
    else if normalIdle && !view.equityComputed then
      Some(ComputeEquity)
    else if normalIdle && view.pendingDeposits > 0 then
      Some(ProcessDeposits)
    else if normalIdle then
      Some(ProcessWithdrawals)
    else
      None
  }

  /** The step of a processing vault that may work. */
  function CapitalWork(view: VaultView): CapitalStep {
    if !view.equityComputed then ComputeEquity
    else if view.safety == Normal && view.pendingDeposits > 0 then ProcessDeposits
    else if view.pendingWithdrawals > 0 then ProcessWithdrawals
    else FinalizeCycle
  }

  /** `next_step`: equity and finalization wait until the staging slot is closed. */
  function NextStep(view: VaultView, window: WindowClock, policy: WindowPolicy): Option<CapitalStep> {
    var step := StepFor(view, window, policy);
    if view.staging.open.Some? && (step == Some(ComputeEquity) || step == Some(FinalizeCycle)) then None else step
  }

  /**
   * What each step may rely on, in every state: withdrawals outside withdraw-only are priced and
   * come after every deposit; a cycle is finalized only when drained, priced and unstaged; equity
   * is never computed over an open slot; the window only moves in a normal idle vault.
   */
  lemma StepGates(view: VaultView, window: WindowClock, policy: WindowPolicy)
    ensures var step := NextStep(view, window, policy);
            && (step == Some(ProcessWithdrawals) ==>
                  && view.pendingWithdrawals > 0
                  && (view.safety == WithdrawOnly || (view.equityComputed && view.pendingDeposits == 0)))
            && (step == Some(ProcessDeposits) ==> view.pendingDeposits > 0)
            && (step == Some(FinalizeCycle) ==>
                  !view.Pending() && view.equityComputed && view.staging.open.None? && view.phase == ProcessingCapital)
            && (step == Some(ComputeEquity) ==> !view.equityComputed && view.staging.open.None?)
            && (step == Some(CloseDeposits) ==> view.acceptingDeposits && view.safety == Normal && view.phase == Idle)
            && (step == Some(OpenDeposits) ==>
                  !view.acceptingDeposits && !view.equityComputed && !view.Pending() && policy.reopen
                  && view.safety == Normal && view.phase == Idle)
  {}

  /** When each step is asked for, in every state. */
  lemma StepsExactly(view: VaultView, window: WindowClock, policy: WindowPolicy)
    ensures var step := NextStep(view, window, policy);
            var normalIdle := view.safety == Normal && view.phase == Idle;
            var processing := view.phase == ProcessingCapital;
            var closed := view.staging.open.None?;
            && (step == Some(ProcessDeposits) <==>
                  && view.pendingDeposits > 0
                  && (|| view.safety == Frozen || view.safety == Closing
                      || (view.safety == WithdrawOnly && !(view.phase == Idle && view.pendingWithdrawals > 0))
                      || (view.safety == Normal && view.equityComputed
                          && (processing || (view.phase == Idle && !view.acceptingDeposits)))))
            && (step == Some(ProcessWithdrawals) <==>
                  && view.pendingWithdrawals > 0
                  && (|| (view.safety == WithdrawOnly && view.phase == Idle)
                      || (view.equityComputed && view.pendingDeposits == 0
                          && (|| (normalIdle && !view.acceptingDeposits)
                              || (view.safety == Normal && processing)
                              || (view.safety == Frozen && (processing || view.phase == Idle))))))
            && (step == Some(ComputeEquity) <==>
                  && closed && !view.equityComputed
                  && (|| (view.safety == Normal && processing)
                      || (normalIdle && view.Pending() && !view.acceptingDeposits)
                      || (view.safety == Frozen && view.pendingDeposits == 0
                          && (processing || (view.phase == Idle && view.pendingWithdrawals > 0)))))
            && (step == Some(FinalizeCycle) <==>
                  && closed && view.equityComputed && processing && !view.Pending()
                  && (view.safety == Normal || view.safety == Frozen))
            && (step == Some(CloseDeposits) <==>
                  && normalIdle && view.acceptingDeposits
                  && (view.Pending() || (window.openFor.Some? && window.openFor.value >= policy.depositWindow)))
            && (step == Some(OpenDeposits) <==>
                  && normalIdle && !view.acceptingDeposits && !view.Pending() && !view.equityComputed && policy.reopen
                  && window.closedFor.Some? && window.closedFor.value >= policy.tradingWindow)
  {}

  /** The modes in which withdrawals are ever served. */
  predicate Served(safety: Safety, phase: Phase) {
    || ((safety == Normal || safety == Frozen) && (phase == Idle || phase == ProcessingCapital))
    || (safety == WithdrawOnly && phase == Idle)
  }

  /** Some vault in this mode is told to process withdrawals exactly when the mode is a served one. */
  lemma WithdrawalsServedExactlyIn(safety: Safety, phase: Phase)
    ensures Served(safety, phase) <==>
      exists view: VaultView, window, policy ::
        view.safety == safety && view.phase == phase && NextStep(view, window, policy) == Some(ProcessWithdrawals)
  {
    if Served(safety, phase) {
      var view := VaultView(phase, safety, true, false, 0, 1, StagingState(0, None));
      assert NextStep(view, WindowClock(None, None), WindowPolicy(false, 0, 0)) == Some(ProcessWithdrawals);
    }
  }

  /**
   * A vault with pending requests in a served mode is left without a step exactly when an open slot
   * blocks pricing and nothing else can go first.
   */
  lemma StuckExactly(view: VaultView, window: WindowClock, policy: WindowPolicy)
    requires Served(view.safety, view.phase) && view.Pending()
    ensures NextStep(view, window, policy).None? <==>
      && view.staging.open.Some?
      && !view.equityComputed
      && view.safety != WithdrawOnly
      && (view.safety == Frozen ==> view.pendingDeposits == 0)
      && (view.safety == Normal && view.phase == Idle ==> !view.acceptingDeposits)
  {}

  // ---- the window clock ----

  type TrackerState = Option<(bool, Instant)>

  function Elapsed(now: Instant, since: Instant): Duration {
    if now < since then 0 else now - since
  }

  function ClockOf(open: bool, held: Duration): WindowClock {
    if open then WindowClock(Some(held), None) else WindowClock(None, Some(held))
  }

  function Observed(state: TrackerState, open: bool, now: Instant): (TrackerState, WindowClock) {
    var since := if state.Some? && state.value.0 == open then state.value.1 else now;
    (Some((open, since)), ClockOf(open, Elapsed(now, since)))
  }

  class WindowTracker {
    var state: TrackerState

    constructor ()
      ensures state == None
    {
      state := None;
    }

    method Observe(open: bool, now: Instant) returns (clock: WindowClock)
      modifies this
      ensures (state, clock) == Observed(old(state), open, now)
    {
      var since := now;
      if state.Some? && state.value.0 == open {
        since := state.value.1;
      } else {
        state := Some((open, now));
      }
      var held := Elapsed(now, since);
      if open {
        clock := WindowClock(Some(held), None);
      } else {
        clock := WindowClock(None, Some(held));
      }
    }
  }

  datatype Observation = Observation(open: bool, now: Instant)

  /** The tracker's state after a trace of observations. */
  function Track(trace: seq<Observation>): TrackerState {
    if trace == [] then None
    else
      var last := trace[|trace| - 1];
      Observed(Track(trace[..|trace| - 1]), last.open, last.now).0
  }

  /** The clock reported for the last observation of a trace. */
  function ClockAfter(trace: seq<Observation>): WindowClock
    requires trace != []
  {
    var last := trace[|trace| - 1];
    Observed(Track(trace[..|trace| - 1]), last.open, last.now).1
  }

  /** The observations from `f` on form the unbroken run that ends the trace. */
  ghost predicate EndsRunFrom(trace: seq<Observation>, f: nat) {
    && f < |trace|
    && (forall i :: f <= i < |trace| ==> trace[i].open == trace[|trace| - 1].open)
    && (f > 0 ==> trace[f - 1].open != trace[|trace| - 1].open)
  }

  /** The state remembers the first observation of the current run, over any trace and any clock. */
  lemma {:induction false} TrackRemembersRun(trace: seq<Observation>, f: nat)
    requires EndsRunFrom(trace, f)
    ensures Track(trace) == Some((trace[f].open, trace[f].now))
    ensures var now, since := trace[|trace| - 1].now, trace[f].now;
            ClockAfter(trace) == ClockOf(trace[f].open, if now < since then 0 else now - since)
  {
    var before := trace[..|trace| - 1];
    if f < |before| {
      assert before[|before| - 1].open == trace[f].open;
      TrackRemembersRun(before, f);
    } else if f > 0 {
      var g := RunStart(before);
      TrackRemembersRun(before, g);
      assert before[g].open == before[|before| - 1].open;
    }
  }

  /** Every trace ends in some unbroken run. */
  lemma {:induction false} RunStart(trace: seq<Observation>) returns (f: nat)
    requires trace != []
    ensures EndsRunFrom(trace, f)
  {
    var before := trace[..|trace| - 1];
    if before != [] && before[|before| - 1].open == trace[|trace| - 1].open {
      f := RunStart(before);
    } else {
      f := |trace| - 1;
    }
  }

  ghost predicate Nondecreasing(trace: seq<Observation>) {
    forall i, j :: 0 <= i < j < |trace| ==> trace[i].now <= trace[j].now
  }

  /** The same state was observed without a break for at least `d`, up to the end of the trace. */
  ghost predicate HeldFor(trace: seq<Observation>, d: Duration) {
    exists j: nat :: SinceHeld(trace, d, j)
  }

  ghost predicate SinceHeld(trace: seq<Observation>, d: Duration, j: nat) {
    && j < |trace|
    && trace[|trace| - 1].now - trace[j].now >= d
    && forall i :: j <= i < |trace| ==> trace[i].open == trace[|trace| - 1].open
  }

  /** The reported duration reaches `d` exactly when the state was held for `d`. */
  lemma ClockReachesExactly(trace: seq<Observation>, d: Duration)
    requires trace != [] && Nondecreasing(trace)
    ensures var open := trace[|trace| - 1].open;
            var held := if open then ClockAfter(trace).openFor else ClockAfter(trace).closedFor;
            held.Some? && (held.value >= d <==> HeldFor(trace, d))
  {
    var f := RunStart(trace);
    TrackRemembersRun(trace, f);
    var last := |trace| - 1;
    if trace[last].now - trace[f].now >= d {
      assert SinceHeld(trace, d, f);
    }
    if HeldFor(trace, d) {
      var j: nat :| SinceHeld(trace, d, j);
      assert f <= j;
      assert trace[f].now <= trace[j].now;
    }
  }

  /**
   * Cadence: with clocks that do not go back, a drained normal idle vault that is observed through
   * the tracker closes its window exactly when it was seen open for the whole deposit window, and
   * reopens exactly when it may and was seen closed for the whole trading window.
   */
  lemma WindowCadence(trace: seq<Observation>, view: VaultView, policy: WindowPolicy)
    requires trace != [] && Nondecreasing(trace)
    requires view.safety == Normal && view.phase == Idle && !view.Pending()
    requires view.acceptingDeposits == trace[|trace| - 1].open
    ensures NextStep(view, ClockAfter(trace), policy)
         == if view.acceptingDeposits && HeldFor(trace, policy.depositWindow) then Some(CloseDeposits)
            else if !view.acceptingDeposits && policy.reopen && !view.equityComputed
                && HeldFor(trace, policy.tradingWindow)
            then Some(OpenDeposits)
            else None
  {
    ClockReachesExactly(trace, policy.depositWindow);
    ClockReachesExactly(trace, policy.tradingWindow);
  }
}
