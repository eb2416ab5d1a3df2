/**
 * Whole runs of the crank: the step it asks for, followed by that step's effect on chain. The
 * effects are the program's, so they are stated as a relation; the crank and the withdrawal
 * planner are the ones modelled elsewhere.
 */
module Drain {
  import opened Common
  import opened Crank
  import opened Withdrawals

  /** A vault as the chain holds it: what the crank sees, the withdrawal queue, and the share supply. */
  datatype Vault = Vault(view: VaultView, queue: seq<Request>, supply: u64)

  /** One request per user, and shares requested are outstanding shares. */
  ghost predicate Sound(v: Vault) {
    && v.view.pendingWithdrawals == |v.queue|
    && DistinctUsers(v.queue)
    && Total(v.queue) <= v.supply
  }

  /** The users a plan redeems, in batches or finally. */
  function Planned(plan: WithdrawalPlan): set<Pubkey> {
    UserSet(plan.partial) + if plan.finalUser.Some? then {plan.finalUser.value} else {}
  }

  /** Some of the planned users, at least one, are redeemed. */
  ghost predicate Redeems(v: Vault, v': Vault, done: set<Pubkey>) {
    && done != {}
    && done <= Planned(Plan(v.queue, v.supply))
    && v'.queue == Without(v.queue, done)
    && v'.supply == v.supply - Burned(v.queue, done)
    && |v'.queue| <= U32_MAX
    && v'.view == v.view.(pendingWithdrawals := |v'.queue|)
  }

  /** The assumed effect of a confirmed step with no new requests arriving. */
  ghost predicate Effect(step: CapitalStep, v: Vault, v': Vault) {
    match step
    case CloseDeposits => v' == v.(view := v.view.(acceptingDeposits := false))
    case OpenDeposits => v' == v.(view := v.view.(acceptingDeposits := true))
    case ComputeEquity => v' == v.(view := v.view.(equityComputed := true))
    case ProcessDeposits =>
      && v'.view.pendingDeposits < v.view.pendingDeposits
      && v'.supply >= v.supply
      && v' == v.(view := v.view.(pendingDeposits := v'.view.pendingDeposits), supply := v'.supply)
    case ProcessWithdrawals => exists done :: Redeems(v, v', done)
    case FinalizeCycle =>
      && v'.view.safety == v.view.safety && v'.view.staging == v.view.staging
      && v'.view.pendingDeposits == v.view.pendingDeposits && v'.view.pendingWithdrawals == v.view.pendingWithdrawals
      && v'.queue == v.queue && v'.supply == v.supply
  }

  /** One pass of the crank that asked for a step and confirmed it. */
  ghost predicate Pass(v: Vault, v': Vault, window: WindowClock, policy: WindowPolicy) {
    NextStep(v.view, window, policy).Some? && Effect(NextStep(v.view, window, policy).value, v, v')
  }

  /** Steps left before a served vault is drained, at most. */
  function Measure(v: Vault): nat {
    v.view.pendingDeposits + |v.queue|
    + (if v.view.acceptingDeposits then 1 else 0)
    + (if v.view.equityComputed then 0 else 1)
  }

  ghost predicate Ready(v: Vault) {
    Sound(v) && Served(v.view.safety, v.view.phase) && v.view.staging.open.None?
  }

  /** Every planned user is in the queue. */
  lemma PlannedAreQueued(queue: seq<Request>, supply: u64, u: Pubkey)
    requires u in Planned(Plan(queue, supply))
    ensures HasRequest(queue, u)
  {
    var plan := Plan(queue, supply);
    if plan.finalUser.Some? {
      assert queue[0].user == u;
    } else if queue != [] && Queued(queue) >= supply {
      var sorted := SortDescending(queue);
      SortOrders(queue);
      ListedUser(sorted[1..], u);
      var i :| 0 <= i < |sorted[1..]| && sorted[1..][i].user == u;
      SortKeeps(queue, sorted[i + 1]);
    } else {
      ListedUser(queue, u);
    }
  }

  lemma {:induction false} RedeemingShortens(queue: seq<Request>, done: set<Pubkey>, k: nat)
    requires k < |queue| && queue[k].user in done
    ensures |Without(queue, done)| < |queue|
  {
    var init := queue[..|queue| - 1];
    RedemptionConserves(init, done);
    if k < |init| {
      RedeemingShortens(init, done, k);
    }
  }

  lemma RedeemsSound(v: Vault, v': Vault, done: set<Pubkey>)
    requires Sound(v) && Redeems(v, v', done)
    ensures Sound(v') && |v'.queue| < |v.queue|
  {
    RedemptionConserves(v.queue, done);
    WithoutDistinct(v.queue, done);
    var u :| u in done;
    PlannedAreQueued(v.queue, v.supply, u);
    var k :| 0 <= k < |v.queue| && v.queue[k].user == u;
    RedeemingShortens(v.queue, done, k);
  }

  /** Every pass keeps the queue sound. */
  lemma PassKeepsSound(v: Vault, v': Vault, window: WindowClock, policy: WindowPolicy)
    requires Sound(v) && Pass(v, v', window, policy)
    ensures Sound(v')
  {
    if NextStep(v.view, window, policy) == Some(ProcessWithdrawals) {
      var done :| Redeems(v, v', done);
      RedeemsSound(v, v', done);
    }
  }

  /** While requests are pending, a ready vault always has a step, the step stays ready and gets closer. */
  lemma PassDescends(v: Vault, v': Vault, window: WindowClock, policy: WindowPolicy)
    requires Ready(v) && v.view.Pending() && Pass(v, v', window, policy)
    ensures Ready(v') && Measure(v') < Measure(v)
  {
    StepGates(v.view, window, policy);
    PassKeepsSound(v, v', window, policy);
    if NextStep(v.view, window, policy) == Some(ProcessWithdrawals) {
      var done :| Redeems(v, v', done);
      RedeemsSound(v, v', done);
    }
  }

  /** A ready vault with pending requests can always take a pass, whatever its clock says. */
  lemma PassExists(v: Vault, window: WindowClock, policy: WindowPolicy) returns (v': Vault)
    requires Ready(v) && v.view.Pending()
    ensures Pass(v, v', window, policy)
  {
    StuckExactly(v.view, window, policy);
    StepGates(v.view, window, policy);
    var step := NextStep(v.view, window, policy).value;
    match step
    case CloseDeposits => v' := v.(view := v.view.(acceptingDeposits := false));
    case OpenDeposits => v' := v.(view := v.view.(acceptingDeposits := true));
    case ComputeEquity => v' := v.(view := v.view.(equityComputed := true));
    case ProcessDeposits => v' := v.(view := v.view.(pendingDeposits := 0));
    case FinalizeCycle => v' := v;
    case ProcessWithdrawals => v' := RedeemOne(v);
  }

  lemma RedeemOne(v: Vault) returns (v': Vault)
    requires Sound(v) && v.queue != []
    ensures Effect(ProcessWithdrawals, v, v')
  {
    var plan := Plan(v.queue, v.supply);
    PlanProgresses(v.queue, v.supply);
    assert |v.queue| == 1 ==> Total(v.queue) == v.queue[0].shares by {
      if |v.queue| == 1 {
        assert v.queue[..0] == [];
      }
    }
    var u := if plan.finalUser.Some? then plan.finalUser.value else plan.partial[0];
    var done := {u};
    RedemptionConserves(v.queue, done);
    var queue := Without(v.queue, done);
    v' := Vault(v.view.(pendingWithdrawals := |queue|), queue, v.supply - Burned(v.queue, done));
    assert u in plan.partial || plan.finalUser == Some(u);
    assert done <= Planned(plan);
    assert Redeems(v, v', done);
  }

  /** A run of passes, with any clock readings. */
  ghost predicate CrankRun(run: seq<Vault>, windows: seq<WindowClock>, policy: WindowPolicy) {
    && |run| == |windows| + 1
    && forall i :: 0 <= i < |windows| ==> Pass(run[i], run[i + 1], windows[i], policy)
  }

  lemma {:induction false} RunStaysSound(run: seq<Vault>, windows: seq<WindowClock>, policy: WindowPolicy, k: nat)
    requires CrankRun(run, windows, policy) && Sound(run[0]) && k < |run|
    ensures Sound(run[k])
  {
    if k > 0 {
      RunStaysSound(run, windows, policy, k - 1);
      PassKeepsSound(run[k - 1], run[k], windows[k - 1], policy);
    }
  }

  /** Until it is drained, a run has used up its measure one unit per pass. */
  lemma {:induction false} RunDescends(run: seq<Vault>, windows: seq<WindowClock>, policy: WindowPolicy, k: nat)
    requires CrankRun(run, windows, policy) && Ready(run[0]) && k < |run|
    requires forall i :: 0 <= i < k ==> run[i].view.Pending()
    ensures Ready(run[k]) && Measure(run[k]) + k <= Measure(run[0])
  {
    if k > 0 {
      RunDescends(run, windows, policy, k - 1);
      PassDescends(run[k - 1], run[k], windows[k - 1], policy);
    }
  }

  ghost predicate Drained(v: Vault) {
    !v.view.Pending() && v.queue == []
  }

  /**
   * Every run from a ready vault, however long: it drains both queues within `Measure` passes, or it is still shorter
   * than that and its last vault is ready with requests pending.
   */
  lemma CrankDrains(run: seq<Vault>, windows: seq<WindowClock>, policy: WindowPolicy)
    requires CrankRun(run, windows, policy) && Ready(run[0])
    ensures || (exists k :: 0 <= k < |run| && k <= Measure(run[0]) && Drained(run[k]))
            || (|windows| < Measure(run[0]) && Ready(run[|run| - 1]) && run[|run| - 1].view.Pending())
  {
    var last := Min(|windows|, Measure(run[0]));
    if forall k :: 0 <= k <= last ==> run[k].view.Pending() {
      RunDescends(run, windows, policy, last);
    } else {
      var k :| 0 <= k <= last && !run[k].view.Pending();
      RunStaysSound(run, windows, policy, k);
      assert Drained(run[k]);
    }
  }

  ghost predicate CanPass(v: Vault, window: WindowClock, policy: WindowPolicy) {
    exists v' :: Pass(v, v', window, policy)
  }

  /** A run that some clock reading does not let go on has drained both queues on the way. */
  lemma StoppedRunDrained(run: seq<Vault>, windows: seq<WindowClock>, policy: WindowPolicy, window: WindowClock)
    requires CrankRun(run, windows, policy) && Ready(run[0])
    requires !CanPass(run[|run| - 1], window, policy)
    ensures exists k :: 0 <= k < |run| && k <= Measure(run[0]) && Drained(run[k])
  {
    CrankDrains(run, windows, policy);
    if Ready(run[|run| - 1]) && run[|run| - 1].view.Pending() {
      var v' := PassExists(run[|run| - 1], window, policy);
    }
  }

  /** The clock readings from reading `at` on. */
  function Readings(clock: nat -> WindowClock, at: nat, n: nat): seq<WindowClock>
    decreases n
  {
    if n == 0 then [] else [clock(at)] + Readings(clock, at + 1, n - 1)
  }

  lemma RunPrepend(v: Vault, window: WindowClock, run: seq<Vault>, windows: seq<WindowClock>, policy: WindowPolicy)
    requires CrankRun(run, windows, policy) && Pass(v, run[0], window, policy)
    ensures CrankRun([v] + run, [window] + windows, policy)
  {
    var longer, readings := [v] + run, [window] + windows;
    forall i | 0 <= i < |readings|
      ensures Pass(longer[i], longer[i + 1], readings[i], policy)
    {
      if i > 0 {
        assert Pass(run[i - 1], run[i], windows[i - 1], policy);
      }
    }
  }

  /** From any ready vault and any clock there is a run that ends drained, of at most `Measure` passes. */
  lemma {:induction false} DrainingRun(v: Vault, clock: nat -> WindowClock, at: nat, policy: WindowPolicy)
    returns (run: seq<Vault>, windows: seq<WindowClock>)
    requires Ready(v)
    ensures CrankRun(run, windows, policy) && run[0] == v && |windows| <= Measure(v) && Drained(run[|run| - 1])
    ensures windows == Readings(clock, at, |windows|)
    decreases Measure(v)
  {
    if !v.view.Pending() {
      return [v], [];
    }
    var v' := PassExists(v, clock(at), policy);
    PassDescends(v, v', clock(at), policy);
    run, windows := DrainingRun(v', clock, at + 1, policy);
    RunPrepend(v, clock(at), run, windows, policy);
    run, windows := [v] + run, [clock(at)] + windows;
  }

  /**
   * Over every pass from a sound vault, outstanding supply reaches zero only by redeeming the sole
   * remaining holder through the final path; partial batches never do it, even when cut short.
   */
  lemma SupplyDrainedOnlyByFinal(v: Vault, v': Vault, window: WindowClock, policy: WindowPolicy)
    requires Sound(v) && v.supply > 0 && Pass(v, v', window, policy) && v'.supply == 0
    ensures NextStep(v.view, window, policy) == Some(ProcessWithdrawals)
    ensures |v.queue| == 1 && v.queue[0].shares == v.supply
    ensures Plan(v.queue, v.supply) == WithdrawalPlan([], Some(v.queue[0].user))
    ensures v.view.safety != WithdrawOnly ==> v.view.pendingDeposits == 0
  {
    StepGates(v.view, window, policy);
    assert NextStep(v.view, window, policy) == Some(ProcessWithdrawals);
    var done :| Redeems(v, v', done);
    var plan := Plan(v.queue, v.supply);
    if plan.finalUser.None? {
      BurnMonotone(v.queue, done, UserSet(plan.partial));
      PartialNeverDrains(v.queue, v.supply);
    }
  }

  /** Over whole runs: a supply that starts above zero and ends at zero was ended by a final redemption. */
  lemma {:induction false} RunDrainsSupplyOnlyByFinal(run: seq<Vault>, windows: seq<WindowClock>, policy: WindowPolicy)
        returns (k: nat)
    requires CrankRun(run, windows, policy) && Sound(run[0])
    requires run[0].supply > 0 && run[|run| - 1].supply == 0
    ensures k < |windows| && run[k].supply > 0 && run[k + 1].supply == 0
    ensures |run[k].queue| == 1 && Plan(run[k].queue, run[k].supply) == WithdrawalPlan([], Some(run[k].queue[0].user))
  {
    k := |windows| - 1;
    while run[k].supply == 0
      invariant 0 <= k < |windows| && run[k + 1].supply == 0
      decreases k
    {
      k := k - 1;
    }
    RunStaysSound(run, windows, policy, k);
    SupplyDrainedOnlyByFinal(run[k], run[k + 1], windows[k], policy);
  }
}
