/** A cycle of the escrow manager: debts, targets and an action for every receiver, three
    batches of actions, and the deposits as they are granted. */
module Cycle {
  import opened Common
  import opened Ladder
  import opened Reclamation
  import opened Reduction
  import opened Escrow

  datatype Config = Config(
    fillFactor: real,
    withdrawEnabled: bool,
    marginBps: nat,
    minWithdrawGrt: nat,
    debts: map<Address, nat>,
    dryRun: bool)

  /** What a cycle reads: the sorted receivers, fees and RAVs owed to them, and the time of the
      latest block if it could be read. */
  datatype Inputs = Inputs(
    receivers: seq<Address>,
    receipts: map<Address, nat>,
    ravs: map<Address, nat>,
    chainNow: Option<nat>)

  function Owed(owed: map<Address, nat>, receiver: Address): nat {
    if receiver in owed then owed[receiver] else 0
  }

  /** The debt seen in the message streams, without the configured floor. */
  function SeenDebt(inputs: Inputs, receiver: Address): nat {
    Max(Owed(inputs.receipts, receiver), Owed(inputs.ravs, receiver))
  }

  function Debt(config: Config, inputs: Inputs, receiver: Address): nat {
    Max(SeenDebt(inputs, receiver), Owed(config.debts, receiver) * GRT)
  }

  // ---------- Debts, targets and the policy, in their own terms ----------

  /** The least amount that covers the fees owed and the RAVs owed, each if there is one. */
  predicate Covers(inputs: Inputs, receiver: Address, debt: nat) {
    && (receiver in inputs.receipts ==> inputs.receipts[receiver] <= debt)
    && (receiver in inputs.ravs ==> inputs.ravs[receiver] <= debt)
  }

  predicate Seen(inputs: Inputs, receiver: Address, debt: nat) {
    && Covers(inputs, receiver, debt)
    && (|| debt == 0
        || (receiver in inputs.receipts && inputs.receipts[receiver] == debt)
        || (receiver in inputs.ravs && inputs.ravs[receiver] == debt))
  }

  /** The least amount that also covers the configured floor, which is in whole GRT. */
  predicate Owes(config: Config, inputs: Inputs, receiver: Address, debt: nat) {
    && Covers(inputs, receiver, debt)
    && (receiver in config.debts ==> config.debts[receiver] * GRT <= debt)
    && (|| Seen(inputs, receiver, debt)
        || (receiver in config.debts && config.debts[receiver] * GRT == debt))
  }

  lemma DebtExactly(config: Config, inputs: Inputs, receiver: Address)
    ensures Seen(inputs, receiver, SeenDebt(inputs, receiver))
    ensures Owes(config, inputs, receiver, Debt(config, inputs, receiver))
  {
  }

  /** There is just one such amount, whichever way it is arrived at. */
  lemma OwesUnique(config: Config, inputs: Inputs, receiver: Address, debt1: nat, debt2: nat)
    requires Owes(config, inputs, receiver, debt1) && Owes(config, inputs, receiver, debt2)
    ensures debt1 == debt2
  {
  }

  /** The target is that of what is owed. */
  ghost predicate TargetFor(config: Config, inputs: Inputs, receiver: Address, target: nat) {
    exists debt :: Owes(config, inputs, receiver, debt) && Reaches(debt, config.fillFactor, target)
  }

  /** Fees or RAVs of some receiver of the cycle are owed; configured floors do not count. */
  predicate SomeOwed(inputs: Inputs) {
    exists r ::
      && r in inputs.receivers
      && ((r in inputs.receipts && inputs.receipts[r] > 0) || (r in inputs.ravs && inputs.ravs[r] > 0))
  }

  /** Escrow is reclaimed when that is enabled and something is owed, by the block time that was
      read and the configured margin and least withdrawal, and otherwise not at all. */
  predicate PolicyOf(config: Config, inputs: Inputs, reclaim: Option<Reclaim>) {
    && (reclaim.Some? <==> config.withdrawEnabled && SomeOwed(inputs))
    && (reclaim.Some? ==>
          && reclaim.value.chainNow == inputs.chainNow
          && reclaim.value.marginBps == config.marginBps
          && reclaim.value.minWithdraw == config.minWithdrawGrt * GRT)
  }

  lemma PolicyExactly(config: Config, inputs: Inputs)
    ensures PolicyOf(config, inputs, ReclaimOf(config, inputs))
  {
    forall r ensures SeenDebt(inputs, r) > 0 <==>
                     (r in inputs.receipts && inputs.receipts[r] > 0) || (r in inputs.ravs && inputs.ravs[r] > 0) {
      DebtExactly(config, inputs, r);
    }
  }

  lemma TargetExactly(config: Config, inputs: Inputs, receiver: Address)
    requires Admissible(config, inputs) && receiver in inputs.receivers
    ensures TargetFor(config, inputs, receiver, TargetOf(config, inputs, receiver))
  {
    hide Reaches;
    var debt := Debt(config, inputs, receiver);
    DebtExactly(config, inputs, receiver);
    LeastRungReaches(debt, config.fillFactor, LeastRung(debt, config.fillFactor));
  }

  /** What is decided for every receiver of some targets under a policy. */
  ghost function DecidedBy(targets: map<Address, nat>, ledger: Ledger, policy: Option<Reclaim>): map<Address, Action> {
    map r | r in targets :: Decide(ledger.Account(r), targets[r], policy)
  }

  ghost predicate TargetsFor(config: Config, inputs: Inputs, targets: map<Address, nat>) {
    && (forall r :: r in targets <==> r in inputs.receivers)
    && (forall r :: r in targets ==> TargetFor(config, inputs, r, targets[r]))
  }

  lemma DecisionsExactly(config: Config, inputs: Inputs, ledger: Ledger) returns (targets: map<Address, nat>)
    requires Admissible(config, inputs)
    ensures TargetsFor(config, inputs, targets)
    ensures DecidedBy(targets, ledger, ReclaimOf(config, inputs)) == Decisions(config, inputs, ledger)
  {
    targets := map r | r in inputs.receivers :: TargetOf(config, inputs, r);
    forall r | r in targets ensures TargetFor(config, inputs, r, targets[r]) {
      TargetExactly(config, inputs, r);
    }
  }

  /** No escrow is touched but to fund receivers when reclamation is disabled or nothing is owed,
      and no thaw is withdrawn when the block time could not be read. */
  lemma NoReclamation(config: Config, inputs: Inputs, ledger: Ledger, receiver: Address)
    requires Admissible(config, inputs) && receiver in inputs.receivers
    ensures !config.withdrawEnabled || !SomeOwed(inputs) ==>
              Decision(config, inputs, ledger, receiver).Nothing? || Decision(config, inputs, ledger, receiver).Deposit?
    ensures inputs.chainNow.None? ==> !Decision(config, inputs, ledger, receiver).Withdraw?
  {
    PolicyExactly(config, inputs);
  }

  predicate DebtReady(debts: map<Address, nat>) {
    exists receiver :: receiver in debts && debts[receiver] > 0
  }

  /** Reclamation needs to be enabled, and some debt to have been seen: configured floors do
      not count as a sign that the streams have caught up. */
  ghost function ReclaimOf(config: Config, inputs: Inputs): Option<Reclaim> {
    if config.withdrawEnabled && exists r :: r in inputs.receivers && SeenDebt(inputs, r) > 0
    then Some(Reclaim(inputs.chainNow, config.marginBps, config.minWithdrawGrt * GRT))
    else None
  }

  ghost predicate Admissible(config: Config, inputs: Inputs) {
    && 0.0 < config.fillFactor <= 1.0
    && StrictlyAscending(inputs.receivers)
    && forall r :: r in inputs.receivers ==> Debt(config, inputs, r) as real < Capacity(LAST_RUNG, config.fillFactor)
  }

  ghost function TargetOf(config: Config, inputs: Inputs, receiver: Address): nat
    requires Admissible(config, inputs) && receiver in inputs.receivers
  {
    Target(Debt(config, inputs, receiver), config.fillFactor)
  }

  ghost function Decision(config: Config, inputs: Inputs, ledger: Ledger, receiver: Address): Action
    requires Admissible(config, inputs) && receiver in inputs.receivers
  {
    Decide(ledger.Account(receiver), TargetOf(config, inputs, receiver), ReclaimOf(config, inputs))
  }

  /** The one action of each receiver. */
  ghost function Decisions(config: Config, inputs: Inputs, ledger: Ledger): map<Address, Action>
    requires Admissible(config, inputs)
  {
    map r | r in inputs.receivers :: Decision(config, inputs, ledger, r)
  }

  datatype Plan = Plan(deposits: Entries, thaws: Entries, withdrawals: seq<Address>)

  /** The batches hold exactly the decided actions, each in receiver order. */
  predicate Implements(plan: Plan, actions: map<Address, Action>) {
    && StrictlyAscending(Keys(plan.deposits))
    && StrictlyAscending(Keys(plan.thaws))
    && StrictlyAscending(plan.withdrawals)
    && (forall e :: e in plan.deposits ==> e.0 in actions && actions[e.0] == Deposit(e.1))
    && (forall e :: e in plan.thaws ==> e.0 in actions && actions[e.0] == Thaw(e.1))
    && (forall r :: r in plan.withdrawals ==> r in actions && actions[r] == Withdraw)
    && (forall r :: r in actions ==> Includes(plan, r, actions[r]))
  }

  predicate Includes(plan: Plan, receiver: Address, action: Action) {
    match action
    case Nothing => true
    case Withdraw => receiver in plan.withdrawals
    case Deposit(amount) => (receiver, amount) in plan.deposits
    case Thaw(amount) => (receiver, amount) in plan.thaws
  }

  lemma AscendingAppend(entries: Entries, receiver: Address, amount: nat)
    requires StrictlyAscending(Keys(entries)) && forall e :: e in entries ==> e.0 < receiver
    ensures StrictlyAscending(Keys(entries + [(receiver, amount)]))
  {
    var keys := Keys(entries + [(receiver, amount)]);
    forall i, j | 0 <= i < j < |keys| ensures keys[i] < keys[j] {
      assert entries[i] in entries;
      assert keys[i] == Keys(entries)[i];
      if j < |entries| { assert keys[j] == Keys(entries)[j]; }
    }
  }

  function Planned(plan: Plan, receiver: Address, action: Action): Plan {
    match action
    case Nothing => plan
    case Withdraw => plan.(withdrawals := plan.withdrawals + [receiver])
    case Deposit(amount) => plan.(deposits := plan.deposits + [(receiver, amount)])
    case Thaw(amount) => plan.(thaws := plan.thaws + [(receiver, amount)])
  }

  lemma PlanNext(plan: Plan, actions: map<Address, Action>, receiver: Address, action: Action)
    requires Implements(plan, actions) && forall r :: r in actions ==> r < receiver
    ensures Implements(Planned(plan, receiver, action), actions[receiver := action])
  {
    match action
    case Nothing =>
    case Withdraw => assert forall i :: 0 <= i < |plan.withdrawals| ==> plan.withdrawals[i] in plan.withdrawals;
    case Deposit(amount) => AscendingAppend(plan.deposits, receiver, amount);
    case Thaw(amount) => AscendingAppend(plan.thaws, receiver, amount);
  }

  method SeenDebts(inputs: Inputs) returns (debts: map<Address, nat>)
    ensures debts == map r | r in inputs.receivers :: SeenDebt(inputs, r)
    ensures forall r :: r in debts <==> r in inputs.receivers
    ensures forall r :: r in debts ==> Seen(inputs, r, debts[r])
  {
    debts := map[];
    for i := 0 to |inputs.receivers|
      invariant debts == map r | r in inputs.receivers[..i] :: SeenDebt(inputs, r)
    {
      debts := debts[inputs.receivers[i] := SeenDebt(inputs, inputs.receivers[i])];
    }
    assert inputs.receivers[..|inputs.receivers|] == inputs.receivers;
  }

  method ReclaimPolicy(config: Config, inputs: Inputs, debts: map<Address, nat>) returns (reclaim: Option<Reclaim>)
    requires debts == map r | r in inputs.receivers :: SeenDebt(inputs, r)
    ensures reclaim == ReclaimOf(config, inputs)
    ensures PolicyOf(config, inputs, reclaim)
  {
    PolicyExactly(config, inputs);
    reclaim := None;
    assert forall r :: r in inputs.receivers ==> debts[r] == SeenDebt(inputs, r);
    if config.withdrawEnabled && DebtReady(debts) {
      reclaim := Some(Reclaim(inputs.chainNow, config.marginBps, config.minWithdrawGrt * GRT));
    }
  }

  /** The plan after the first `n` receivers. */
  ghost function PlanUpTo(config: Config, inputs: Inputs, ledger: Ledger, n: nat): Plan
    requires Admissible(config, inputs) && n <= |inputs.receivers|
  {
    if n == 0 then Plan([], [], [])
    else
      var receiver := inputs.receivers[n - 1];
      Planned(PlanUpTo(config, inputs, ledger, n - 1), receiver, Decision(config, inputs, ledger, receiver))
  }

  ghost function DecisionsUpTo(config: Config, inputs: Inputs, ledger: Ledger, n: nat): map<Address, Action>
    requires Admissible(config, inputs) && n <= |inputs.receivers|
  {
    map r | r in inputs.receivers[..n] :: Decision(config, inputs, ledger, r)
  }

  lemma OneMoreDecision(config: Config, inputs: Inputs, ledger: Ledger, n: nat)
    requires Admissible(config, inputs) && 0 < n <= |inputs.receivers|
    ensures var receiver, before := inputs.receivers[n - 1], DecisionsUpTo(config, inputs, ledger, n - 1);
            && DecisionsUpTo(config, inputs, ledger, n) ==
               before[receiver := Decision(config, inputs, ledger, receiver)]
            && forall r :: r in before ==> r < receiver
  {
    hide Decision, Debt;
    assert inputs.receivers[..n] == inputs.receivers[..n - 1] + [inputs.receivers[n - 1]];
  }

  lemma NothingPlanned()
    ensures Implements(Plan([], [], []), map[])
  {
  }

  lemma {:induction false} PlanUpToImplements(config: Config, inputs: Inputs, ledger: Ledger, n: nat)
    requires Admissible(config, inputs) && n <= |inputs.receivers|
    ensures Implements(PlanUpTo(config, inputs, ledger, n), DecisionsUpTo(config, inputs, ledger, n))
  {
    hide Admissible, Decision, Planned, Implements;
    if n == 0 {
      NothingPlanned();
      assert DecisionsUpTo(config, inputs, ledger, 0) == map[];
    } else {
      hide DecisionsUpTo;
      var receiver := inputs.receivers[n - 1];
      PlanUpToImplements(config, inputs, ledger, n - 1);
      OneMoreDecision(config, inputs, ledger, n);
      PlanNext(PlanUpTo(config, inputs, ledger, n - 1), DecisionsUpTo(config, inputs, ledger, n - 1),
               receiver, Decision(config, inputs, ledger, receiver));
    }
  }

  lemma AllDecisions(config: Config, inputs: Inputs, ledger: Ledger)
    requires Admissible(config, inputs)
    ensures DecisionsUpTo(config, inputs, ledger, |inputs.receivers|) == Decisions(config, inputs, ledger)
  {
    assert inputs.receivers[..|inputs.receivers|] == inputs.receivers;
  }

  method PlanCycle(config: Config, inputs: Inputs, ledger: Ledger)
    returns (plan: Plan, ghost targets: map<Address, nat>, ghost policy: Option<Reclaim>)
    requires Admissible(config, inputs)
    ensures Implements(plan, Decisions(config, inputs, ledger))
    // In its own terms: for every receiver what is decided for its target under the policy.
    ensures PolicyOf(config, inputs, policy) && TargetsFor(config, inputs, targets)
    ensures Implements(plan, DecidedBy(targets, ledger, policy))
  {
    hide Seen, PolicyOf, TargetsFor, DecidedBy, Reaches;
    var debts := SeenDebts(inputs);
    var reclaim := ReclaimPolicy(config, inputs, debts);
    plan := Plan([], [], []);
    for i := 0 to |inputs.receivers|
      invariant plan == PlanUpTo(config, inputs, ledger, i)
    {
      var receiver := inputs.receivers[i];
      var debt := Max(debts[receiver], Owed(config.debts, receiver) * GRT);
      var target := NextBalance(debt, config.fillFactor);
      match Decide(ledger.Account(receiver), target, reclaim)
      case Nothing =>
      case Withdraw => plan := plan.(withdrawals := plan.withdrawals + [receiver]);
      case Deposit(amount) => plan := plan.(deposits := plan.deposits + [(receiver, amount)]);
      case Thaw(amount) => plan := plan.(thaws := plan.thaws + [(receiver, amount)]);
    }
    PlanUpToImplements(config, inputs, ledger, |inputs.receivers|);
    AllDecisions(config, inputs, ledger);
    policy := reclaim;
    targets := DecisionsExactly(config, inputs, ledger);
  }

  /** No receiver is in two batches, or twice in one. */
  lemma BatchesDisjoint(plan: Plan, actions: map<Address, Action>)
    requires Implements(plan, actions)
    ensures forall d, t :: d in plan.deposits && t in plan.thaws ==> d.0 != t.0
    ensures forall d, r :: d in plan.deposits && r in plan.withdrawals ==> d.0 != r
    ensures forall t, r :: t in plan.thaws && r in plan.withdrawals ==> t.0 != r
  {
  }

  // ---------- Granting the deposits ----------

  /** Deposits as sent: all of them in full when they fit the cap, else cut down. */
  ghost predicate Grants(desired: Entries, granted: Entries) {
    && Keys(granted) == Keys(desired)
    && if Sum(Amounts(desired)) <= MAX_ADJUSTMENT then granted == desired
       else exists passes, done ::
              && StopsAt(Amounts(desired), passes, done)
              && Amounts(granted) == Filled(Amounts(desired), passes, done)
  }

  method Grant(desired: Entries) returns (granted: Entries)
    requires StrictlyAscending(Keys(desired))
    ensures Grants(desired, granted)
  {
    if Sum(Amounts(desired)) <= MAX_ADJUSTMENT {
      granted := desired;
    } else {
      ghost var passes, done;
      granted, passes, done := ReduceAdjustments(desired);
    }
  }

  lemma GrantUnique(desired: Entries, g1: Entries, g2: Entries)
    requires Grants(desired, g1) && Grants(desired, g2)
    ensures g1 == g2
  {
    if Sum(Amounts(desired)) > MAX_ADJUSTMENT {
      var p1, d1 :| StopsAt(Amounts(desired), p1, d1) && Amounts(g1) == Filled(Amounts(desired), p1, d1);
      var p2, d2 :| StopsAt(Amounts(desired), p2, d2) && Amounts(g2) == Filled(Amounts(desired), p2, d2);
      StopUnique(Amounts(desired), p1, d1, p2, d2);
      forall i | 0 <= i < |g1| ensures g1[i] == g2[i] {
        assert g1[i] == (Keys(g1)[i], Amounts(g1)[i]);
        assert g2[i] == (Keys(g2)[i], Amounts(g2)[i]);
      }
    }
  }

  /** A grant stays between the desire and the minimum deposit, whichever way round they are. */
  predicate Between(desired: nat, granted: nat) {
    Min(desired, MIN_DEPOSIT) <= granted <= Max(desired, MIN_DEPOSIT)
  }

  lemma GrantBetween(desired: Entries, granted: Entries, i: nat)
    requires Grants(desired, granted) && i < |desired|
    ensures |granted| == |desired| && granted[i].0 == desired[i].0 && Between(desired[i].1, granted[i].1)
  {
    assert Keys(granted)[i] == Keys(desired)[i];
    if Sum(Amounts(desired)) > MAX_ADJUSTMENT {
      var passes, done :| StopsAt(Amounts(desired), passes, done) &&
          Amounts(granted) == Filled(Amounts(desired), passes, done);
      Fair(Amounts(desired), passes, done, i, i);
      assert granted[i].1 == Amounts(granted)[i];
    }
  }
}
