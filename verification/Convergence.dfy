/** What cycle after cycle of the capped deposits achieves. */
module Convergence {
  import opened Common
  import opened Ladder
  import opened Reclamation
  import opened Reduction
  import opened Escrow
  import opened Cycle
  import opened Batches

  const ALL: seq<Batch> := [Thaws, Deposits, Withdrawals]

  /** A cycle in which every batch lands, the wallet covering its deposits. */
  ghost predicate FullCycle(config: Config, inputs: Inputs, before: Ledger, after: Ledger, plan: Plan, sent: Plan,
                            times: Times, period: nat) {
    && SentFor(config, inputs, before, plan, sent, times)
    && Sum(Amounts(sent.deposits)) <= before.wallet
    && Multicall(before, Flatten(ALL, sent, times), period) == Some(after)
  }

  /** A plan that is sent in full, with funds for its deposits, lands. */
  lemma PlanLands(config: Config, inputs: Inputs, before: Ledger, plan: Plan, sent: Plan, times: Times, period: nat)
    returns (after: Ledger)
    requires SentFor(config, inputs, before, plan, sent, times) && Sum(Amounts(sent.deposits)) <= before.wallet
    requires period > 0
    ensures FullCycle(config, inputs, before, after, plan, sent, times, period)
  {
    PlannedCallsLand(config, inputs, before, plan, sent, times, ALL, period);
    after := Multicall(before, Flatten(ALL, sent, times), period).value;
  }

  /** What such a cycle does to one receiver's account. */
  predicate Advances(account: EscrowAccount, next: EscrowAccount, target: nat, reclaim: Option<Reclaim>) {
    match Decide(account, target, reclaim)
    case Nothing => next == account
    case Withdraw => next == EscrowAccount(account.Effective(), 0, 0)
    case Deposit(desired) =>
      && next == account.(balance := next.balance)
      && next.balance >= account.balance && Between(desired, next.balance - account.balance)
    case Thaw(amount) => next.balance == account.balance && next.thawing == amount
  }

  lemma CallAdvances(ledger: Ledger, call: Call, actions: map<Address, Action>, target: nat,
                     reclaim: Option<Reclaim>, period: nat)
    requires CarriesOut(call, actions)
    requires actions[call.receiver] == Decide(ledger.Account(call.receiver), target, reclaim)
    requires Accepts(ledger.Account(call.receiver), call.action, call.time)
    ensures var account := ledger.Account(call.receiver);
            Advances(account, Perform(account, call.action, call.time, period), target, reclaim)
  {
  }

  lemma EveryActionIsSent(plan: Plan, sent: Plan, times: Times, actions: map<Address, Action>, receiver: Address)
    requires Implements(plan, actions) && Sends(plan, sent)
    requires receiver in actions && !actions[receiver].Nothing?
    ensures exists call :: call in Flatten(ALL, sent, times) && call.receiver == receiver
  {
    match actions[receiver] {
      case Thaw(amount) =>
        var i :| 0 <= i < |plan.thaws| && plan.thaws[i] == (receiver, amount);
        var call := CallsOf(Thaws, sent, times)[i];
        assert ALL[0] == Thaws;
        InFlatten(ALL, sent, times, call);
      case Deposit(amount) =>
        var i :| 0 <= i < |plan.deposits| && plan.deposits[i] == (receiver, amount);
        GrantBetween(plan.deposits, sent.deposits, i);
        var call := CallsOf(Deposits, sent, times)[i];
        assert ALL[1] == Deposits;
        InFlatten(ALL, sent, times, call);
      case Withdraw =>
        var i :| 0 <= i < |plan.withdrawals| && plan.withdrawals[i] == receiver;
        var call := CallsOf(Withdrawals, sent, times)[i];
        assert ALL[2] == Withdrawals;
        InFlatten(ALL, sent, times, call);
    }
  }

  lemma FullCycleAdvances(config: Config, inputs: Inputs, before: Ledger, after: Ledger, plan: Plan, sent: Plan,
                          times: Times, period: nat, receiver: Address)
    requires FullCycle(config, inputs, before, after, plan, sent, times, period) && period > 0
    requires receiver in inputs.receivers
    ensures var target, reclaim := TargetOf(config, inputs, receiver), ReclaimOf(config, inputs);
            Advances(before.Account(receiver), after.Account(receiver), target, reclaim)
  {
    var actions, calls := Decisions(config, inputs, before), Flatten(ALL, sent, times);
    PlannedCallsLand(config, inputs, before, plan, sent, times, ALL, period);
    FlattenCarriesOut(ALL, plan, sent, times, actions);
    if actions[receiver].Nothing? {
      assert forall call :: call in calls ==> call.receiver != receiver;
      assert after.Account(receiver) == before.Account(receiver);
    } else {
      EveryActionIsSent(plan, sent, times, actions, receiver);
      var call :| call in calls && call.receiver == receiver;
      CallAdvances(before, call, actions, TargetOf(config, inputs, receiver), ReclaimOf(config, inputs), period);
    }
  }

  // ---------- One cycle ----------

  function Shortfall(account: EscrowAccount, target: nat): nat {
    SaturatingSub(target, account.Effective())
  }

  /** A cycle never makes a receiver short or shorter; it takes at least 2 GRT off a shortfall, or
      all of it, exactly unless a matured thaw is withdrawn first; and it never funds the receiver
      2 GRT or more above the target. */
  lemma ReceiverProgress(account: EscrowAccount, next: EscrowAccount, target: nat, reclaim: Option<Reclaim>)
    requires account.Valid() && Advances(account, next, target, reclaim)
    ensures var short := Shortfall(account, target);
            && Shortfall(next, target) <= short
            && (Shortfall(next, target) < short <==> short > 0 && !Matured(account, reclaim))
            && (short > 0 && !Matured(account, reclaim) ==>
                Shortfall(next, target) <= SaturatingSub(short, MIN_DEPOSIT))
    ensures next.Effective() > account.Effective() ==> next.Effective() < target + MIN_DEPOSIT
  {
  }

  ghost function Shortfalls(config: Config, inputs: Inputs, ledger: Ledger): seq<nat>
    requires Admissible(config, inputs)
  {
    seq(|inputs.receivers|, i requires 0 <= i < |inputs.receivers| =>
      Shortfall(ledger.Account(inputs.receivers[i]), TargetOf(config, inputs, inputs.receivers[i])))
  }

  /** A receiver is short, and no thaw of its has matured by the block time that the cycle read. */
  ghost predicate Fundable(config: Config, inputs: Inputs, ledger: Ledger, receiver: Address)
    requires Admissible(config, inputs) && receiver in inputs.receivers
  {
    && Shortfall(ledger.Account(receiver), TargetOf(config, inputs, receiver)) > 0
    && !Matured(ledger.Account(receiver), ReclaimOf(config, inputs))
  }

  lemma CycleProgress(config: Config, inputs: Inputs, before: Ledger, after: Ledger, plan: Plan, sent: Plan,
                      times: Times, period: nat, i: nat)
    requires FullCycle(config, inputs, before, after, plan, sent, times, period) && period > 0
    requires i < |inputs.receivers|
    ensures Shortfalls(config, inputs, after)[i] <= Shortfalls(config, inputs, before)[i]
    ensures Shortfalls(config, inputs, after)[i] < Shortfalls(config, inputs, before)[i] <==>
            Fundable(config, inputs, before, inputs.receivers[i])
  {
    var r := inputs.receivers[i];
    FullCycleAdvances(config, inputs, before, after, plan, sent, times, period, r);
    ReceiverProgress(before.Account(r), after.Account(r), TargetOf(config, inputs, r), ReclaimOf(config, inputs));
  }

  /** Under the cap the total shortfall never grows, and it shrinks exactly if some receiver is
      short that has no matured thaw to withdraw first. */
  lemma TotalShortfallShrinks(config: Config, inputs: Inputs, before: Ledger, after: Ledger, plan: Plan, sent: Plan,
                              times: Times, period: nat)
    requires FullCycle(config, inputs, before, after, plan, sent, times, period) && period > 0
    ensures var s1, s2 := Shortfalls(config, inputs, before), Shortfalls(config, inputs, after);
            && Sum(s2) <= Sum(s1)
            && (Sum(s2) < Sum(s1) <==> exists r :: r in inputs.receivers && Fundable(config, inputs, before, r))
  {
    var s1, s2 := Shortfalls(config, inputs, before), Shortfalls(config, inputs, after);
    forall i | 0 <= i < |inputs.receivers|
      ensures s2[i] <= s1[i] && (s2[i] < s1[i] <==> Fundable(config, inputs, before, inputs.receivers[i]))
    {
      CycleProgress(config, inputs, before, after, plan, sent, times, period, i);
    }
    SumMonotone(s2, s1);
  }

  lemma LowestTarget(debt: nat)
    requires debt < MIN_DEPOSIT
    ensures debt as real < Capacity(LAST_RUNG, 1.0)
    ensures Target(debt, 1.0) == MIN_DEPOSIT
  {
    assert IsLeastRung(debt, 1.0, 2);
    LeastRungUnique(debt, 1.0, 2, LeastRung(debt, 1.0));
  }

  const STALLED_CONFIG := Config(1.0, true, 0, 0, map[], false)

  function StalledInputs(receiver: Address): Inputs {
    Inputs([receiver], map[receiver := 1], map[], Some(6))
  }

  function StalledLedger(receiver: Address, wallet: nat): Ledger {
    Ledger(map[receiver := EscrowAccount(GRT, GRT, 5)], wallet)
  }

  lemma StalledSent(receiver: Address, wallet: nat)
    ensures SentFor(STALLED_CONFIG, StalledInputs(receiver), StalledLedger(receiver, wallet),
                    Plan([], [], [receiver]), Plan([], [], [receiver]), Times(6, 6, 6))
    ensures TargetOf(STALLED_CONFIG, StalledInputs(receiver), receiver) == MIN_DEPOSIT
    ensures !Fundable(STALLED_CONFIG, StalledInputs(receiver), StalledLedger(receiver, wallet), receiver)
  {
    var inputs, plan := StalledInputs(receiver), Plan([], [], [receiver]);
    LowestTarget(1);
    assert SeenDebt(inputs, receiver) == 1 && receiver in inputs.receivers;
    assert Decision(STALLED_CONFIG, inputs, StalledLedger(receiver, wallet), receiver) == Withdraw;
    assert plan.withdrawals[0] == receiver;
  }

  /** A cycle that takes nothing off: the only receiver is 2 GRT short, and the cycle goes into
      withdrawing a matured thaw of 1 GRT. */
  lemma WithdrawalStalls(receiver: Address, wallet: nat, period: nat)
    requires period > 0
    ensures var inputs, before := StalledInputs(receiver), StalledLedger(receiver, wallet);
            var plan := Plan([], [], [receiver]);
            Admissible(STALLED_CONFIG, inputs) &&
            exists after ::
              && FullCycle(STALLED_CONFIG, inputs, before, after, plan, plan, Times(6, 6, 6), period)
              && Sum(Shortfalls(STALLED_CONFIG, inputs, before)) == MIN_DEPOSIT
              && Sum(Shortfalls(STALLED_CONFIG, inputs, after)) == MIN_DEPOSIT
  {
    var inputs, before, plan := StalledInputs(receiver), StalledLedger(receiver, wallet), Plan([], [], [receiver]);
    StalledSent(receiver, wallet);
    var after := PlanLands(STALLED_CONFIG, inputs, before, plan, plan, Times(6, 6, 6), period);
    TotalShortfallShrinks(STALLED_CONFIG, inputs, before, after, plan, plan, Times(6, 6, 6), period);
    assert Shortfalls(STALLED_CONFIG, inputs, before) == [] + [MIN_DEPOSIT];
    SumAppend([], MIN_DEPOSIT);
  }

  // ---------- Many cycles ----------

  /** A receiver's account over consecutive cycles with one target and any reclaim policies. */
  predicate Course(accounts: seq<EscrowAccount>, reclaims: seq<Option<Reclaim>>, target: nat) {
    && |accounts| == |reclaims| + 1
    && forall i :: 0 <= i < |reclaims| ==>
        accounts[i].Valid() && Advances(accounts[i], accounts[i + 1], target, reclaims[i])
  }

  /** Convergence. Every cycle takes at least 2 GRT off a shortfall, but for one cycle at most
      in which a thaw that was under way at the start is withdrawn. */
  lemma {:induction false} ShortfallVanishes(accounts: seq<EscrowAccount>, reclaims: seq<Option<Reclaim>>,
                                             target: nat, lost: nat)
    requires Course(accounts, reclaims, target)
    requires lost == if accounts[0].thawing > 0 then 1 else 0
    ensures var n := |reclaims|;
            n >= lost ==>
              Shortfall(accounts[n], target) <= Max(0, Shortfall(accounts[0], target) - (n - lost) * MIN_DEPOSIT)
    ensures Shortfall(accounts[|reclaims|], target) <= Shortfall(accounts[0], target)
    decreases |reclaims|
  {
    var n := |reclaims|;
    if n > 0 {
      var a, b := accounts[0], accounts[1];
      ReceiverProgress(a, b, target, reclaims[0]);
      ShortfallVanishes(accounts[1..], reclaims[1..], target, if b.thawing > 0 then 1 else 0);
    }
  }

  /** So once a receiver has been through `1 + target / 2 GRT` cycles, rounded up, it is covered,
      and it stays so. */
  lemma CoveredInTime(accounts: seq<EscrowAccount>, reclaims: seq<Option<Reclaim>>, target: nat)
    requires Course(accounts, reclaims, target)
    requires (|reclaims| - 1) * MIN_DEPOSIT >= target
    ensures accounts[|reclaims|].Effective() >= target
  {
    ShortfallVanishes(accounts, reclaims, target, if accounts[0].thawing > 0 then 1 else 0);
    if accounts[0].thawing == 0 { assert |reclaims| * MIN_DEPOSIT >= (|reclaims| - 1) * MIN_DEPOSIT; }
  }

  datatype Round = Round(inputs: Inputs, plan: Plan, sent: Plan, times: Times)

  /** Consecutive full cycles. */
  ghost predicate History(config: Config, ledgers: seq<Ledger>, rounds: seq<Round>, period: nat) {
    && |ledgers| == |rounds| + 1
    && forall i :: 0 <= i < |rounds| ==>
         var round := rounds[i];
         FullCycle(config, round.inputs, ledgers[i], ledgers[i + 1], round.plan, round.sent, round.times, period)
  }

  ghost predicate Targets(config: Config, inputs: Inputs, receiver: Address, target: nat) {
    Admissible(config, inputs) && receiver in inputs.receivers && TargetOf(config, inputs, receiver) == target
  }

  function AccountsOf(ledgers: seq<Ledger>, receiver: Address): seq<EscrowAccount> {
    seq(|ledgers|, i requires 0 <= i < |ledgers| => ledgers[i].Account(receiver))
  }

  ghost function ReclaimsOf(config: Config, rounds: seq<Round>): seq<Option<Reclaim>> {
    seq(|rounds|, i requires 0 <= i < |rounds| => ReclaimOf(config, rounds[i].inputs))
  }

  /** What a receiver with a fixed target goes through, however many others compete. */
  lemma CourseOf(config: Config, ledgers: seq<Ledger>, rounds: seq<Round>, period: nat, receiver: Address, target: nat)
    requires History(config, ledgers, rounds, period) && period > 0
    requires forall i :: 0 <= i < |rounds| ==> Targets(config, rounds[i].inputs, receiver, target)
    ensures Course(AccountsOf(ledgers, receiver), ReclaimsOf(config, rounds), target)
  {
    forall i | 0 <= i < |rounds|
      ensures ledgers[i].Account(receiver).Valid()
      ensures var reclaim := ReclaimOf(config, rounds[i].inputs);
              Advances(ledgers[i].Account(receiver), ledgers[i + 1].Account(receiver), target, reclaim)
    {
      var round := rounds[i];
      assert Targets(config, round.inputs, receiver, target);
      FullCycleAdvances(config, round.inputs, ledgers[i], ledgers[i + 1], round.plan, round.sent, round.times, period,
                        receiver);
    }
  }

  /** However many receivers compete for the capped deposits, and whatever thaws are under way,
      every one of them whose target stays put is covered after that many cycles. */
  lemma ManagerConverges(config: Config, ledgers: seq<Ledger>, rounds: seq<Round>, period: nat, receiver: Address,
                         target: nat)
    requires History(config, ledgers, rounds, period) && period > 0
    requires forall i :: 0 <= i < |rounds| ==> Targets(config, rounds[i].inputs, receiver, target)
    requires (|rounds| - 1) * MIN_DEPOSIT >= target
    ensures ledgers[|rounds|].Account(receiver).Effective() >= target
  {
    CourseOf(config, ledgers, rounds, period, receiver, target);
    CoveredInTime(AccountsOf(ledgers, receiver), ReclaimsOf(config, rounds), target);
  }

  /** What running a cycle promises is a full cycle, if no transaction fails by itself and the
      wallet covers the deposits: the cycles of a history are calls of `RunCycle`. */
  lemma RunCycleIsFull(config: Config, inputs: Inputs, before: Ledger, after: Ledger, plan: Plan, sent: Plan,
                       times: Times, period: nat)
    requires SentFor(config, inputs, before, plan, sent, times)
    requires Landed(config, sent, before, times, {}, period) == Some(after)
    requires !config.dryRun
    ensures FullCycle(config, inputs, before, after, plan, sent, times, period) <==>
            Sum(Amounts(sent.deposits)) <= before.wallet
  {
    if Sum(Amounts(sent.deposits)) <= before.wallet {
      assert Landing(config, sent, before.wallet, {}) == ALL;
    }
  }
}
