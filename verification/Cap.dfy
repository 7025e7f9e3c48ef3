/** When the deposits of a cycle stay within the documented cap, and when the floor of 2 GRT
    under a reduced deposit funds a receiver above its target. */
module Cap {
  import opened Common
  import opened Ladder
  import opened Reclamation
  import opened Reduction
  import opened Escrow
  import opened Cycle
  import opened Batches
  import opened Convergence

  // ---------- The cap ----------

  lemma WhereStopped(desired: Entries, granted: Entries) returns (passes: nat, done: nat)
    requires Grants(desired, granted) && Sum(Amounts(desired)) > MAX_ADJUSTMENT
    ensures StopsAt(Amounts(desired), passes, done) && Amounts(granted) == Filled(Amounts(desired), passes, done)
  {
    passes, done :| StopsAt(Amounts(desired), passes, done) &&
        Amounts(granted) == Filled(Amounts(desired), passes, done);
  }

  /** The deposits sent keep within the cap exactly if those desired do, or if some stage of the
      filling totals the cap to the token. */
  lemma CapKeptExactly(desired: Entries, granted: Entries)
    requires Grants(desired, granted)
    ensures Sum(Amounts(granted)) <= MAX_ADJUSTMENT <==>
            Sum(Amounts(desired)) <= MAX_ADJUSTMENT || Hits(Amounts(desired), MAX_ADJUSTMENT)
  {
    if Sum(Amounts(desired)) > MAX_ADJUSTMENT {
      var passes, done := WhereStopped(desired, granted);
      WithinIffHits(Amounts(desired), passes, done);
    }
  }

  /** For 5000 receivers or more: only 5000 can keep it, the first of which wants no more than
      the minimum. */
  lemma CapKeptByMany(desired: Entries, granted: Entries)
    requires Grants(desired, granted) && |desired| >= 5000
    ensures Sum(Amounts(granted)) <= MAX_ADJUSTMENT <==>
            Sum(Amounts(desired)) <= MAX_ADJUSTMENT || (|desired| == 5000 && desired[0].1 <= MIN_DEPOSIT)
  {
    if Sum(Amounts(desired)) > MAX_ADJUSTMENT {
      var passes, done := WhereStopped(desired, granted);
      WithinForMany(Amounts(desired), passes, done);
    }
  }

  /** For fewer, all of which want at least the top level: exactly if 50 divides their number. */
  lemma CapKeptWhenAllWantMore(desired: Entries, granted: Entries)
    requires Grants(desired, granted) && 0 < |desired| < 5000
    requires forall e :: e in desired ==> e.1 >= TopLevel(|desired|)
    ensures Sum(Amounts(granted)) <= MAX_ADJUSTMENT <==>
            Sum(Amounts(desired)) <= MAX_ADJUSTMENT || |desired| % 50 == 0
  {
    if Sum(Amounts(desired)) > MAX_ADJUSTMENT {
      var passes, done := WhereStopped(desired, granted);
      forall j | 0 <= j < |desired| ensures Amounts(desired)[j] >= TopLevel(|desired|) {
        assert desired[j] in desired;
      }
      WithinWhenAllWantMore(Amounts(desired), passes, done);
    }
  }

  lemma LargeDesireGrant(receiver: Address, desired: nat)
    requires desired >= 10_002 * GRT
    ensures Grants([(receiver, desired)], [(receiver, 10_002 * GRT)])
    ensures Sum(Amounts([(receiver, 10_002 * GRT)])) == MAX_ADJUSTMENT + MIN_DEPOSIT
  {
    var wanted, sent := [(receiver, desired)], [(receiver, 10_002 * GRT)];
    EvenStop(Amounts(wanted), 99, 1);
    LevelClosedForm(desired, 100);
    assert Amounts(sent) == Filled(Amounts(wanted), 99, 1);
    assert Keys(sent) == Keys(wanted);
    SumAppend([], desired);
    SumAppend([], 10_002 * GRT);
    assert Amounts(wanted) == [] + [desired] && Amounts(sent) == [] + [10_002 * GRT];
  }

  lemma TargetOfTenThousand()
    ensures 10_000 * GRT < Capacity(LAST_RUNG, 1.0).Floor
    ensures Target(10_000 * GRT, 1.0) == 16384 * GRT
  {
    assert IsLeastRung(10_000 * GRT, 1.0, 16384);
    LeastRungUnique(10_000 * GRT, 1.0, 16384, LeastRung(10_000 * GRT, 1.0));
  }

  /** A whole cycle above the cap: one receiver with no escrow and a debt of 10,000 GRT is sent
      10,002 GRT. */
  lemma OvershootingCycle(receiver: Address, wallet: nat, times: Times, period: nat)
    requires wallet >= 10_002 * GRT && period > 0
    ensures var config := Config(1.0, false, 0, 0, map[], false);
            var inputs := Inputs([receiver], map[receiver := 10_000 * GRT], map[], None);
            var plan, sent := Plan([(receiver, 16384 * GRT)], [], []), Plan([(receiver, 10_002 * GRT)], [], []);
            && (exists after :: FullCycle(config, inputs, Ledger(map[], wallet), after, plan, sent, times, period))
            && Sum(Amounts(sent.deposits)) == MAX_ADJUSTMENT + MIN_DEPOSIT
  {
    var config := Config(1.0, false, 0, 0, map[], false);
    var inputs := Inputs([receiver], map[receiver := 10_000 * GRT], map[], None);
    var plan, sent := Plan([(receiver, 16384 * GRT)], [], []), Plan([(receiver, 10_002 * GRT)], [], []);
    var ledger := Ledger(map[], wallet);
    TargetOfTenThousand();
    LargeDesireGrant(receiver, 16384 * GRT);
    assert Decision(config, inputs, ledger, receiver) == Deposit(16384 * GRT);
    assert plan.deposits[0] == (receiver, 16384 * GRT);
    assert SentFor(config, inputs, ledger, plan, sent, times);
    var after := PlanLands(config, inputs, ledger, plan, sent, times, period);
  }

  // ---------- Funding above the target ----------

  /** A deposit is raised above its desire exactly if the desires exceed the cap and this one is
      below the minimum. */
  lemma RaisedExactly(desired: Entries, granted: Entries, i: nat)
    requires Grants(desired, granted) && i < |desired|
    ensures |granted| == |desired| && granted[i].0 == desired[i].0
    ensures granted[i].1 > desired[i].1 <==> Sum(Amounts(desired)) > MAX_ADJUSTMENT && desired[i].1 < MIN_DEPOSIT
  {
    GrantBetween(desired, granted, i);
    if Sum(Amounts(desired)) > MAX_ADJUSTMENT {
      var passes, done := WhereStopped(desired, granted);
      LevelClosedForm(desired[i].1, if i < done then passes + 1 else passes);
      assert granted[i].1 == Amounts(granted)[i];
    }
  }

  /** A receiver that wants one wei, next to one that wants 20,000 GRT, is granted 2 GRT. */
  lemma OneWeiIsRaised(small: Address, large: Address, granted: Entries)
    requires Grants([(small, 1), (large, 20_000 * GRT)], granted)
    ensures |granted| == 2 && granted[0] == (small, MIN_DEPOSIT)
  {
    var desired := [(small, 1), (large, 20_000 * GRT)];
    assert Amounts(desired) == ([] + [1]) + [20_000 * GRT];
    SumAppend([1], 20_000 * GRT);
    SumAppend([], 1);
    RaisedExactly(desired, granted, 0);
    GrantBetween(desired, granted, 0);
    var passes, done := WhereStopped(desired, granted);
    LevelClosedForm(1, if 0 < done then passes + 1 else passes);
    assert granted[0].1 == Amounts(granted)[0];
  }

  lemma CallLanded(config: Config, inputs: Inputs, before: Ledger, after: Ledger, plan: Plan, sent: Plan,
                   times: Times, period: nat, call: Call)
    requires FullCycle(config, inputs, before, after, plan, sent, times, period) && period > 0
    requires call in Flatten(ALL, sent, times)
    ensures Accepts(before.Account(call.receiver), call.action, call.time)
    ensures after.Account(call.receiver) == Perform(before.Account(call.receiver), call.action, call.time, period)
  {
    PlannedCallsLand(config, inputs, before, plan, sent, times, ALL, period);
  }

  lemma DepositSent(sent: Plan, times: Times, i: nat)
    requires i < |sent.deposits|
    ensures Call(sent.deposits[i].0, Deposit(sent.deposits[i].1), times.deposit) in Flatten(ALL, sent, times)
  {
    var call := CallsOf(Deposits, sent, times)[i];
    assert ALL[1] == Deposits;
    InFlatten(ALL, sent, times, call);
  }

  /** In a cycle in which every batch lands, a deposit adds what was granted. */
  lemma DepositCredited(config: Config, inputs: Inputs, before: Ledger, after: Ledger, plan: Plan, sent: Plan,
                        times: Times, period: nat, i: nat)
    requires FullCycle(config, inputs, before, after, plan, sent, times, period) && period > 0
    requires i < |plan.deposits|
    ensures |sent.deposits| == |plan.deposits|
    ensures var account := before.Account(plan.deposits[i].0);
            after.Account(plan.deposits[i].0) == account.(balance := account.balance + sent.deposits[i].1)
  {
    GrantBetween(plan.deposits, sent.deposits, i);
    DepositSent(sent, times, i);
    var call := Call(sent.deposits[i].0, Deposit(sent.deposits[i].1), times.deposit);
    CallLanded(config, inputs, before, after, plan, sent, times, period, call);
  }

  lemma PlannedDeposit(config: Config, inputs: Inputs, ledger: Ledger, plan: Plan, receiver: Address) returns (i: nat)
    requires Admissible(config, inputs) && Implements(plan, Decisions(config, inputs, ledger))
    requires receiver in inputs.receivers && Decision(config, inputs, ledger, receiver).Deposit?
    ensures i < |plan.deposits| && plan.deposits[i] == (receiver, Decision(config, inputs, ledger, receiver).amount)
  {
    var amount := Decision(config, inputs, ledger, receiver).amount;
    assert Decisions(config, inputs, ledger)[receiver] == Deposit(amount);
    assert (receiver, amount) in plan.deposits;
    i :| 0 <= i < |plan.deposits| && plan.deposits[i] == (receiver, amount);
  }

  lemma FundedByDeposit(account: EscrowAccount, target: nat, reclaim: Option<Reclaim>, granted: nat, capped: bool)
    requires account.Valid() && Decide(account, target, reclaim).Deposit?
    requires var desired := Decide(account, target, reclaim).amount;
             granted > desired <==> capped && desired < MIN_DEPOSIT
    ensures account.Effective() < target
    ensures account.(balance := account.balance + granted).Effective() > target <==>
            capped && Shortfall(account, target) < MIN_DEPOSIT
  {
  }

  lemma FundedByNothingElse(account: EscrowAccount, next: EscrowAccount, target: nat, reclaim: Option<Reclaim>)
    requires account.Valid() && Advances(account, next, target, reclaim)
    requires !Decide(account, target, reclaim).Deposit?
    ensures next.Effective() <= account.Effective()
    ensures account.Effective() >= target || Matured(account, reclaim)
  {
  }

  lemma FundedInFull(config: Config, inputs: Inputs, before: Ledger, after: Ledger, plan: Plan, sent: Plan,
                     times: Times, period: nat, receiver: Address)
    requires FullCycle(config, inputs, before, after, plan, sent, times, period) && period > 0
    requires receiver in inputs.receivers && Decision(config, inputs, before, receiver).Deposit?
    ensures var account, target := before.Account(receiver), TargetOf(config, inputs, receiver);
            && account.Effective() < target
            && (after.Account(receiver).Effective() > target <==>
                  Sum(Amounts(plan.deposits)) > MAX_ADJUSTMENT && Shortfall(account, target) < MIN_DEPOSIT)
  {
    var account, target := before.Account(receiver), TargetOf(config, inputs, receiver);
    var i := PlannedDeposit(config, inputs, before, plan, receiver);
    DepositCredited(config, inputs, before, after, plan, sent, times, period, i);
    RaisedExactly(plan.deposits, sent.deposits, i);
    FundedByDeposit(account, target, ReclaimOf(config, inputs), sent.deposits[i].1,
        Sum(Amounts(plan.deposits)) > MAX_ADJUSTMENT);
  }

  /** A cycle takes a receiver above its target by a deposit exactly if it is short of less than
      2 GRT, has no matured thaw to withdraw first, and the deposits desired exceed the cap. */
  lemma FundedAboveTarget(config: Config, inputs: Inputs, before: Ledger, after: Ledger, plan: Plan, sent: Plan,
                          times: Times, period: nat, receiver: Address)
    requires FullCycle(config, inputs, before, after, plan, sent, times, period) && period > 0
    requires receiver in inputs.receivers
    ensures var account, target := before.Account(receiver), TargetOf(config, inputs, receiver);
            account.Effective() < target < after.Account(receiver).Effective() <==>
              && 0 < Shortfall(account, target) < MIN_DEPOSIT
              && !Matured(account, ReclaimOf(config, inputs))
              && Sum(Amounts(plan.deposits)) > MAX_ADJUSTMENT
  {
    var account, target := before.Account(receiver), TargetOf(config, inputs, receiver);
    var reclaim := ReclaimOf(config, inputs);
    if Decide(account, target, reclaim).Deposit? {
      FundedInFull(config, inputs, before, after, plan, sent, times, period, receiver);
    } else {
      FullCycleAdvances(config, inputs, before, after, plan, sent, times, period, receiver);
      FundedByNothingElse(account, after.Account(receiver), target, reclaim);
    }
  }
}
