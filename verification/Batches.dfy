/** Sending a cycle's plan as three multicall transactions, none of which depends on another. */
module Batches {
  import opened Common
  import opened Reclamation
  import opened Reduction
  import opened Escrow
  import opened Cycle

  datatype Batch = Thaws | Deposits | Withdrawals

  /** The times of the blocks that the transactions land in. */
  datatype Times = Times(thaw: nat, deposit: nat, withdraw: nat)

  function Deposited(deposits: Entries, time: nat): (calls: seq<Call>)
    ensures |calls| == |deposits|
  {
    seq(|deposits|, i requires 0 <= i < |deposits| => Call(deposits[i].0, Deposit(deposits[i].1), time))
  }

  function Thawed(thaws: Entries, time: nat): (calls: seq<Call>)
    ensures |calls| == |thaws|
  {
    seq(|thaws|, i requires 0 <= i < |thaws| => Call(thaws[i].0, Thaw(thaws[i].1), time))
  }

  function Withdrawn(withdrawals: seq<Address>, time: nat): (calls: seq<Call>)
    ensures |calls| == |withdrawals|
  {
    seq(|withdrawals|, i requires 0 <= i < |withdrawals| => Call(withdrawals[i], Withdraw, time))
  }

  function CallsOf(batch: Batch, sent: Plan, times: Times): seq<Call> {
    match batch
    case Thaws => Thawed(sent.thaws, times.thaw)
    case Deposits => Deposited(sent.deposits, times.deposit)
    case Withdrawals => Withdrawn(sent.withdrawals, times.withdraw)
  }

  function Flatten(order: seq<Batch>, sent: Plan, times: Times): seq<Call> {
    if order == [] then [] else CallsOf(order[0], sent, times) + Flatten(order[1..], sent, times)
  }

  function Kind(action: Action): Option<Batch> {
    match action
    case Nothing => None
    case Withdraw => Some(Withdrawals)
    case Deposit(_) => Some(Deposits)
    case Thaw(_) => Some(Thaws)
  }

  /** What is sent for a decided plan: its deposits as granted, everything else as it is. */
  ghost predicate Sends(plan: Plan, sent: Plan) {
    && Grants(plan.deposits, sent.deposits)
    && sent.thaws == plan.thaws
    && sent.withdrawals == plan.withdrawals
  }

  /** The call carries out the decided action of its receiver, up to the amount of a deposit. */
  predicate CarriesOut(call: Call, actions: map<Address, Action>) {
    && call.receiver in actions
    && match actions[call.receiver]
       case Deposit(desired) => call.action.Deposit? && Between(desired, call.action.amount)
       case action => call.action == action
  }

  lemma CallsCarryOut(batch: Batch, plan: Plan, sent: Plan, times: Times, actions: map<Address, Action>)
    requires Implements(plan, actions) && Sends(plan, sent)
    ensures DistinctReceivers(CallsOf(batch, sent, times))
    ensures forall call :: call in CallsOf(batch, sent, times) ==>
              CarriesOut(call, actions) && Kind(call.action) == Some(batch)
  {
    var calls := CallsOf(batch, sent, times);
    match batch {
      case Thaws =>
        assert forall i :: 0 <= i < |calls| ==> calls[i].receiver == Keys(plan.thaws)[i] && plan.thaws[i] in plan.thaws;
      case Deposits =>
        forall i | 0 <= i < |calls|
          ensures calls[i].receiver == Keys(plan.deposits)[i] && CarriesOut(calls[i], actions)
        {
          GrantBetween(plan.deposits, sent.deposits, i);
          assert plan.deposits[i] in plan.deposits;
        }
      case Withdrawals =>
        assert forall i :: 0 <= i < |calls| ==> calls[i].receiver == plan.withdrawals[i];
    }
  }

  lemma {:induction false} FlattenCarriesOut(order: seq<Batch>, plan: Plan, sent: Plan, times: Times,
                                             actions: map<Address, Action>)
    requires Implements(plan, actions) && Sends(plan, sent) && Distinct(order)
    ensures DistinctReceivers(Flatten(order, sent, times))
    ensures forall call :: call in Flatten(order, sent, times) ==>
              CarriesOut(call, actions) && Kind(call.action).Some? && Kind(call.action).value in order
  {
    if order != [] {
      var first, rest := CallsOf(order[0], sent, times), Flatten(order[1..], sent, times);
      CallsCarryOut(order[0], plan, sent, times, actions);
      FlattenCarriesOut(order[1..], plan, sent, times, actions);
      forall a, b | a in first && b in rest ensures a.receiver != b.receiver {
        assert order[0] !in order[1..];
      }
      var calls := Flatten(order, sent, times);
      forall i, j | 0 <= i < j < |calls| ensures calls[i].receiver != calls[j].receiver {
        assert i < |first| ==> calls[i] in first;
        assert j >= |first| ==> calls[j] in rest;
      }
    }
  }

  lemma {:induction false} PaymentConcat(a: seq<Call>, b: seq<Call>)
    ensures PaymentTotal(a + b) == PaymentTotal(a) + PaymentTotal(b)
  {
    if a == [] {
      assert a + b == b;
    } else {
      assert (a + b)[1..] == a[1..] + b;
      PaymentConcat(a[1..], b);
    }
  }

  lemma {:induction false} PaymentOfDeposits(deposits: Entries, time: nat)
    ensures PaymentTotal(Deposited(deposits, time)) == Sum(Amounts(deposits))
  {
    if deposits != [] {
      var n := |deposits| - 1;
      PaymentOfDeposits(deposits[..n], time);
      var last := Call(deposits[n].0, Deposit(deposits[n].1), time);
      assert Deposited(deposits, time) == Deposited(deposits[..n], time) + [last];
      PaymentConcat(Deposited(deposits[..n], time), [last]);
      assert Amounts(deposits)[..n] == Amounts(deposits[..n]);
    }
  }

  lemma {:induction false} FlattenPays(order: seq<Batch>, sent: Plan, times: Times)
    requires Distinct(order)
    ensures PaymentTotal(Flatten(order, sent, times)) == if Deposits in order then Sum(Amounts(sent.deposits)) else 0
  {
    if order != [] {
      var first := CallsOf(order[0], sent, times);
      FlattenPays(order[1..], sent, times);
      PaymentConcat(first, Flatten(order[1..], sent, times));
      if order[0] == Deposits {
        PaymentOfDeposits(sent.deposits, times.deposit);
        assert Deposits !in order[1..];
      } else {
        NoPayments(first);
      }
    }
  }

  /** Everything a cycle plans is decided against a block no later than those it lands in. */
  predicate NoEarlier(inputs: Inputs, times: Times) {
    inputs.chainNow.Some? ==>
      && inputs.chainNow.value <= times.thaw
      && inputs.chainNow.value <= times.deposit
      && inputs.chainNow.value <= times.withdraw
  }

  ghost predicate SentFor(config: Config, inputs: Inputs, ledger: Ledger, plan: Plan, sent: Plan, times: Times) {
    && Admissible(config, inputs) && ledger.Valid() && NoEarlier(inputs, times)
    && Implements(plan, Decisions(config, inputs, ledger))
    && Sends(plan, sent)
  }

  lemma CallAccepted(config: Config, inputs: Inputs, ledger: Ledger, times: Times, call: Call)
    requires Admissible(config, inputs) && ledger.Valid()
    requires inputs.chainNow.Some? ==> inputs.chainNow.value <= call.time
    requires CarriesOut(call, Decisions(config, inputs, ledger))
    ensures Accepts(ledger.Account(call.receiver), call.action, call.time)
  {
    var target, reclaim := TargetOf(config, inputs, call.receiver), ReclaimOf(config, inputs);
    DecisionAccepted(ledger.Account(call.receiver), target, reclaim, call.time, 1);
  }

  lemma {:induction false} FlattenTimes(order: seq<Batch>, sent: Plan, times: Times, now: nat)
    requires now <= times.thaw && now <= times.deposit && now <= times.withdraw
    ensures forall call :: call in Flatten(order, sent, times) ==> now <= call.time
  {
    if order != [] { FlattenTimes(order[1..], sent, times, now); }
  }

  /** Every planned call lands, in whatever order the batches are sent and whichever of them
      are: no batch needs another to have landed, and no tokens are made or lost. */
  lemma PlannedCallsLand(config: Config, inputs: Inputs, ledger: Ledger, plan: Plan, sent: Plan, times: Times,
                         order: seq<Batch>, period: nat)
    requires SentFor(config, inputs, ledger, plan, sent, times) && Distinct(order)
    requires Deposits in order ==> Sum(Amounts(sent.deposits)) <= ledger.wallet
    requires period > 0
    ensures var calls := Flatten(order, sent, times);
            && Multicall(ledger, calls, period).Some?
            && Settled(ledger, calls, period, Multicall(ledger, calls, period).value)
            && Multicall(ledger, calls, period).value.Valid()
            && Multicall(ledger, calls, period).value.Tokens() == ledger.Tokens()
  {
    var calls := Flatten(order, sent, times);
    FlattenCarriesOut(order, plan, sent, times, Decisions(config, inputs, ledger));
    FlattenPays(order, sent, times);
    if inputs.chainNow.Some? { FlattenTimes(order, sent, times, inputs.chainNow.value); }
    forall call | call in calls
      ensures Accepts(ledger.Account(call.receiver), call.action, call.time)
    {
      CallAccepted(config, inputs, ledger, times, call);
    }
    IndependentCallsSettle(ledger, calls, period);
    MulticallConserves(ledger, calls, period);
    SettledValid(ledger, calls, period, Multicall(ledger, calls, period).value);
  }

  lemma {:induction false} InFlatten(order: seq<Batch>, sent: Plan, times: Times, call: Call)
    ensures call in Flatten(order, sent, times) <==>
            exists batch :: batch in order && call in CallsOf(batch, sent, times)
  {
    if order != [] {
      InFlatten(order[1..], sent, times, call);
      assert forall batch :: batch in order <==> batch == order[0] || batch in order[1..];
    }
  }

  /** Which batches land decides the outcome; in which order they do does not. */
  lemma OrderIrrelevant(config: Config, inputs: Inputs, ledger: Ledger, plan: Plan, sent: Plan, times: Times,
                        order1: seq<Batch>, order2: seq<Batch>, period: nat)
    requires SentFor(config, inputs, ledger, plan, sent, times) && Distinct(order1) && Distinct(order2)
    requires forall batch :: batch in order1 <==> batch in order2
    requires Deposits in order1 ==> Sum(Amounts(sent.deposits)) <= ledger.wallet
    requires period > 0
    ensures Multicall(ledger, Flatten(order1, sent, times), period) ==
            Multicall(ledger, Flatten(order2, sent, times), period)
  {
    var calls1, calls2 := Flatten(order1, sent, times), Flatten(order2, sent, times);
    PlannedCallsLand(config, inputs, ledger, plan, sent, times, order1, period);
    PlannedCallsLand(config, inputs, ledger, plan, sent, times, order2, period);
    forall call ensures call in calls1 <==> call in calls2 {
      InFlatten(order1, sent, times, call);
      InFlatten(order2, sent, times, call);
    }
    var after1, after2 := Multicall(ledger, calls1, period).value, Multicall(ledger, calls2, period).value;
    SettledUnique(ledger, calls1, calls2, period, after1, after2);
  }

  // ---------- Sending ----------

  lemma {:induction false} MulticallConcat(ledger: Ledger, a: seq<Call>, b: seq<Call>, period: nat)
    ensures Multicall(ledger, a + b, period) ==
            if Multicall(ledger, a, period).None? then None
            else Multicall(Multicall(ledger, a, period).value, b, period)
    decreases |a|
  {
    if a == [] {
      assert a + b == b;
    } else if Lands(ledger, a[0]) {
      assert (a + b)[1..] == a[1..] + b;
      MulticallConcat(Execute(ledger, a[0], period), a[1..], b, period);
    }
  }

  /** What sending a multicall does. It lands whole, settling each receiver's call by itself and
      keeping all tokens, or changes nothing; a `fault` is a failure for reasons of its own. */
  ghost predicate Transaction(before: Ledger, calls: seq<Call>, period: nat, fault: bool, ok: bool, after: Ledger) {
    && ok == (!fault && Multicall(before, calls, period).Some?)
    && (!ok ==> after == before)
    && (ok ==> Multicall(before, calls, period) == Some(after) && after.Tokens() == before.Tokens())
    && (ok && DistinctReceivers(calls) ==> Settled(before, calls, period, after))
  }

  lemma ThawsLand(ledger: Ledger, thaws: Entries, time: nat, period: nat)
    requires Distinct(Keys(thaws))
    ensures Multicall(ledger, Thawed(thaws, time), period).Some? <==>
            forall t :: t in thaws ==> 0 < t.1 <= ledger.Account(t.0).balance
  {
    var calls := Thawed(thaws, time);
    assert forall i :: 0 <= i < |calls| ==> calls[i].receiver == Keys(thaws)[i];
    NoPayments(calls);
    LandsExactly(ledger, calls, period);
    forall t | t in thaws ensures Call(t.0, Thaw(t.1), time) in calls {
      var i :| 0 <= i < |thaws| && thaws[i] == t;
      assert calls[i] == Call(t.0, Thaw(t.1), time);
    }
  }

  lemma DepositsLand(ledger: Ledger, deposits: Entries, time: nat, period: nat)
    requires Distinct(Keys(deposits))
    ensures Multicall(ledger, Deposited(deposits, time), period).Some? <==>
            (forall d :: d in deposits ==> d.1 > 0) && Sum(Amounts(deposits)) <= ledger.wallet
  {
    var calls := Deposited(deposits, time);
    assert forall i :: 0 <= i < |calls| ==> calls[i].receiver == Keys(deposits)[i];
    PaymentOfDeposits(deposits, time);
    LandsExactly(ledger, calls, period);
    forall d | d in deposits ensures Call(d.0, Deposit(d.1), time) in calls {
      var i :| 0 <= i < |deposits| && deposits[i] == d;
      assert calls[i] == Call(d.0, Deposit(d.1), time);
    }
  }

  lemma WithdrawalsLand(ledger: Ledger, withdrawals: seq<Address>, time: nat, period: nat)
    requires Distinct(withdrawals)
    ensures Multicall(ledger, Withdrawn(withdrawals, time), period).Some? <==>
            forall r :: r in withdrawals ==> 0 < ledger.Account(r).thawEnd < time
  {
    var calls := Withdrawn(withdrawals, time);
    NoPayments(calls);
    LandsExactly(ledger, calls, period);
    forall r | r in withdrawals ensures Call(r, Withdraw, time) in calls {
      var i :| 0 <= i < |withdrawals| && withdrawals[i] == r;
      assert calls[i] == Call(r, Withdraw, time);
    }
  }

  /** The contract, with the three transactions the manager sends to it. */
  class PaymentsEscrow {
    var ledger: Ledger
    const period: nat

    constructor (ledger: Ledger, period: nat)
      ensures this.ledger == ledger && this.period == period
    {
      this.ledger := ledger;
      this.period := period;
    }

    method Send(calls: seq<Call>, fault: bool) returns (ok: bool)
      modifies this
      ensures Transaction(old(ledger), calls, period, fault, ok, ledger)
    {
      var result := Multicall(ledger, calls, period);
      ok := !fault && result.Some?;
      if ok {
        MulticallConserves(ledger, calls, period);
        if DistinctReceivers(calls) { LandedSettles(ledger, calls, period); }
        ledger := result.value;
      }
    }

    method ThawMany(thaws: Entries, time: nat, fault: bool) returns (ok: bool)
      modifies this
      ensures Transaction(old(ledger), Thawed(thaws, time), period, fault, ok, ledger)
      // Thawing part of each balance is all it takes.
      ensures Distinct(Keys(thaws)) ==>
                (ok <==> !fault && forall t :: t in thaws ==> 0 < t.1 <= old(ledger).Account(t.0).balance)
    {
      if Distinct(Keys(thaws)) { ThawsLand(ledger, thaws, time, period); }
      ok := Send(Thawed(thaws, time), fault);
    }

    method DepositMany(deposits: Entries, time: nat, fault: bool) returns (ok: bool)
      modifies this
      ensures Transaction(old(ledger), Deposited(deposits, time), period, fault, ok, ledger)
      // The wallet must cover all deposits.
      ensures Distinct(Keys(deposits)) ==>
                (ok <==> && !fault && (forall d :: d in deposits ==> d.1 > 0)
                         && Sum(Amounts(deposits)) <= old(ledger).wallet)
    {
      if Distinct(Keys(deposits)) { DepositsLand(ledger, deposits, time, period); }
      ok := Send(Deposited(deposits, time), fault);
    }

    method WithdrawMany(withdrawals: seq<Address>, time: nat, fault: bool) returns (ok: bool)
      modifies this
      ensures Transaction(old(ledger), Withdrawn(withdrawals, time), period, fault, ok, ledger)
      // One thaw that has not matured, strictly, fails the whole batch.
      ensures Distinct(withdrawals) ==>
                (ok <==> !fault && forall r :: r in withdrawals ==> 0 < old(ledger).Account(r).thawEnd < time)
    {
      if Distinct(withdrawals) { WithdrawalsLand(ledger, withdrawals, time, period); }
      ok := Send(Withdrawn(withdrawals, time), fault);
    }
  }

  /** The batches that land: those not hit by a fault, and deposits only if the wallet covers
      all of them. */
  function Landing(config: Config, sent: Plan, wallet: nat, faults: set<Batch>): (order: seq<Batch>)
    ensures Distinct(order)
  {
    if config.dryRun then []
    else
      (if Thaws in faults then [] else [Thaws]) +
      (if Deposits in faults || Sum(Amounts(sent.deposits)) > wallet then [] else [Deposits]) +
      (if Withdrawals in faults then [] else [Withdrawals])
  }

  /** The ledger after all batches that land. */
  function Landed(config: Config, sent: Plan, ledger: Ledger, times: Times, faults: set<Batch>,
                  period: nat): Option<Ledger> {
    Multicall(ledger, Flatten(Landing(config, sent, ledger.wallet, faults), sent, times), period)
  }

  /** The ledger after one batch is sent. */
  function Attempt(ledger: Ledger, batch: Batch, sent: Plan, times: Times, fault: bool, period: nat): Ledger {
    var result := Multicall(ledger, CallsOf(batch, sent, times), period);
    if !fault && result.Some? then result.value else ledger
  }

  lemma Attempted(before: Ledger, batch: Batch, sent: Plan, times: Times, fault: bool, ok: bool, after: Ledger,
                  period: nat)
    requires Transaction(before, CallsOf(batch, sent, times), period, fault, ok, after)
    ensures after == Attempt(before, batch, sent, times, fault, period)
  {
  }

  lemma FlattenConcat(a: seq<Batch>, b: seq<Batch>, sent: Plan, times: Times)
    ensures Flatten(a + b, sent, times) == Flatten(a, sent, times) + Flatten(b, sent, times)
  {
    if a == [] {
      assert a + b == b;
    } else {
      assert (a + b)[1..] == a[1..] + b;
      FlattenConcat(a[1..], b, sent, times);
    }
  }

  lemma FlattenOne(batch: Batch, sent: Plan, times: Times)
    ensures Flatten([batch], sent, times) == CallsOf(batch, sent, times)
  {
  }

  /** Sending the batches in turn lands exactly those of `Landing`. */
  lemma LandingInTurn(start: Ledger, sent: Plan, times: Times, period: nat, config: Config, faults: set<Batch>)
    requires !config.dryRun
    requires Multicall(start, Flatten(Landing(config, sent, start.wallet, faults), sent, times), period).Some?
    ensures var afterThaws := Attempt(start, Thaws, sent, times, Thaws in faults, period);
            var afterDeposits := Attempt(afterThaws, Deposits, sent, times, Deposits in faults, period);
            Attempt(afterDeposits, Withdrawals, sent, times, Withdrawals in faults, period)
            == Multicall(start, Flatten(Landing(config, sent, start.wallet, faults), sent, times), period).value
  {
    var o1 := if Thaws in faults then [] else [Thaws];
    var o2 := if Deposits in faults || Sum(Amounts(sent.deposits)) > start.wallet then [] else [Deposits];
    var o3 := if Withdrawals in faults then [] else [Withdrawals];
    var f1, f2, f3 := Flatten(o1, sent, times), Flatten(o2, sent, times), Flatten(o3, sent, times);
    FlattenConcat(o1 + o2, o3, sent, times);
    FlattenConcat(o1, o2, sent, times);
    MulticallConcat(start, f1 + f2, f3, period);
    MulticallConcat(start, f1, f2, period);
    FlattenOne(Thaws, sent, times);
    FlattenOne(Deposits, sent, times);
    FlattenOne(Withdrawals, sent, times);
    var afterThaws := Multicall(start, f1, period).value;
    WalletPays(start, f1, period);
    NoPayments(f1);
    var deposits := CallsOf(Deposits, sent, times);
    PaymentOfDeposits(sent.deposits, times.deposit);
    if Multicall(afterThaws, deposits, period).Some? {
      WalletPays(afterThaws, deposits, period);
    }
  }

  method SendThaws(sent: Plan, escrow: PaymentsEscrow, times: Times, fault: bool)
    modifies escrow
    ensures escrow.ledger == Attempt(old(escrow.ledger), Thaws, sent, times, fault, escrow.period)
  {
    if |sent.thaws| > 0 {
      ghost var before := escrow.ledger;
      var ok := escrow.ThawMany(sent.thaws, times.thaw, fault);
      Attempted(before, Thaws, sent, times, fault, ok, escrow.ledger, escrow.period);
    }
  }

  method SendDeposits(sent: Plan, escrow: PaymentsEscrow, times: Times, fault: bool)
    modifies escrow
    ensures escrow.ledger == Attempt(old(escrow.ledger), Deposits, sent, times, fault, escrow.period)
  {
    if |sent.deposits| > 0 {
      ghost var before := escrow.ledger;
      var ok := escrow.DepositMany(sent.deposits, times.deposit, fault);
      Attempted(before, Deposits, sent, times, fault, ok, escrow.ledger, escrow.period);
    }
  }

  method SendWithdrawals(sent: Plan, escrow: PaymentsEscrow, times: Times, fault: bool)
    modifies escrow
    ensures escrow.ledger == Attempt(old(escrow.ledger), Withdrawals, sent, times, fault, escrow.period)
  {
    if |sent.withdrawals| > 0 {
      ghost var before := escrow.ledger;
      var ok := escrow.WithdrawMany(sent.withdrawals, times.withdraw, fault);
      Attempted(before, Withdrawals, sent, times, fault, ok, escrow.ledger, escrow.period);
    }
  }

  method SendBatches(config: Config, sent: Plan, escrow: PaymentsEscrow, times: Times, faults: set<Batch>)
    requires Landed(config, sent, escrow.ledger, times, faults, escrow.period).Some?
    modifies escrow
    ensures Landed(config, sent, old(escrow.ledger), times, faults, escrow.period) == Some(escrow.ledger)
  {
    if !config.dryRun {
      LandingInTurn(escrow.ledger, sent, times, escrow.period, config, faults);
      SendThaws(sent, escrow, times, Thaws in faults);
      SendDeposits(sent, escrow, times, Deposits in faults);
      SendWithdrawals(sent, escrow, times, Withdrawals in faults);
    }
  }

  // ---------- What a cycle comes to ----------

  /** Whether a batch lands: it is really sent, no fault hits it, and the wallet covers it. */
  predicate Goes(config: Config, batch: Batch, sent: Plan, wallet: nat, faults: set<Batch>) {
    !config.dryRun && batch !in faults && (batch == Deposits ==> Sum(Amounts(sent.deposits)) <= wallet)
  }

  /** A receiver's account after a cycle, from its decided action and, for a deposit, what was
      granted: changed if the batch goes, and otherwise as before. */
  ghost predicate Results(config: Config, sent: Plan, wallet: nat, times: Times, faults: set<Batch>, period: nat,
                          receiver: Address, action: Action, before: EscrowAccount, after: EscrowAccount) {
    match action
    case Nothing => after == before
    case Thaw(amount) =>
      after == if Goes(config, Thaws, sent, wallet, faults)
               then EscrowAccount(before.balance, amount, times.thaw + period) else before
    case Deposit(_) =>
      exists granted :: (receiver, granted) in sent.deposits &&
        after == if Goes(config, Deposits, sent, wallet, faults)
                 then EscrowAccount(before.balance + granted, before.thawing, before.thawEnd) else before
    case Withdraw =>
      after == if Goes(config, Withdrawals, sent, wallet, faults)
               then EscrowAccount(SaturatingSub(before.balance, before.thawing), 0, 0) else before
  }

  lemma Untouched(ledger: Ledger, calls: seq<Call>, period: nat, after: Ledger, receiver: Address)
    requires Settled(ledger, calls, period, after) && forall call :: call in calls ==> call.receiver != receiver
    ensures after.Account(receiver) == ledger.Account(receiver)
  {
    assert receiver in after.accounts <==> receiver in ledger.accounts;
  }

  lemma Touched(ledger: Ledger, order: seq<Batch>, batch: Batch, sent: Plan, times: Times, period: nat, after: Ledger,
                call: Call)
    requires Settled(ledger, Flatten(order, sent, times), period, after)
    requires batch in order && call in CallsOf(batch, sent, times)
    ensures Accepts(ledger.Account(call.receiver), call.action, call.time)
    ensures after.Account(call.receiver) == Perform(ledger.Account(call.receiver), call.action, call.time, period)
  {
    InFlatten(order, sent, times, call);
  }

  lemma PlannedCall(plan: Plan, sent: Plan, times: Times, actions: map<Address, Action>, receiver: Address)
    returns (call: Call)
    requires Implements(plan, actions) && Sends(plan, sent) && receiver in actions && !actions[receiver].Nothing?
    ensures call.receiver == receiver && call in CallsOf(Kind(actions[receiver]).value, sent, times)
    ensures match actions[receiver]
            case Thaw(amount) => call == Call(receiver, Thaw(amount), times.thaw)
            case Deposit(_) =>
              && call.action.Deposit? && (receiver, call.action.amount) in sent.deposits
              && call.time == times.deposit
            case action => call == Call(receiver, action, times.withdraw)
  {
    match actions[receiver]
    case Thaw(amount) =>
      var i :| 0 <= i < |plan.thaws| && plan.thaws[i] == (receiver, amount);
      call := CallsOf(Thaws, sent, times)[i];
    case Deposit(amount) =>
      var i :| 0 <= i < |plan.deposits| && plan.deposits[i] == (receiver, amount);
      GrantBetween(plan.deposits, sent.deposits, i);
      call := CallsOf(Deposits, sent, times)[i];
    case Withdraw =>
      var i :| 0 <= i < |plan.withdrawals| && plan.withdrawals[i] == receiver;
      call := CallsOf(Withdrawals, sent, times)[i];
  }

  lemma GoesInOrder(config: Config, sent: Plan, wallet: nat, faults: set<Batch>, batch: Batch)
    ensures batch in Landing(config, sent, wallet, faults) <==> Goes(config, batch, sent, wallet, faults)
  {
  }

  lemma NoneForKind(order: seq<Batch>, plan: Plan, sent: Plan, times: Times, actions: map<Address, Action>,
                    receiver: Address)
    requires Implements(plan, actions) && Sends(plan, sent) && Distinct(order)
    requires receiver in actions ==> actions[receiver].Nothing? || Kind(actions[receiver]).value !in order
    ensures forall call :: call in Flatten(order, sent, times) ==> call.receiver != receiver
  {
    FlattenCarriesOut(order, plan, sent, times, actions);
    forall call | call in Flatten(order, sent, times) ensures call.receiver != receiver {
      assert CarriesOut(call, actions);
    }
  }

  /** Every account after a cycle follows from the receiver's decision; others are unchanged. */
  lemma CycleResults(config: Config, inputs: Inputs, before: Ledger, plan: Plan, sent: Plan, times: Times,
                     faults: set<Batch>, period: nat, after: Ledger, receiver: Address)
    requires SentFor(config, inputs, before, plan, sent, times)
    requires Settled(before, Flatten(Landing(config, sent, before.wallet, faults), sent, times), period, after)
    ensures receiver in inputs.receivers ==>
              Results(config, sent, before.wallet, times, faults, period, receiver,
                      Decision(config, inputs, before, receiver), before.Account(receiver), after.Account(receiver))
    ensures receiver !in inputs.receivers ==> after.Account(receiver) == before.Account(receiver)
  {
    var order, actions := Landing(config, sent, before.wallet, faults), Decisions(config, inputs, before);
    if receiver !in actions || actions[receiver].Nothing? {
      NoneForKind(order, plan, sent, times, actions, receiver);
      Untouched(before, Flatten(order, sent, times), period, after, receiver);
    } else {
      var batch := Kind(actions[receiver]).value;
      var call := PlannedCall(plan, sent, times, actions, receiver);
      GoesInOrder(config, sent, before.wallet, faults, batch);
      if batch in order {
        Touched(before, order, batch, sent, times, period, after, call);
      } else {
        NoneForKind(order, plan, sent, times, actions, receiver);
        Untouched(before, Flatten(order, sent, times), period, after, receiver);
      }
    }
  }

  /** One cycle: plan, cut the deposits down to the cap, and send the three batches. Each batch
      fails only by a fault of its own or, for deposits, for want of funds. */
  method RunCycle(config: Config, inputs: Inputs, escrow: PaymentsEscrow, times: Times, faults: set<Batch>)
    returns (plan: Plan, sent: Plan)
    requires Admissible(config, inputs) && escrow.ledger.Valid() && NoEarlier(inputs, times)
    requires escrow.period > 0
    modifies escrow
    ensures escrow.ledger.Valid() && escrow.ledger.Tokens() == old(escrow.ledger).Tokens()
    ensures SentFor(config, inputs, old(escrow.ledger), plan, sent, times)
    ensures Landed(config, sent, old(escrow.ledger), times, faults, escrow.period) == Some(escrow.ledger)
    // In its own terms: nothing in a dry run, and otherwise what was decided and granted.
    ensures config.dryRun ==> escrow.ledger == old(escrow.ledger)
    ensures forall r :: r in inputs.receivers ==>
              Results(config, sent, old(escrow.ledger).wallet, times, faults, escrow.period, r,
                      Decision(config, inputs, old(escrow.ledger), r), old(escrow.ledger).Account(r),
                          escrow.ledger.Account(r))
    ensures forall r :: r !in inputs.receivers ==> escrow.ledger.Account(r) == old(escrow.ledger).Account(r)
  {
    hide Results, PolicyOf, TargetsFor, DecidedBy;
    ghost var targets, policy;
    plan, targets, policy := PlanCycle(config, inputs, escrow.ledger);
    var granted := Grant(plan.deposits);
    sent := plan.(deposits := granted);
    var order := Landing(config, sent, escrow.ledger.wallet, faults);
    PlannedCallsLand(config, inputs, escrow.ledger, plan, sent, times, order, escrow.period);
    ghost var before := escrow.ledger;
    SendBatches(config, sent, escrow, times, faults);
    forall r
      ensures r in inputs.receivers ==>
                Results(config, sent, before.wallet, times, faults, escrow.period, r,
                        Decision(config, inputs, before, r), before.Account(r), escrow.ledger.Account(r))
      ensures r !in inputs.receivers ==> escrow.ledger.Account(r) == before.Account(r)
    {
      CycleResults(config, inputs, before, plan, sent, times, faults, escrow.period, escrow.ledger, r);
    }
  }
}
