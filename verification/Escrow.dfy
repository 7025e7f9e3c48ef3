/** The escrow contract as the payer sees it: one account per receiver, and the payer's wallet. */
module Escrow {
  import opened Common
  import opened Reclamation

  datatype Ledger = Ledger(accounts: map<Address, EscrowAccount>, wallet: nat) {
    function Account(receiver: Address): EscrowAccount {
      if receiver in accounts then accounts[receiver] else EMPTY_ACCOUNT
    }

    predicate Valid() {
      forall receiver :: receiver in accounts ==> accounts[receiver].Valid()
    }

    /** All of the payer's tokens, wherever they are. */
    ghost function Tokens(): nat {
      wallet + MapSum(map receiver | receiver in accounts :: accounts[receiver].balance)
    }
  }

  /** A call in a multicall transaction, and the time of the block it lands in. */
  datatype Call = Call(receiver: Address, action: Action, time: nat)

  function Payment(call: Call): nat {
    if call.action.Deposit? then call.action.amount else 0
  }

  predicate Lands(ledger: Ledger, call: Call) {
    && Accepts(ledger.Account(call.receiver), call.action, call.time)
    && Payment(call) <= ledger.wallet
  }

  function Execute(ledger: Ledger, call: Call, period: nat): Ledger
    requires Lands(ledger, call)
  {
    var account := ledger.Account(call.receiver);
    var after := Perform(account, call.action, call.time, period);
    Ledger(ledger.accounts[call.receiver := after],
           if call.action.Withdraw? then ledger.wallet + account.balance - after.balance
           else ledger.wallet - Payment(call))
  }

  /** Calls in order, `None` when one of them reverts and takes the others with it. */
  function Multicall(ledger: Ledger, calls: seq<Call>, period: nat): Option<Ledger>
    decreases |calls|
  {
    if calls == [] then Some(ledger)
    else if Lands(ledger, calls[0]) then Multicall(Execute(ledger, calls[0], period), calls[1..], period)
    else None
  }

  predicate DistinctReceivers(calls: seq<Call>) {
    forall i, j :: 0 <= i < j < |calls| ==> calls[i].receiver != calls[j].receiver
  }

  /** What all calls together do, whatever their order: each receiver's account changes as its
      own call says, and nothing else changes. */
  predicate Settled(ledger: Ledger, calls: seq<Call>, period: nat, after: Ledger) {
    && after.accounts.Keys == ledger.accounts.Keys + (set call | call in calls :: call.receiver)
    && (forall call :: call in calls ==>
          && Accepts(ledger.Account(call.receiver), call.action, call.time)
          && after.Account(call.receiver) == Perform(ledger.Account(call.receiver), call.action, call.time, period))
    && (forall receiver ::
          receiver in ledger.accounts && (forall call :: call in calls ==> call.receiver != receiver) ==>
          after.Account(receiver) == ledger.Account(receiver))
  }

  /** A call moves tokens between the wallet and the escrow, and makes or loses none. */
  lemma ExecuteConserves(ledger: Ledger, call: Call, period: nat)
    requires Lands(ledger, call)
    ensures Execute(ledger, call, period).Tokens() == ledger.Tokens()
  {
    var after := Execute(ledger, call, period);
    var balances := map r | r in ledger.accounts :: ledger.accounts[r].balance;
    var balance := after.Account(call.receiver).balance;
    assert (map r | r in after.accounts :: after.accounts[r].balance) == balances[call.receiver := balance];
    MapSumUpdate(balances, call.receiver, balance);
  }

  lemma {:induction false} MulticallConserves(ledger: Ledger, calls: seq<Call>, period: nat)
    requires Multicall(ledger, calls, period).Some?
    ensures Multicall(ledger, calls, period).value.Tokens() == ledger.Tokens()
    decreases |calls|
  {
    if calls != [] {
      ExecuteConserves(ledger, calls[0], period);
      MulticallConserves(Execute(ledger, calls[0], period), calls[1..], period);
    }
  }

  lemma SettledFromFirst(ledger: Ledger, calls: seq<Call>, period: nat, after: Ledger)
    requires calls != [] && DistinctReceivers(calls) && Lands(ledger, calls[0])
    requires Settled(Execute(ledger, calls[0], period), calls[1..], period, after)
    ensures Settled(ledger, calls, period, after)
  {
    var first, rest := calls[0], calls[1..];
    var next := Execute(ledger, first, period);
    assert forall call :: call in rest ==> call.receiver != first.receiver;
    assert forall call :: call in calls <==> call == first || call in rest;
    assert after.Account(first.receiver) == next.Account(first.receiver);
    forall receiver | receiver in ledger.accounts && (forall call :: call in calls ==> call.receiver != receiver)
      ensures after.Account(receiver) == ledger.Account(receiver)
    {
      assert first in calls;
    }
  }

  /** Calls for different receivers, each acceptable on its own and the deposits covered by the
      wallet, all land, and leave each account as its own call says. */
  lemma {:induction false} IndependentCallsSettle(ledger: Ledger, calls: seq<Call>, period: nat)
    requires DistinctReceivers(calls)
    requires forall call :: call in calls ==> Accepts(ledger.Account(call.receiver), call.action, call.time)
    requires PaymentTotal(calls) <= ledger.wallet
    ensures Multicall(ledger, calls, period).Some?
    ensures Settled(ledger, calls, period, Multicall(ledger, calls, period).value)
    decreases |calls|
  {
    if calls != [] {
      var first, rest := calls[0], calls[1..];
      var next := Execute(ledger, first, period);
      forall call | call in rest
        ensures Accepts(next.Account(call.receiver), call.action, call.time)
      {
        assert call.receiver != first.receiver;
      }
      IndependentCallsSettle(next, rest, period);
      SettledFromFirst(ledger, calls, period, Multicall(ledger, calls, period).value);
    }
  }

  function PaymentTotal(calls: seq<Call>): nat {
    if calls == [] then 0 else Payment(calls[0]) + PaymentTotal(calls[1..])
  }

  /** A multicall for different receivers that lands settles each call by itself. */
  lemma {:induction false} LandedSettles(ledger: Ledger, calls: seq<Call>, period: nat)
    requires DistinctReceivers(calls) && Multicall(ledger, calls, period).Some?
    ensures Settled(ledger, calls, period, Multicall(ledger, calls, period).value)
    decreases |calls|
  {
    if calls != [] {
      LandedSettles(Execute(ledger, calls[0], period), calls[1..], period);
      SettledFromFirst(ledger, calls, period, Multicall(ledger, calls, period).value);
    }
  }

  /** Thaws and deposits take from the wallet what they pay, so overdrawing it reverts. */
  lemma {:induction false} WalletPays(ledger: Ledger, calls: seq<Call>, period: nat)
    requires forall call :: call in calls ==> !call.action.Withdraw?
    requires Multicall(ledger, calls, period).Some?
    ensures Multicall(ledger, calls, period).value.wallet + PaymentTotal(calls) == ledger.wallet
    decreases |calls|
  {
    if calls != [] { WalletPays(Execute(ledger, calls[0], period), calls[1..], period); }
  }

  lemma {:induction false} NoPayments(calls: seq<Call>)
    requires forall call :: call in calls ==> Payment(call) == 0
    ensures PaymentTotal(calls) == 0
  {
    if calls != [] { NoPayments(calls[1..]); }
  }

  /** A multicall for different receivers that does not both pay in and draw out lands exactly
      if every call is acceptable on its own and the wallet covers all payments. */
  lemma LandsExactly(ledger: Ledger, calls: seq<Call>, period: nat)
    requires DistinctReceivers(calls)
    requires || (forall call :: call in calls ==> !call.action.Withdraw?)
             || (forall call :: call in calls ==> Payment(call) == 0)
    ensures Multicall(ledger, calls, period).Some? <==>
            && (forall call :: call in calls ==> Accepts(ledger.Account(call.receiver), call.action, call.time))
            && PaymentTotal(calls) <= ledger.wallet
  {
    if Multicall(ledger, calls, period).Some? {
      LandedSettles(ledger, calls, period);
      if call :| call in calls && call.action.Withdraw? {
        NoPayments(calls);
      } else {
        WalletPays(ledger, calls, period);
      }
    } else if (forall call :: call in calls ==> Accepts(ledger.Account(call.receiver), call.action, call.time))
              && PaymentTotal(calls) <= ledger.wallet {
      IndependentCallsSettle(ledger, calls, period);
    }
  }

  lemma SettledValid(ledger: Ledger, calls: seq<Call>, period: nat, after: Ledger)
    requires ledger.Valid() && period > 0 && Settled(ledger, calls, period, after)
    ensures after.Valid()
  {
  }

  lemma SettledUnique(ledger: Ledger, calls1: seq<Call>, calls2: seq<Call>, period: nat, after1: Ledger, after2: Ledger)
    requires forall call :: call in calls1 <==> call in calls2
    requires Settled(ledger, calls1, period, after1) && Settled(ledger, calls2, period, after2)
    requires after1.Tokens() == after2.Tokens()
    ensures after1 == after2
  {
    forall receiver | receiver in after1.accounts
      ensures after1.Account(receiver) == after2.Account(receiver)
    {
      if call :| call in calls1 && call.receiver == receiver {
        assert call in calls2;
      }
    }
    assert after1.accounts == after2.accounts by {
      assert after1.accounts.Keys == after2.accounts.Keys;
      assert forall r :: r in after1.accounts ==> after1.Account(r) == after1.accounts[r];
      assert forall r :: r in after2.accounts ==> after2.Account(r) == after2.accounts[r];
    }
  }
}
