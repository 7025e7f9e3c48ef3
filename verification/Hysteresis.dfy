/** Hysteresis and quiescence when deposits are cut down to the cap, and raised to 2 GRT. */
module Hysteresis {
  import opened Common
  import opened Ladder
  import opened Reclamation
  import opened Reduction
  import opened Escrow
  import opened Cycle
  import opened Batches
  import opened Convergence
  import opened Cap

  /** The least excess over the target that is thawed is out of reach of a deposit raised to the
      minimum. */
  predicate Wide(target: nat, marginBps: nat, minWithdraw: nat) {
    (target / 10_000) * marginBps + Max(1, minWithdraw) >= MIN_DEPOSIT
  }

  /** Reclamation may be suspended in some cycles; otherwise the policy is the same. */
  predicate OnePolicy(reclaims: seq<Option<Reclaim>>, marginBps: nat, minWithdraw: nat) {
    forall i :: 0 <= i < |reclaims| && reclaims[i].Some? ==>
      reclaims[i].value.marginBps == marginBps && reclaims[i].value.minWithdraw == minWithdraw
  }

  predicate Follows(reclaim: Option<Reclaim>, marginBps: nat, minWithdraw: nat) {
    reclaim.Some? ==> reclaim.value.marginBps == marginBps && reclaim.value.minWithdraw == minWithdraw
  }

  lemma FloorIs(target: nat, marginBps: nat)
    ensures Floor(target, marginBps) - target == (target / 10_000) * marginBps >= 0
  {
  }

  // ---------- Hysteresis ----------

  /** A course that deposits in cycle `i` and thaws in cycle `j`. */
  predicate Bounces(accounts: seq<EscrowAccount>, reclaims: seq<Option<Reclaim>>, target: nat, marginBps: nat,
                    minWithdraw: nat, i: nat, j: nat) {
    && Course(accounts, reclaims, target) && OnePolicy(reclaims, marginBps, minWithdraw)
    && i < |reclaims| && j < |reclaims|
    && Decide(accounts[i], target, reclaims[i]).Deposit?
    && Decide(accounts[j], target, reclaims[j]).Thaw?
  }

  lemma BelowStaysUnthawed(account: EscrowAccount, next: EscrowAccount, target: nat, reclaim: Option<Reclaim>,
                           marginBps: nat, minWithdraw: nat)
    requires account.Valid() && Advances(account, next, target, reclaim)
    requires Wide(target, marginBps, minWithdraw) && Follows(reclaim, marginBps, minWithdraw)
    requires account.Effective() < target + MIN_DEPOSIT
    ensures !Decide(account, target, reclaim).Thaw?
    ensures next.Effective() < target + MIN_DEPOSIT
  {
    FloorIs(target, marginBps);
    ReceiverProgress(account, next, target, reclaim);
  }

  lemma {:induction false} NoThawBelow(accounts: seq<EscrowAccount>, reclaims: seq<Option<Reclaim>>, target: nat,
                                       marginBps: nat, minWithdraw: nat, j: nat)
    requires Course(accounts, reclaims, target) && OnePolicy(reclaims, marginBps, minWithdraw)
    requires Wide(target, marginBps, minWithdraw) && j < |reclaims|
    requires accounts[0].Effective() < target + MIN_DEPOSIT
    ensures !Decide(accounts[j], target, reclaims[j]).Thaw?
    decreases |reclaims|
  {
    BelowStaysUnthawed(accounts[0], accounts[1], target, reclaims[0], marginBps, minWithdraw);
    if j > 0 { NoThawBelow(accounts[1..], reclaims[1..], target, marginBps, minWithdraw, j - 1); }
  }

  lemma CoverageKept(account: EscrowAccount, next: EscrowAccount, target: nat, reclaim: Option<Reclaim>)
    requires account.Valid() && Advances(account, next, target, reclaim) && account.Effective() >= target
    ensures !Decide(account, target, reclaim).Deposit? && next.Effective() >= target
  {
    if reclaim.Some? { FloorIs(target, reclaim.value.marginBps); }
  }

  lemma {:induction false} NoDepositOnceCovered(accounts: seq<EscrowAccount>, reclaims: seq<Option<Reclaim>>,
                                                target: nat, j: nat)
    requires Course(accounts, reclaims, target) && j < |reclaims| && accounts[0].Effective() >= target
    ensures !Decide(accounts[j], target, reclaims[j]).Deposit?
    decreases |reclaims|
  {
    CoverageKept(accounts[0], accounts[1], target, reclaims[0]);
    if j > 0 { NoDepositOnceCovered(accounts[1..], reclaims[1..], target, j - 1); }
  }

  lemma {:induction false} WideNeverBounces(accounts: seq<EscrowAccount>, reclaims: seq<Option<Reclaim>>, target: nat,
                                            marginBps: nat, minWithdraw: nat, i: nat, j: nat)
    requires Wide(target, marginBps, minWithdraw)
    ensures !Bounces(accounts, reclaims, target, marginBps, minWithdraw, i, j)
    decreases |reclaims|
  {
    if Bounces(accounts, reclaims, target, marginBps, minWithdraw, i, j) {
      if i == 0 {
        NoThawBelow(accounts, reclaims, target, marginBps, minWithdraw, j);
      } else if j == 0 {
        CoverageKept(accounts[0], accounts[1], target, reclaims[0]);
        NoDepositOnceCovered(accounts, reclaims, target, i);
      } else {
        WideNeverBounces(accounts[1..], reclaims[1..], target, marginBps, minWithdraw, i - 1, j - 1);
      }
    }
  }

  /** If the margin is narrower, an account one wei short is raised by 2 GRT and then thawed. */
  lemma NarrowBounces(target: nat, marginBps: nat, minWithdraw: nat)
    requires target > 0 && !Wide(target, marginBps, minWithdraw)
    ensures var reclaim := Some(Reclaim(None, marginBps, minWithdraw));
            var excess := MIN_DEPOSIT - 1 - (target / 10_000) * marginBps;
            var raised := target - 1 + MIN_DEPOSIT;
            excess > 0 &&
            Bounces([EscrowAccount(target - 1, 0, 0), EscrowAccount(raised, 0, 0), EscrowAccount(raised, excess, 1)],
                    [reclaim, reclaim], target, marginBps, minWithdraw, 0, 1)
  {
    FloorIs(target, marginBps);
  }

  /** Hysteresis under the cap. No course both deposits and thaws, in either order, if and only
      if the margin, or the least withdrawal, is wide enough. */
  lemma HysteresisExactly(target: nat, marginBps: nat, minWithdraw: nat)
    requires target > 0
    ensures Wide(target, marginBps, minWithdraw) <==>
            forall accounts, reclaims, i, j :: !Bounces(accounts, reclaims, target, marginBps, minWithdraw, i, j)
  {
    if Wide(target, marginBps, minWithdraw) {
      forall accounts, reclaims, i, j ensures !Bounces(accounts, reclaims, target, marginBps, minWithdraw, i, j) {
        WideNeverBounces(accounts, reclaims, target, marginBps, minWithdraw, i, j);
      }
    } else {
      NarrowBounces(target, marginBps, minWithdraw);
    }
  }

  const NARROW_CONFIG := Config(1.0, true, 0, 0, map[], false)

  lemma SmallAndLargeLevels()
    ensures Filled([1, 16384 * GRT], 99, 2) == [MIN_DEPOSIT, 10_002 * GRT]
    ensures Filled([1, 16384 * GRT], 99, 1) == [MIN_DEPOSIT, 9_902 * GRT]
  {
    LevelClosedForm(1, 99);
    LevelClosedForm(1, 100);
    LevelClosedForm(16384 * GRT, 99);
    LevelClosedForm(16384 * GRT, 100);
  }

  lemma SmallAndLarge(small: Address, large: Address)
    ensures Grants([(small, 1), (large, 16384 * GRT)], [(small, MIN_DEPOSIT), (large, 10_002 * GRT)])
    ensures Sum(Amounts([(small, 1), (large, 16384 * GRT)])) > MAX_ADJUSTMENT
    ensures Sum(Amounts([(small, MIN_DEPOSIT), (large, 10_002 * GRT)])) == 10_004 * GRT
  {
    var desired, granted := [(small, 1), (large, 16384 * GRT)], [(small, MIN_DEPOSIT), (large, 10_002 * GRT)];
    var amounts := Amounts(desired);
    SmallAndLargeLevels();
    SumOfTwo(1, 16384 * GRT);
    SumOfTwo(MIN_DEPOSIT, 10_002 * GRT);
    SumOfTwo(MIN_DEPOSIT, 9_902 * GRT);
    assert amounts == [1, 16384 * GRT];
    assert Amounts(granted) == [MIN_DEPOSIT, 10_002 * GRT];
    assert StopsAt(amounts, 99, 2);
    assert Keys(granted) == Keys(desired);
  }

  lemma SumOfTwo(a: nat, b: nat)
    ensures Sum([a, b]) == a + b
  {
    assert [a, b] == ([] + [a]) + [b];
    SumAppend([], a);
    SumAppend([] + [a], b);
  }

  function NarrowInputs(small: Address, large: Address): Inputs {
    Inputs([small, large], map[small := 1, large := 10_000 * GRT], map[], None)
  }

  function NarrowLedger(small: Address, wallet: nat): Ledger {
    Ledger(map[small := EscrowAccount(MIN_DEPOSIT - 1, 0, 0)], wallet)
  }

  function DepositsOf(small: Address, first: nat, large: Address, second: nat): Plan {
    Plan([(small, first), (large, second)], [], [])
  }

  lemma NarrowDebts(small: Address, large: Address)
    requires small < large
    ensures SeenDebt(NarrowInputs(small, large), small) == Debt(NARROW_CONFIG, NarrowInputs(small, large), small) == 1
    ensures Debt(NARROW_CONFIG, NarrowInputs(small, large), large) == 10_000 * GRT
  {
  }

  lemma NarrowTargets(small: Address, large: Address)
    requires small < large
    ensures Admissible(NARROW_CONFIG, NarrowInputs(small, large))
    ensures ReclaimOf(NARROW_CONFIG, NarrowInputs(small, large)) == Some(Reclaim(None, 0, 0))
    ensures TargetOf(NARROW_CONFIG, NarrowInputs(small, large), small) == MIN_DEPOSIT
    ensures TargetOf(NARROW_CONFIG, NarrowInputs(small, large), large) == 16384 * GRT
  {
    NarrowDebts(small, large);
    LowestTarget(1);
    TargetOfTenThousand();
    assert small in NarrowInputs(small, large).receivers;
  }

  lemma ShortDecisions()
    ensures Decide(EscrowAccount(MIN_DEPOSIT - 1, 0, 0), MIN_DEPOSIT, Some(Reclaim(None, 0, 0))) == Deposit(1)
    ensures Decide(EMPTY_ACCOUNT, 16384 * GRT, Some(Reclaim(None, 0, 0))) == Deposit(16384 * GRT)
    // What the first becomes once it is raised by 2 GRT.
    ensures Decide(EscrowAccount(2 * MIN_DEPOSIT - 1, 0, 0), MIN_DEPOSIT, Some(Reclaim(None, 0, 0))) ==
            Thaw(MIN_DEPOSIT - 1)
  {
  }

  lemma NarrowDecisions(small: Address, large: Address, wallet: nat)
    requires small < large
    ensures Admissible(NARROW_CONFIG, NarrowInputs(small, large))
    ensures Decision(NARROW_CONFIG, NarrowInputs(small, large), NarrowLedger(small, wallet), small) == Deposit(1)
    ensures Decision(NARROW_CONFIG, NarrowInputs(small, large), NarrowLedger(small, wallet), large) ==
            Deposit(16384 * GRT)
  {
    NarrowTargets(small, large);
    ShortDecisions();
  }

  lemma DecisionsOfTwo(config: Config, inputs: Inputs, ledger: Ledger, a: Address, b: Address)
    requires Admissible(config, inputs) && inputs.receivers == [a, b]
    ensures Decisions(config, inputs, ledger)
            == map[a := Decision(config, inputs, ledger, a), b := Decision(config, inputs, ledger, b)]
  {
    var actions := Decisions(config, inputs, ledger);
    assert actions.Keys == {a, b};
    MapOfTwo(actions, a, b);
  }

  lemma MapOfTwo<T>(m: map<Address, T>, a: Address, b: Address)
    requires m.Keys == {a, b}
    ensures m == map[a := m[a], b := m[b]]
  {
    assert a in m.Keys && b in m.Keys;
  }

  lemma NarrowActions(small: Address, large: Address, wallet: nat)
    requires small < large
    ensures Admissible(NARROW_CONFIG, NarrowInputs(small, large))
    ensures Decisions(NARROW_CONFIG, NarrowInputs(small, large), NarrowLedger(small, wallet))
            == map[small := Deposit(1), large := Deposit(16384 * GRT)]
  {
    NarrowDecisions(small, large, wallet);
    DecisionsOfTwo(NARROW_CONFIG, NarrowInputs(small, large), NarrowLedger(small, wallet), small, large);
  }

  lemma TwoDeposits(small: Address, first: nat, large: Address, second: nat)
    requires small < large
    ensures Implements(DepositsOf(small, first, large, second), map[small := Deposit(first), large := Deposit(second)])
  {
    var deposits := DepositsOf(small, first, large, second).deposits;
    assert deposits[0] == (small, first) && deposits[1] == (large, second);
  }

  lemma NarrowSent(small: Address, large: Address, wallet: nat, times: Times)
    requires small < large
    ensures SentFor(NARROW_CONFIG, NarrowInputs(small, large), NarrowLedger(small, wallet),
                    DepositsOf(small, 1, large, 16384 * GRT), DepositsOf(small, MIN_DEPOSIT, large, 10_002 * GRT),
                    times)
  {
    NarrowActions(small, large, wallet);
    TwoDeposits(small, 1, large, 16384 * GRT);
    SmallAndLarge(small, large);
  }

  lemma NarrowCycle(small: Address, large: Address, wallet: nat, times: Times, period: nat) returns (after: Ledger)
    requires small < large && wallet >= 10_004 * GRT && period > 0
    ensures FullCycle(NARROW_CONFIG, NarrowInputs(small, large), NarrowLedger(small, wallet), after,
                      DepositsOf(small, 1, large, 16384 * GRT), DepositsOf(small, MIN_DEPOSIT, large, 10_002 * GRT),
                      times, period)
    ensures after.Account(small) == EscrowAccount(2 * MIN_DEPOSIT - 1, 0, 0)
  {
    var inputs, before := NarrowInputs(small, large), NarrowLedger(small, wallet);
    var plan := DepositsOf(small, 1, large, 16384 * GRT);
    var sent := DepositsOf(small, MIN_DEPOSIT, large, 10_002 * GRT);
    NarrowSent(small, large, wallet, times);
    SmallAndLarge(small, large);
    after := PlanLands(NARROW_CONFIG, inputs, before, plan, sent, times, period);
    DepositCredited(NARROW_CONFIG, inputs, before, after, plan, sent, times, period, 0);
  }

  lemma NarrowThaw(small: Address, large: Address, ledger: Ledger)
    requires small < large && ledger.Account(small) == EscrowAccount(2 * MIN_DEPOSIT - 1, 0, 0)
    ensures Admissible(NARROW_CONFIG, NarrowInputs(small, large))
    ensures Decision(NARROW_CONFIG, NarrowInputs(small, large), ledger, small) == Thaw(MIN_DEPOSIT - 1)
  {
    NarrowTargets(small, large);
    ShortDecisions();
  }

  /** With no margin and no least withdrawal, both of which the configuration admits, a cycle
      over the cap deposits to a receiver whose escrow the next one thaws. */
  lemma NarrowCycleBounces(small: Address, large: Address, wallet: nat, times: Times, period: nat)
    requires small < large && wallet >= 10_004 * GRT && period > 0
    ensures var inputs, before := NarrowInputs(small, large), NarrowLedger(small, wallet);
            var plan := DepositsOf(small, 1, large, 16384 * GRT);
            var sent := DepositsOf(small, MIN_DEPOSIT, large, 10_002 * GRT);
            Admissible(NARROW_CONFIG, inputs) &&
            exists after ::
              && FullCycle(NARROW_CONFIG, inputs, before, after, plan, sent, times, period)
              && Decision(NARROW_CONFIG, inputs, before, small) == Deposit(1)
              && Decision(NARROW_CONFIG, inputs, after, small) == Thaw(MIN_DEPOSIT - 1)
  {
    var after := NarrowCycle(small, large, wallet, times, period);
    NarrowDecisions(small, large, wallet);
    NarrowThaw(small, large, after);
  }

  /** A thaw is never followed by a deposit, however narrow the margin. */
  lemma {:induction false} NoDepositAfterThaw(accounts: seq<EscrowAccount>, reclaims: seq<Option<Reclaim>>,
                                              target: nat, i: nat, j: nat)
    requires Course(accounts, reclaims, target) && i <= j < |reclaims|
    requires Decide(accounts[i], target, reclaims[i]).Thaw?
    ensures !Decide(accounts[j], target, reclaims[j]).Deposit?
    decreases |reclaims|
  {
    if i == 0 {
      NoDepositOnceCovered(accounts, reclaims, target, j);
    } else {
      NoDepositAfterThaw(accounts[1..], reclaims[1..], target, i - 1, j - 1);
    }
  }

  // ---------- Quiescence ----------

  /** The deposits that a shortfall takes when each takes off 2 GRT. */
  function Deposits(short: nat): nat {
    if short == 0 then 0 else 1 + Deposits(SaturatingSub(short, MIN_DEPOSIT))
  }

  lemma {:induction false} DepositsMonotone(s1: nat, s2: nat)
    requires s1 <= s2
    ensures Deposits(s1) <= Deposits(s2)
  {
    if s1 > 0 { DepositsMonotone(SaturatingSub(s1, MIN_DEPOSIT), SaturatingSub(s2, MIN_DEPOSIT)); }
  }

  /** That is the shortfall over 2 GRT, rounded up. */
  lemma {:induction false} DepositsRoundUp(short: nat)
    ensures short <= Deposits(short) * MIN_DEPOSIT < short + MIN_DEPOSIT
  {
    if short > MIN_DEPOSIT {
      DepositsRoundUp(short - MIN_DEPOSIT);
    } else if short > 0 {
      assert Deposits(short) == 1;
    }
  }

  /** The most actions an account is away from rest. */
  function CappedRank(account: EscrowAccount, target: nat, marginBps: nat, minWithdraw: nat): nat {
    (if account.thawing > 0 then 1 else 0) +
    (if account.Effective() < target
     then Deposits(Shortfall(account, target)) + if Wide(target, marginBps, minWithdraw) then 0 else 2
     else if WorthThawing(account.Effective() - Floor(target, marginBps), Reclaim(None, marginBps, minWithdraw)) then 2
     else 0)
  }

  lemma CappedRankStep(account: EscrowAccount, next: EscrowAccount, target: nat, reclaim: Option<Reclaim>,
                       marginBps: nat, minWithdraw: nat)
    requires account.Valid() && Advances(account, next, target, reclaim) && Follows(reclaim, marginBps, minWithdraw)
    ensures CappedRank(next, target, marginBps, minWithdraw)
            + (if Decide(account, target, reclaim).Nothing? then 0 else 1)
            <= CappedRank(account, target, marginBps, minWithdraw)
  {
    FloorIs(target, marginBps);
    if Decide(account, target, reclaim).Deposit? {
      ReceiverProgress(account, next, target, reclaim);
      DepositsMonotone(Shortfall(next, target), SaturatingSub(Shortfall(account, target), MIN_DEPOSIT));
    }
  }

  function Decided(accounts: seq<EscrowAccount>, reclaims: seq<Option<Reclaim>>, target: nat): (actions: seq<Action>)
    requires |accounts| == |reclaims| + 1
    ensures |actions| == |reclaims|
  {
    seq(|reclaims|, i requires 0 <= i < |reclaims| => Decide(accounts[i], target, reclaims[i]))
  }

  /** Quiescence under the cap. Every action brings the account closer to rest, whatever part of
      a deposit is granted and whenever reclamation is suspended. */
  lemma {:induction false} CappedQuiescence(accounts: seq<EscrowAccount>, reclaims: seq<Option<Reclaim>>, target: nat,
                                            marginBps: nat, minWithdraw: nat)
    requires Course(accounts, reclaims, target) && OnePolicy(reclaims, marginBps, minWithdraw)
    ensures Busy(Decided(accounts, reclaims, target)) <=
            CappedRank(accounts[0], target, marginBps, minWithdraw)
            - CappedRank(accounts[|reclaims|], target, marginBps, minWithdraw)
    decreases |reclaims|
  {
    if reclaims != [] {
      CappedRankStep(accounts[0], accounts[1], target, reclaims[0], marginBps, minWithdraw);
      CappedQuiescence(accounts[1..], reclaims[1..], target, marginBps, minWithdraw);
      assert Decided(accounts, reclaims, target)[1..] == Decided(accounts[1..], reclaims[1..], target);
    }
  }

  /** However many receivers compete for the capped deposits, one whose target stays put is
      acted on at most once for every 2 GRT it is short of at first, and three times more; and
      with a wide margin a receiver that starts short is never thawed. */
  lemma ManagerQuiesces(config: Config, ledgers: seq<Ledger>, rounds: seq<Round>, period: nat, receiver: Address,
                        target: nat)
    requires History(config, ledgers, rounds, period) && period > 0
    requires forall i :: 0 <= i < |rounds| ==> Targets(config, rounds[i].inputs, receiver, target)
    ensures var accounts, reclaims := AccountsOf(ledgers, receiver), ReclaimsOf(config, rounds);
            var short := Shortfall(accounts[0], target);
            var wide := Wide(target, config.marginBps, config.minWithdrawGrt * GRT);
            && Busy(Decided(accounts, reclaims, target)) <= Deposits(short) + 3
            && (short > 0 && wide ==> Busy(Decided(accounts, reclaims, target)) <= Deposits(short) + 1)
            && (wide ==> forall i, j :: 0 <= i < |rounds| && 0 <= j < |rounds| ==>
                  !(Decided(accounts, reclaims, target)[i].Deposit? && Decided(accounts, reclaims, target)[j].Thaw?))
  {
    var accounts, reclaims := AccountsOf(ledgers, receiver), ReclaimsOf(config, rounds);
    var marginBps, minWithdraw := config.marginBps, config.minWithdrawGrt * GRT;
    CourseOf(config, ledgers, rounds, period, receiver, target);
    CappedQuiescence(accounts, reclaims, target, marginBps, minWithdraw);
    if Wide(target, marginBps, minWithdraw) {
      forall i, j | 0 <= i < |rounds| && 0 <= j < |rounds|
        ensures !(Decided(accounts, reclaims, target)[i].Deposit? && Decided(accounts, reclaims, target)[j].Thaw?)
      {
        WideNeverBounces(accounts, reclaims, target, marginBps, minWithdraw, i, j);
      }
    }
  }

  /** A least withdrawal of 2 GRT or more, such as the default of 500, is wide for any target
      and margin. */
  lemma DefaultIsWide(target: nat, marginBps: nat, minWithdrawGrt: nat)
    requires minWithdrawGrt >= 2
    ensures Wide(target, marginBps, minWithdrawGrt * GRT)
  {
    FloorIs(target, marginBps);
  }
}
