/** One receiver's escrow account: the manager's decision about it, the contract's steps on it,
    and what follows for whole runs of the manager. */
module Reclamation {
  import opened Common
  import opened Ladder

  datatype EscrowAccount = EscrowAccount(balance: nat, thawing: nat, thawEnd: nat) {
    /** What the account can still pay out for: the contract's own `getBalance`. */
    function Effective(): nat {
      SaturatingSub(balance, thawing)
    }

    /** The states the contract keeps an account in. */
    predicate Valid() {
      thawing <= balance && (thawing == 0 <==> thawEnd == 0)
    }
  }

  const EMPTY_ACCOUNT := EscrowAccount(0, 0, 0)

  datatype Reclaim = Reclaim(chainNow: Option<nat>, marginBps: nat, minWithdraw: nat)

  datatype Action =
    | Nothing
    | Withdraw
    | Deposit(amount: nat)
    | Thaw(amount: nat)

  function Floor(target: nat, marginBps: nat): nat {
    target + (target / 10_000) * marginBps
  }

  /** A thaw is under way that is known to have matured, strictly. */
  predicate Matured(account: EscrowAccount, reclaim: Option<Reclaim>) {
    && account.thawEnd != 0 && account.thawing > 0
    && reclaim.Some? && reclaim.value.chainNow.Some? && reclaim.value.chainNow.value > account.thawEnd
  }

  function Decide(account: EscrowAccount, target: nat, reclaim: Option<Reclaim>): Action {
    if Matured(account, reclaim) then Withdraw
    else
      var deposit := SaturatingSub(target, account.Effective());
      if deposit > 0 then Deposit(deposit)
      else if reclaim.None? || account.thawing > 0 then Nothing
      else
        var excess := SaturatingSub(account.balance, Floor(target, reclaim.value.marginBps));
        if excess > 0 && excess >= reclaim.value.minWithdraw then Thaw(excess) else Nothing
  }

  // ---------- The contract's steps ----------

  /** Whether the contract accepts the call an action stands for, in a block at `time`. */
  predicate Accepts(account: EscrowAccount, action: Action, time: nat) {
    match action
    case Nothing => true
    case Withdraw => account.thawEnd != 0 && account.thawEnd < time
    case Deposit(amount) => amount > 0
    case Thaw(amount) => 0 < amount <= account.balance
  }

  function Perform(account: EscrowAccount, action: Action, time: nat, period: nat): EscrowAccount
    requires Accepts(account, action, time)
  {
    match action
    case Nothing => account
    case Withdraw => EscrowAccount(SaturatingSub(account.balance, account.thawing), 0, 0)
    case Deposit(amount) => account.(balance := account.balance + amount)
    case Thaw(amount) => account.(thawing := amount, thawEnd := time + period)
  }

  /** A receiver collecting `tokens`: a pending thaw shrinks to what is left, or ends. */
  function Collect(account: EscrowAccount, tokens: nat): EscrowAccount
    requires tokens <= account.balance
  {
    var left := account.balance - tokens;
    var thawing := Min(account.thawing, left);
    EscrowAccount(left, thawing, if thawing == 0 then 0 else account.thawEnd)
  }

  /** A collection comes out of what is not thawing first: it takes that much off coverage, eats
      into a pending thaw only beyond it, leaves the thaw's timer running, and ends the thaw when
      it drains the balance. */
  lemma CollectionShrinks(account: EscrowAccount, tokens: nat)
    requires account.Valid() && tokens <= account.balance
    ensures var after := Collect(account, tokens);
            && after.balance == account.balance - tokens
            && after.Effective() == SaturatingSub(account.Effective(), tokens)
            && (tokens <= account.Effective() ==> after.thawing == account.thawing)
            && (tokens >= account.Effective() ==> after.thawing == after.balance)
            && (after.thawing > 0 ==> after.thawEnd == account.thawEnd)
            && (tokens == account.balance ==> after == EMPTY_ACCOUNT)
  {
  }

  // ---------- One step ----------

  /** Whatever is decided, the contract accepts it in any block no earlier than the one the
      decision was made against, and the account stays well formed, as it does on collection. */
  lemma DecisionAccepted(account: EscrowAccount, target: nat, reclaim: Option<Reclaim>, time: nat, period: nat)
    requires account.Valid() && period > 0
    requires reclaim.Some? && reclaim.value.chainNow.Some? ==> reclaim.value.chainNow.value <= time
    ensures Accepts(account, Decide(account, target, reclaim), time)
    ensures Perform(account, Decide(account, target, reclaim), time, period).Valid()
    ensures forall tokens :: 0 <= tokens <= account.balance ==> Collect(account, tokens).Valid()
  {
  }

  /** The thaw floor loses nothing to its integer division, lies between the target and twice
      the target, and fits a u128 with every intermediate value. */
  lemma FloorExact(rung: nat, marginBps: nat)
    requires rung <= LAST_RUNG && marginBps <= 10_000
    ensures var target := rung * GRT;
            && Floor(target, marginBps) * 10_000 == target * (10_000 + marginBps)
            && target <= Floor(target, marginBps) <= 2 * target
            && Floor(target, marginBps) <= U128_MAX
  {
    var part := rung * (GRT / 10_000);
    assert part * 10_000 == rung * GRT;
    assert part * marginBps <= part * 10_000;
  }

  lemma FloorCovers(target: nat, marginBps: nat)
    ensures Floor(target, marginBps) >= target
  {
  }

  lemma ThawCoverage(account: EscrowAccount, target: nat, reclaim: Option<Reclaim>, time: nat, period: nat)
    requires account.Valid() && Decide(account, target, reclaim).Thaw?
    ensures var amount := Decide(account, target, reclaim).amount;
            && 0 < amount <= account.balance && amount >= reclaim.value.minWithdraw
            && Perform(account, Thaw(amount), time, period).Effective() == Floor(target, reclaim.value.marginBps)
  {
  }

  /** What a step does to coverage: a full deposit reaches the target exactly, a thaw stops at
      the floor exactly, a withdrawal changes nothing, and no step, whatever part of a deposit
      is granted, takes coverage below the smaller of its old value and the target. */
  lemma StepCoverage(account: EscrowAccount, target: nat, reclaim: Option<Reclaim>, time: nat, period: nat)
    requires account.Valid() && period > 0
    requires reclaim.Some? && reclaim.value.chainNow.Some? ==> reclaim.value.chainNow.value <= time
    ensures var action := Decide(account, target, reclaim);
            Accepts(account, action, time) &&
            var after := Perform(account, action, time, period).Effective();
            && after >= Min(account.Effective(), target)
            && match action
               case Nothing => after == account.Effective()
               case Withdraw => after == account.Effective()
               case Deposit(amount) =>
                 && account.Effective() < target == after
                 && forall granted: nat :: granted > 0 ==>
                      Perform(account, Deposit(granted), time, period).Effective() == account.Effective() + granted
               case Thaw(amount) =>
                 && after == Floor(target, reclaim.value.marginBps) >= target
                 && amount >= reclaim.value.minWithdraw
  {
    match Decide(account, target, reclaim)
    case Thaw(_) =>
      ThawCoverage(account, target, reclaim, time, period);
      FloorCovers(target, reclaim.value.marginBps);
    case _ =>
      DecisionAccepted(account, target, reclaim, time, period);
  }

  // ---------- Runs ----------

  /** One cycle as a receiver sees it. `chainNow` is the block time the cycle read, if it
      could; `time` is that of the block its call lands in. */
  datatype Tick = Tick(target: nat, reclaim: Option<Reclaim>, time: nat) {
    predicate Valid() {
      reclaim.Some? && reclaim.value.chainNow.Some? ==> reclaim.value.chainNow.value <= time
    }
  }

  predicate ValidTicks(ticks: seq<Tick>) {
    forall i :: 0 <= i < |ticks| ==> ticks[i].Valid()
  }

  function After(account: EscrowAccount, tick: Tick, period: nat): (next: EscrowAccount)
    requires account.Valid() && tick.Valid() && period > 0
    ensures next.Valid()
  {
    DecisionAccepted(account, tick.target, tick.reclaim, tick.time, period);
    Perform(account, Decide(account, tick.target, tick.reclaim), tick.time, period)
  }

  /** The actions of a run in which every deposit is granted in full and nothing is collected. */
  function Actions(account: EscrowAccount, ticks: seq<Tick>, period: nat): (actions: seq<Action>)
    requires account.Valid() && ValidTicks(ticks) && period > 0
    ensures |actions| == |ticks|
    decreases |ticks|
  {
    if ticks == [] then []
    else
      var first, next := ticks[0], After(account, ticks[0], period);
      [Decide(account, first.target, first.reclaim)] + Actions(next, ticks[1..], period)
  }

  lemma ActionAt(account: EscrowAccount, ticks: seq<Tick>, period: nat, k: nat)
    requires account.Valid() && ValidTicks(ticks) && period > 0 && k < |ticks|
    ensures k == 0 ==> Actions(account, ticks, period)[k] == Decide(account, ticks[0].target, ticks[0].reclaim)
    ensures k > 0 ==>
              Actions(account, ticks, period)[k] == Actions(After(account, ticks[0], period), ticks[1..], period)[k - 1]
  {
  }

  function Final(account: EscrowAccount, ticks: seq<Tick>, period: nat): (final: EscrowAccount)
    requires account.Valid() && ValidTicks(ticks) && period > 0
    ensures final.Valid()
    decreases |ticks|
  {
    if ticks == [] then account else Final(After(account, ticks[0], period), ticks[1..], period)
  }

  function Busy(actions: seq<Action>): nat {
    if actions == [] then 0 else (if actions[0].Nothing? then 0 else 1) + Busy(actions[1..])
  }

  /** A fixed target and policy; the block times read may differ from cycle to cycle, or be
      missing. */
  predicate Steady(ticks: seq<Tick>, target: nat, policy: Option<Reclaim>) {
    forall i :: 0 <= i < |ticks| ==>
      && ticks[i].target == target
      && ticks[i].reclaim.Some? == policy.Some?
      && (policy.Some? ==>
            && ticks[i].reclaim.value.marginBps == policy.value.marginBps
            && ticks[i].reclaim.value.minWithdraw == policy.value.minWithdraw)
  }

  predicate WorthThawing(excess: int, policy: Reclaim) {
    excess > 0 && excess >= policy.minWithdraw
  }

  /** The exact number of actions an account is away from rest. */
  function Rank(account: EscrowAccount, target: nat, policy: Option<Reclaim>): (rank: nat)
    ensures rank <= 3
  {
    (if policy.Some? && account.thawing > 0 then 1 else 0) +
    (if account.Effective() < target then 1
     else if policy.Some? && WorthThawing(account.Effective() - Floor(target, policy.value.marginBps), policy.value)
     then 2
     else 0)
  }

  lemma RankStep(account: EscrowAccount, tick: Tick, period: nat)
    requires account.Valid() && tick.Valid() && period > 0
    ensures Rank(account, tick.target, tick.reclaim)
            == Rank(After(account, tick, period), tick.target, tick.reclaim)
               + if Decide(account, tick.target, tick.reclaim).Nothing? then 0 else 1
  {
    DecisionAccepted(account, tick.target, tick.reclaim, tick.time, period);
  }

  /** Quiescence. In a steady run every action brings the account one step closer to rest, so
      there are at most three, and from rank zero none at all. */
  lemma {:induction false} Quiescence(account: EscrowAccount, ticks: seq<Tick>, period: nat, target: nat,
                                      policy: Option<Reclaim>)
    requires account.Valid() && ValidTicks(ticks) && period > 0 && Steady(ticks, target, policy)
    ensures Busy(Actions(account, ticks, period)) ==
            Rank(account, target, policy) - Rank(Final(account, ticks, period), target, policy)
    ensures Busy(Actions(account, ticks, period)) <= 3
    decreases |ticks|
  {
    if ticks != [] {
      var rest := Actions(After(account, ticks[0], period), ticks[1..], period);
      assert Actions(account, ticks, period)[1..] == rest;
      RankStep(account, ticks[0], period);
      Quiescence(After(account, ticks[0], period), ticks[1..], period, target, policy);
    }
  }

  /** The bound of three is reached: a matured thaw is withdrawn, the excess that was waiting
      behind it is thawed, and that thaw is withdrawn in turn. */
  lemma ThreeActionsHappen(period: nat)
    requires period > 0
    ensures var at := (now: nat) => Tick(MIN_DEPOSIT, Some(Reclaim(Some(now), 2_500, 0)), now);
            var ticks := [at(2), at(3), at(4 + period)];
            Busy(Actions(EscrowAccount(3 * MIN_DEPOSIT, 1, 1), ticks, period)) == 3
  {
    var at := (now: nat) => Tick(MIN_DEPOSIT, Some(Reclaim(Some(now), 2_500, 0)), now);
    var t1, t2, t3 := at(2), at(3), at(4 + period);
    var a1 := After(EscrowAccount(3 * MIN_DEPOSIT, 1, 1), t1, period);
    var a2 := After(a1, t2, period);
    assert [t1, t2, t3][1..] == [t2, t3] && [t2, t3][1..] == [t3];
    assert Busy(Actions(a2, [t3], period)) == 1;
    assert Busy(Actions(a1, [t2, t3], period)) == 2;
  }

  /** An account left alone by a cycle that knows the block time is at rest, unless a thaw that
      has not matured is all it waits for or is in the way of the next one. */
  lemma LeftAloneOnlyAtRestOrThawing(account: EscrowAccount, target: nat, reclaim: Reclaim)
    requires account.Valid() && reclaim.chainNow.Some?
    ensures Decide(account, target, Some(reclaim)) == Nothing <==>
            || Rank(account, target, Some(reclaim)) == 0
            || (account.Effective() >= target && account.thawing > 0 && reclaim.chainNow.value <= account.thawEnd)
  {
  }

  /** Coverage over runs. Without collections, a covered receiver whose target never rises
      stays covered, whatever the policy of each cycle, and is never deposited to. */
  lemma {:induction false} CoveredStaysCovered(account: EscrowAccount, ticks: seq<Tick>, period: nat)
    requires account.Valid() && ValidTicks(ticks) && period > 0
    requires ticks != [] ==> account.Effective() >= ticks[0].target
    requires forall i, j :: 0 <= i <= j < |ticks| ==> ticks[j].target <= ticks[i].target
    ensures forall i :: 0 <= i < |ticks| ==> !Actions(account, ticks, period)[i].Deposit?
    ensures ticks != [] ==> Final(account, ticks, period).Effective() >= ticks[|ticks| - 1].target
    decreases |ticks|
  {
    if ticks != [] {
      StepCoverage(account, ticks[0].target, ticks[0].reclaim, ticks[0].time, period);
      CoveredStaysCovered(After(account, ticks[0], period), ticks[1..], period);
      forall i | 0 <= i < |ticks| ensures !Actions(account, ticks, period)[i].Deposit? {
        ActionAt(account, ticks, period, i);
      }
    }
  }

  lemma {:induction false} NoThawOnceFunded(account: EscrowAccount, ticks: seq<Tick>, period: nat, target: nat,
                                            policy: Option<Reclaim>)
    requires account.Valid() && ValidTicks(ticks) && period > 0 && Steady(ticks, target, policy)
    requires account.Effective() == target
    ensures forall i :: 0 <= i < |ticks| ==> !Actions(account, ticks, period)[i].Thaw?
    decreases |ticks|
  {
    if ticks != [] {
      StepCoverage(account, target, ticks[0].reclaim, ticks[0].time, period);
      NoThawOnceFunded(After(account, ticks[0], period), ticks[1..], period, target, policy);
      forall i | 0 <= i < |ticks| ensures !Actions(account, ticks, period)[i].Thaw? {
        ActionAt(account, ticks, period, i);
      }
    }
  }

  /** Hysteresis. No steady run both deposits and thaws, in either order. */
  lemma {:induction false} NeverBothDepositAndThaw(account: EscrowAccount, ticks: seq<Tick>, period: nat,
                                                   target: nat, policy: Option<Reclaim>, i: nat, j: nat)
    requires account.Valid() && ValidTicks(ticks) && period > 0 && Steady(ticks, target, policy)
    requires i < |ticks| && j < |ticks|
    ensures !(Actions(account, ticks, period)[i].Deposit? && Actions(account, ticks, period)[j].Thaw?)
    decreases |ticks|
  {
    var next, rest := After(account, ticks[0], period), ticks[1..];
    ActionAt(account, ticks, period, i);
    ActionAt(account, ticks, period, j);
    StepCoverage(account, target, ticks[0].reclaim, ticks[0].time, period);
    if Decide(account, target, ticks[0].reclaim).Deposit? {
      NoThawOnceFunded(next, rest, period, target, policy);
    } else if Decide(account, target, ticks[0].reclaim).Thaw? {
      CoveredStaysCovered(next, rest, period);
    } else if i > 0 && j > 0 {
      NeverBothDepositAndThaw(next, rest, period, target, policy, i - 1, j - 1);
    }
  }
}
