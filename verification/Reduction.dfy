/** Cutting the deposits of a cycle down, round-robin, when together they exceed the cap. */
module Reduction {
  import opened Common
  import opened Ladder

  const STEP: nat := 100 * GRT

  type Entries = seq<(Address, nat)>

  function Keys(deposits: Entries): (keys: seq<Address>)
    ensures |keys| == |deposits|
  {
    seq(|deposits|, i requires 0 <= i < |deposits| => deposits[i].0)
  }

  function Amounts(deposits: Entries): (amounts: seq<nat>)
    ensures |amounts| == |deposits|
  {
    seq(|deposits|, i requires 0 <= i < |deposits| => deposits[i].1)
  }

  function Pair(keys: seq<Address>, amounts: seq<nat>): (deposits: Entries)
    requires |keys| == |amounts|
    ensures Keys(deposits) == keys && Amounts(deposits) == amounts
  {
    seq(|keys|, i requires 0 <= i < |keys| => (keys[i], amounts[i]))
  }

  /** One turn of a receiver. */
  function Turn(desired: nat, amount: nat): (raised: nat)
    ensures amount <= raised <= amount + STEP
  {
    if amount < desired then Min(desired, amount + STEP) else amount
  }

  /** A receiver's amount once it has had `turns` turns. */
  function Level(desired: nat, turns: nat): nat {
    if turns == 0 then MIN_DEPOSIT else Turn(desired, Level(desired, turns - 1))
  }

  /** In closed form: the desire, but no more than one step a turn on top of the minimum, and
      no less than the minimum. */
  lemma {:induction false} LevelClosedForm(desired: nat, turns: nat)
    ensures Level(desired, turns) == Max(MIN_DEPOSIT, Min(desired, MIN_DEPOSIT + STEP * turns))
  {
    if turns > 0 {
      LevelClosedForm(desired, turns - 1);
      assert STEP * turns == STEP * (turns - 1) + STEP;
    }
  }

  lemma {:induction false} LevelMonotone(desired: nat, t1: nat, t2: nat)
    requires t1 <= t2
    ensures Level(desired, t1) <= Level(desired, t2)
  {
    if t1 < t2 { LevelMonotone(desired, t1, t2 - 1); }
  }

  /** All amounts after `passes` full passes and the turns of the first `done` receivers. */
  function Filled(desired: seq<nat>, passes: nat, done: nat): (amounts: seq<nat>)
    ensures |amounts| == |desired|
  {
    seq(|desired|, j requires 0 <= j < |desired| => Level(desired[j], if j < done then passes + 1 else passes))
  }

  /** The filling stops after the first turn that brings the total to the cap. */
  predicate StopsAt(desired: seq<nat>, passes: nat, done: nat) {
    && 0 < done <= |desired|
    && Sum(Filled(desired, passes, done)) >= MAX_ADJUSTMENT
    && ((passes == 0 && done == 1) || Sum(Filled(desired, passes, done - 1)) < MAX_ADJUSTMENT)
  }

  lemma FilledMonotone(desired: seq<nat>, p1: nat, d1: nat, p2: nat, d2: nat)
    requires p1 < p2 || (p1 == p2 && d1 <= d2)
    ensures forall j :: 0 <= j < |desired| ==> Filled(desired, p1, d1)[j] <= Filled(desired, p2, d2)[j]
    ensures Sum(Filled(desired, p1, d1)) <= Sum(Filled(desired, p2, d2))
  {
    forall j | 0 <= j < |desired| ensures Filled(desired, p1, d1)[j] <= Filled(desired, p2, d2)[j] {
      LevelMonotone(desired[j], if j < d1 then p1 + 1 else p1, if j < d2 then p2 + 1 else p2);
    }
    SumMonotone(Filled(desired, p1, d1), Filled(desired, p2, d2));
  }

  /** Before the cap is reached some receiver is still short, so a full pass adds something. */
  lemma PassGrows(desired: seq<nat>, passes: nat)
    requires Sum(Filled(desired, passes, |desired|)) < Sum(desired)
    ensures Filled(desired, passes, |desired|) == Filled(desired, passes + 1, 0)
    ensures Sum(Filled(desired, passes, 0)) < Sum(Filled(desired, passes + 1, 0))
  {
    var before, after := Filled(desired, passes, 0), Filled(desired, passes + 1, 0);
    assert after == Filled(desired, passes, |desired|);
    if forall j :: 0 <= j < |desired| ==> desired[j] <= after[j] {
      SumMonotone(desired, after);
      assert false;
    }
    var j :| 0 <= j < |desired| && after[j] < desired[j];
    assert after[j] == Turn(desired[j], before[j]);
    SumMonotone(before, after);
  }

  lemma TurnFills(desired: seq<nat>, passes: nat, i: nat)
    requires i < |desired|
    ensures var amounts := Filled(desired, passes, i);
            Filled(desired, passes, i + 1) ==
            if amounts[i] < desired[i] then amounts[i := Turn(desired[i], amounts[i])] else amounts
  {
  }

  /** What a receiver has after some turns, in its own terms. */
  function Raise(desired: nat, turns: nat): int {
    Max(MIN_DEPOSIT, Min(desired, MIN_DEPOSIT + 100 * GRT * turns))
  }

  /** The reduced amounts in their own terms: everybody has had `passes` turns, the first `done`
      one more, and the last of these was the first to bring the total to the cap. */
  ghost predicate ReducedTo(desired: seq<nat>, amounts: seq<nat>, passes: nat, done: nat) {
    && |amounts| == |desired| && 0 < done <= |desired|
    && (forall j :: 0 <= j < |desired| ==> amounts[j] == Raise(desired[j], if j < done then passes + 1 else passes))
    && Sum(amounts) >= 10_000 * GRT
    && ((passes == 0 && done == 1) ||
        Sum(amounts) - (Raise(desired[done - 1], passes + 1) - Raise(desired[done - 1], passes)) < 10_000 * GRT)
  }

  lemma LevelIsRaise(desired: nat, turns: nat)
    ensures Level(desired, turns) == Raise(desired, turns)
  {
    LevelClosedForm(desired, turns);
  }

  lemma ReducedExactly(desired: seq<nat>, passes: nat, done: nat)
    requires StopsAt(desired, passes, done)
    ensures ReducedTo(desired, Filled(desired, passes, done), passes, done)
  {
    hide Raise, Level;
    var before, amounts := Filled(desired, passes, done - 1), Filled(desired, passes, done);
    forall j | 0 <= j < |desired| ensures amounts[j] == Raise(desired[j], if j < done then passes + 1 else passes) {
      LevelIsRaise(desired[j], if j < done then passes + 1 else passes);
    }
    LevelIsRaise(desired[done - 1], passes);
    assert amounts == before[done - 1 := amounts[done - 1]];
    SumUpdate(before, done - 1, amounts[done - 1]);
  }

  /** The loop over the receivers, in key order and again and again until the cap is reached. */
  method Fill(desired: seq<nat>) returns (amounts: seq<nat>, ghost passes: nat, ghost done: nat)
    requires Sum(desired) > MAX_ADJUSTMENT
    ensures StopsAt(desired, passes, done)
    ensures amounts == Filled(desired, passes, done)
  {
    amounts := seq(|desired|, _ => MIN_DEPOSIT);
    passes := 0;
    assert amounts == Filled(desired, 0, 0) && desired != [];
    hide Filled, Level, Turn, Sum;
    while true
      invariant amounts == Filled(desired, passes, 0)
      invariant passes == 0 || Sum(amounts) < MAX_ADJUSTMENT
      decreases MAX_ADJUSTMENT - Sum(amounts)
    {
      for i := 0 to |desired|
        invariant amounts == Filled(desired, passes, i)
        invariant (passes == 0 && i == 0) || Sum(amounts) < MAX_ADJUSTMENT
      {
        TurnFills(desired, passes, i);
        if amounts[i] < desired[i] {
          amounts := amounts[i := Turn(desired[i], amounts[i])];
        }
        if Sum(amounts) >= MAX_ADJUSTMENT {
          done := i + 1;
          assert StopsAt(desired, passes, done);
          return;
        }
      }
      PassGrows(desired, passes);
      passes := passes + 1;
    }
  }

  method ReduceAdjustments(adjustments: Entries) returns (reduced: Entries, ghost passes: nat, ghost done: nat)
    requires StrictlyAscending(Keys(adjustments))
    // The source asserts this on entry.
    requires Sum(Amounts(adjustments)) > MAX_ADJUSTMENT
    ensures Keys(reduced) == Keys(adjustments)
    ensures StopsAt(Amounts(adjustments), passes, done)
    ensures Amounts(reduced) == Filled(Amounts(adjustments), passes, done)
    ensures ReducedTo(Amounts(adjustments), Amounts(reduced), passes, done)
  {
    var amounts;
    amounts, passes, done := Fill(Amounts(adjustments));
    ReducedExactly(Amounts(adjustments), passes, done);
    reduced := Pair(Keys(adjustments), amounts);
  }

  /** Where the filling stops is determined by what was desired. */
  lemma StopUnique(desired: seq<nat>, p1: nat, d1: nat, p2: nat, d2: nat)
    requires StopsAt(desired, p1, d1) && StopsAt(desired, p2, d2)
    ensures p1 == p2 && d1 == d2
  {
    if p1 < p2 || (p1 == p2 && d1 < d2) {
      FilledMonotone(desired, p1, d1, p2, d2 - 1);
    } else if p2 < p1 || (p1 == p2 && d2 < d1) {
      FilledMonotone(desired, p2, d2, p1, d1 - 1);
    }
  }

  /** Max-min fairness: nobody is more than one step ahead of a receiver that is still short.
      Nobody gets less than the minimum, or more than the larger of it and its desire. */
  lemma Fair(desired: seq<nat>, passes: nat, done: nat, m: nat, j: nat)
    requires StopsAt(desired, passes, done) && m < |desired| && j < |desired|
    ensures var amounts := Filled(desired, passes, done);
            && (amounts[j] < desired[j] ==> amounts[m] <= amounts[j] + STEP)
            && MIN_DEPOSIT <= amounts[m] <= Max(MIN_DEPOSIT, desired[m])
  {
    var turnsM, turnsJ := if m < done then passes + 1 else passes, if j < done then passes + 1 else passes;
    LevelClosedForm(desired[m], turnsM);
    LevelClosedForm(desired[j], turnsJ);
    assert STEP * (turnsJ + 1) == STEP * turnsJ + STEP;
    assert turnsM <= turnsJ + 1 && STEP * turnsM <= STEP * (turnsJ + 1);
  }

  lemma {:induction false} SumOfMinimums(desired: seq<nat>)
    ensures Sum(Filled(desired, 0, 0)) == |desired| * MIN_DEPOSIT
    ensures |desired| < 5000 <==> Sum(Filled(desired, 0, 0)) < MAX_ADJUSTMENT
  {
    if desired != [] {
      var n := |desired| - 1;
      assert Filled(desired, 0, 0)[..n] == Filled(desired[..n], 0, 0);
      SumOfMinimums(desired[..n]);
    }
  }

  lemma LastTurnAdds(desired: seq<nat>, passes: nat, done: nat)
    requires 0 < done <= |desired|
    ensures Sum(Filled(desired, passes, done)) <= Sum(Filled(desired, passes, done - 1)) + STEP
  {
    var before, after := Filled(desired, passes, done - 1), Filled(desired, passes, done);
    assert after == before[done - 1 := after[done - 1]];
    SumUpdate(before, done - 1, after[done - 1]);
  }

  /** The cap the code keeps: the total reaches MAX_ADJUSTMENT and, for fewer than 5000
      receivers, exceeds it by less than one step. From 5000 receivers on the minimum deposits
      alone reach the cap, and the very first turn ends the filling. */
  lemma CapKept(desired: seq<nat>, passes: nat, done: nat)
    requires StopsAt(desired, passes, done)
    ensures MAX_ADJUSTMENT <= Sum(Filled(desired, passes, done))
    ensures |desired| < 5000 ==> Sum(Filled(desired, passes, done)) < MAX_ADJUSTMENT + STEP
    ensures |desired| >= 5000 ==> passes == 0 && done == 1
    ensures |desired| >= 5000 ==> Sum(Filled(desired, passes, done)) <= |desired| * MIN_DEPOSIT + STEP
  {
    LastTurnAdds(desired, passes, done);
    SumOfMinimums(desired);
    if !(passes == 0 && done == 1) {
      FilledMonotone(desired, 0, 0, passes, done - 1);
    }
  }

  // ---------- When the total stays within MAX_ADJUSTMENT ----------

  /** Some stage of the filling totals exactly `total`. */
  ghost predicate Hits(desired: seq<nat>, total: nat) {
    exists passes, done :: 0 < done <= |desired| && Sum(Filled(desired, passes, done)) == total
  }

  /** Filling stops at the first stage that reaches MAX_ADJUSTMENT, so it stays within exactly
      if there is a stage that meets it. */
  lemma WithinIffHits(desired: seq<nat>, passes: nat, done: nat)
    requires StopsAt(desired, passes, done)
    ensures Sum(Filled(desired, passes, done)) <= MAX_ADJUSTMENT <==> Hits(desired, MAX_ADJUSTMENT)
  {
    if p: nat, d: nat :| 0 < d <= |desired| && Sum(Filled(desired, p, d)) == MAX_ADJUSTMENT {
      if p < passes || (p == passes && d < done) {
        FilledMonotone(desired, p, d, passes, done - 1);
      } else {
        FilledMonotone(desired, passes, done, p, d);
      }
    }
  }

  /** From 5000 receivers on the cap is kept only by 5000 of them, the first of which wants no
      more than the minimum. */
  lemma WithinForMany(desired: seq<nat>, passes: nat, done: nat)
    requires StopsAt(desired, passes, done) && |desired| >= 5000
    ensures Sum(Filled(desired, passes, done)) <= MAX_ADJUSTMENT <==> |desired| == 5000 && desired[0] <= MIN_DEPOSIT
  {
    CapKept(desired, passes, done);
    SumOfMinimums(desired);
    var before, after := Filled(desired, 0, 0), Filled(desired, 0, 1);
    assert after == before[0 := after[0]];
    assert after[0] == Turn(desired[0], Level(desired[0], 0));
    SumUpdate(before, 0, after[0]);
  }

  /** The least number of turns that bring `n` minimum deposits to the cap, if all add in full. */
  function TurnsToCap(n: nat): nat
    requires n < 5000
  {
    (10_099 - 2 * n) / 100
  }

  /** The amount that nobody exceeds when all of `n` receivers take turns until the cap. */
  function TopLevel(n: nat): int
    requires 0 < n < 5000
  {
    MIN_DEPOSIT + STEP * ((TurnsToCap(n) - 1) / n + 1)
  }

  lemma TurnsToCapExact(n: nat)
    requires n < 5000
    ensures var turns := TurnsToCap(n);
            turns > 0 && 2 * n + 100 * (turns - 1) < 10_000 <= 2 * n + 100 * turns
    ensures 2 * n + 100 * TurnsToCap(n) <= 10_000 <==> n % 50 == 0
  {
  }

  /** What `n` minimum deposits and some full turns come to. */
  function Raised(n: nat, turns: nat): nat {
    (2 * n + 100 * turns) * GRT
  }

  lemma RaisedOrder(n: nat, t: nat)
    ensures Raised(n, t) <= MAX_ADJUSTMENT <==> 2 * n + 100 * t <= 10_000
    ensures Raised(n, t) >= MAX_ADJUSTMENT <==> 2 * n + 100 * t >= 10_000
    ensures Raised(n, t + 1) == Raised(n, t) + STEP
    ensures Raised(n, 0) == n * MIN_DEPOSIT
  {
  }

  lemma LevelAtFullTurn(desired: nat, turns: nat)
    requires desired >= MIN_DEPOSIT + STEP * (turns + 1)
    ensures Level(desired, turns + 1) == Level(desired, turns) + STEP
  {
    LevelClosedForm(desired, turns);
    assert STEP * (turns + 1) == STEP * turns + STEP;
  }

  lemma FullTurn(desired: seq<nat>, passes: nat, done: nat)
    requires 0 < done <= |desired| && desired[done - 1] >= MIN_DEPOSIT + STEP * (passes + 1)
    ensures Sum(Filled(desired, passes, done)) == Sum(Filled(desired, passes, done - 1)) + STEP
  {
    var before, after, j := Filled(desired, passes, done - 1), Filled(desired, passes, done), done - 1;
    LevelAtFullTurn(desired[j], passes);
    assert after == before[j := after[j]];
    SumUpdate(before, j, after[j]);
  }

  lemma {:induction false} EvenSum(desired: seq<nat>, turns: nat, passes: nat, done: nat)
    requires done <= |desired| && turns == |desired| * passes + done
    requires forall j :: 0 <= j < |desired| ==> desired[j] >= MIN_DEPOSIT + STEP * (passes + 1)
    ensures Sum(Filled(desired, passes, done)) == Raised(|desired|, turns)
    decreases passes, done
  {
    if done > 0 {
      EvenSum(desired, turns - 1, passes, done - 1);
      FullTurn(desired, passes, done);
      RaisedOrder(|desired|, turns - 1);
    } else if passes > 0 {
      assert |desired| * passes == |desired| * (passes - 1) + |desired|;
      assert STEP * passes <= STEP * (passes + 1);
      EvenSum(desired, turns, passes - 1, |desired|);
      assert Filled(desired, passes, 0) == Filled(desired, passes - 1, |desired|);
    } else {
      SumOfMinimums(desired);
      RaisedOrder(|desired|, 0);
    }
  }

  /** The turns parted into full passes and the rest of a last one. */
  lemma Parted(turns: nat, n: nat) returns (passes: nat, done: nat)
    requires turns > 0 && n > 0
    ensures passes == (turns - 1) / n && 0 < done <= n && turns == n * passes + done
  {
    passes, done := (turns - 1) / n, (turns - 1) % n + 1;
  }

  /** When every receiver wants more than it can get, the filling stops after just the turns
      that the cap needs. */
  lemma EvenStop(desired: seq<nat>, passes: nat, done: nat)
    requires 0 < done <= |desired| < 5000 && TurnsToCap(|desired|) == |desired| * passes + done
    requires forall j :: 0 <= j < |desired| ==> desired[j] >= MIN_DEPOSIT + STEP * (passes + 1)
    ensures StopsAt(desired, passes, done)
    ensures Sum(Filled(desired, passes, done)) == Raised(|desired|, TurnsToCap(|desired|))
  {
    var turns := TurnsToCap(|desired|);
    EvenSum(desired, turns - 1, passes, done - 1);
    EvenSum(desired, turns, passes, done);
    TurnsToCapExact(|desired|);
    RaisedOrder(|desired|, turns - 1);
    RaisedOrder(|desired|, turns);
  }

  /** Then the cap is kept exactly if 50 divides their number. */
  lemma WithinWhenAllWantMore(desired: seq<nat>, passes: nat, done: nat)
    requires StopsAt(desired, passes, done) && |desired| < 5000
    requires forall j :: 0 <= j < |desired| ==> desired[j] >= TopLevel(|desired|)
    ensures Sum(Filled(desired, passes, done)) <= MAX_ADJUSTMENT <==> |desired| % 50 == 0
  {
    TurnsToCapExact(|desired|);
    var p, d := Parted(TurnsToCap(|desired|), |desired|);
    EvenStop(desired, p, d);
    StopUnique(desired, passes, done, p, d);
    RaisedOrder(|desired|, TurnsToCap(|desired|));
  }
}
