/** Target balances: the step ladder climbed by `next_balance`. */
module Ladder {
  import opened Common

  const GRT: nat := 1_000_000_000_000_000_000
  const MIN_DEPOSIT: nat := 2 * GRT
  const MAX_ADJUSTMENT: nat := 10_000 * GRT

  newtype u32 = x: int | 0 <= x < 0x1_0000_0000

  /** The highest rung that a u32 holds: the next one, 10,000 further up, does not fit. */
  const LAST_RUNG: nat := 4_294_966_384

  /** The ladder, stated without climbing it: powers of two up to 16384, then every 10,000. */
  predicate IsRung(n: nat) {
    || n in {2, 4, 8, 16, 32, 64, 128, 256, 512, 1024, 2048, 4096, 8192, 16384}
    || (n > 16384 && (n - 16384) % 10_000 == 0)
  }

  /** The debt at which a balance of `rung` GRT is considered full. */
  function Capacity(rung: nat, fillFactor: real): real {
    (rung * GRT) as real * fillFactor
  }

  /** `rung` is the lowest rung whose capacity exceeds `debt`. */
  ghost predicate IsLeastRung(debt: nat, fillFactor: real, rung: nat) {
    && IsRung(rung)
    && debt as real < Capacity(rung, fillFactor)
    && forall m: nat :: IsRung(m) && m < rung ==> Capacity(m, fillFactor) <= debt as real
  }

  function SaturatingDouble(n: u32): u32 {
    if n as int * 2 >= 0x1_0000_0000 then 0xffff_ffff else n * 2
  }

  /** No rung lies strictly between a rung and the step the loop takes from it. */
  lemma NoRungBetween(n: nat, m: nat)
    requires IsRung(n) && IsRung(m) && m > n
    ensures m >= Min(2 * n, n + 10_000)
    ensures IsRung(Min(2 * n, n + 10_000))
  {
  }

  lemma FullBelowStep(debt: nat, fillFactor: real, n: nat)
    requires IsRung(n) && Capacity(n, fillFactor) <= debt as real
    requires forall m: nat :: IsRung(m) && m < n ==> Capacity(m, fillFactor) <= debt as real
    ensures forall m: nat :: IsRung(m) && m < Min(2 * n, n + 10_000) ==> Capacity(m, fillFactor) <= debt as real
  {
    forall m: nat | IsRung(m) && m < Min(2 * n, n + 10_000) ensures Capacity(m, fillFactor) <= debt as real {
      if m > n { NoRungBetween(n, m); }
    }
  }

  /** Climbing from a rung below which every rung is full ends at the least rung with room. */
  ghost function Climb(debt: nat, fillFactor: real, n: nat): (rung: nat)
    requires 0.0 < fillFactor && debt as real < Capacity(LAST_RUNG, fillFactor)
    requires IsRung(n) && n <= LAST_RUNG
    requires forall m: nat :: IsRung(m) && m < n ==> Capacity(m, fillFactor) <= debt as real
    ensures IsLeastRung(debt, fillFactor, rung) && rung <= LAST_RUNG
    decreases LAST_RUNG - n
  {
    if debt as real < Capacity(n, fillFactor) then n
    else
      NoRungBetween(n, LAST_RUNG);
      FullBelowStep(debt, fillFactor, n);
      Climb(debt, fillFactor, Min(2 * n, n + 10_000))
  }

  lemma LeastRungUnique(debt: nat, fillFactor: real, r1: nat, r2: nat)
    requires IsLeastRung(debt, fillFactor, r1) && IsLeastRung(debt, fillFactor, r2)
    ensures r1 == r2
  {
  }

  ghost function LeastRung(debt: nat, fillFactor: real): (rung: nat)
    requires 0.0 < fillFactor && debt as real < Capacity(LAST_RUNG, fillFactor)
    ensures IsLeastRung(debt, fillFactor, rung) && 2 <= rung <= LAST_RUNG
  {
    Climb(debt, fillFactor, 2)
  }

  /** The target balance of a debt. */
  ghost function Target(debt: nat, fillFactor: real): nat
    requires 0.0 < fillFactor && debt as real < Capacity(LAST_RUNG, fillFactor)
  {
    LeastRung(debt, fillFactor) * GRT
  }

  /** The target in its own terms: a rung in wei whose share under the fill factor exceeds the
      debt, no share of a lower rung doing so. */
  ghost predicate Reaches(debt: nat, fillFactor: real, target: nat) {
    exists rung: nat ::
      && IsRung(rung) && target == rung * GRT
      && debt as real < (rung * GRT) as real * fillFactor
      && forall m: nat :: IsRung(m) && m < rung ==> (m * GRT) as real * fillFactor <= debt as real
  }

  lemma LeastRungReaches(debt: nat, fillFactor: real, rung: nat)
    requires IsLeastRung(debt, fillFactor, rung)
    ensures Reaches(debt, fillFactor, rung * GRT)
  {
    forall m: nat | IsRung(m) && m < rung ensures (m * GRT) as real * fillFactor <= debt as real {
      assert Capacity(m, fillFactor) <= debt as real;
    }
    assert debt as real < Capacity(rung, fillFactor);
  }

  method NextBalance(debt: nat, fillFactor: real) returns (target: nat)
    requires 0.0 < fillFactor <= 1.0
    // Beyond this debt the source's u32 arithmetic overflows.
    requires debt as real < Capacity(LAST_RUNG, fillFactor)
    ensures target == Target(debt, fillFactor)
    ensures Reaches(debt, fillFactor, target)
  {
    hide Reaches;
    var nextRound: u32 := 2;
    while debt as real >= Capacity(nextRound as nat, fillFactor)
      invariant IsRung(nextRound as nat) && nextRound as nat <= LAST_RUNG
      invariant forall m: nat :: IsRung(m) && m < nextRound as nat ==> Capacity(m, fillFactor) <= debt as real
      decreases LAST_RUNG - nextRound as nat
    {
      ghost var n := nextRound as nat;
      assert n < LAST_RUNG;
      NoRungBetween(n, LAST_RUNG);
      FullBelowStep(debt, fillFactor, n);
      var stepped := nextRound + 10_000;
      var doubled := SaturatingDouble(nextRound);
      nextRound := if doubled < stepped then doubled else stepped;
    }
    target := nextRound as nat * GRT;
    LeastRungUnique(debt, fillFactor, nextRound as nat, LeastRung(debt, fillFactor));
    LeastRungReaches(debt, fillFactor, LeastRung(debt, fillFactor));
  }

  lemma Scale(x: real, y: real, f: real)
    requires f > 0.0
    ensures x <= y ==> x * f <= y * f
    ensures x < y ==> x * f < y * f
  {
  }

  lemma LeastRungMonotone(debt1: nat, debt2: nat, f1: real, f2: real, r1: nat, r2: nat)
    requires 0.0 < f2 <= f1 && debt1 <= debt2
    requires IsLeastRung(debt1, f1, r1) && IsLeastRung(debt2, f2, r2)
    ensures r1 <= r2
  {
  }

  /** More debt never lowers the target, and a higher fill factor never raises it. */
  lemma TargetMonotone(debt1: nat, debt2: nat, f1: real, f2: real)
    requires 0.0 < f1 <= 1.0 && 0.0 < f2 <= 1.0
    requires debt1 <= debt2 && f2 <= f1
    requires debt1 as real < Capacity(LAST_RUNG, f1) && debt2 as real < Capacity(LAST_RUNG, f2)
    ensures Target(debt1, f1) <= Target(debt2, f2)
  {
    LeastRungMonotone(debt1, debt2, f1, f2, LeastRung(debt1, f1), LeastRung(debt2, f2));
  }

  lemma RungBelow(rung: nat) returns (below: nat)
    requires IsRung(rung) && rung > 2
    ensures IsRung(below) && below < rung
    ensures rung <= 2 * below && rung <= below + 10_000
  {
    below := if rung <= 16384 then rung / 2 else rung - 10_000;
  }

  lemma RungHolds(debt: nat, f: real, rung: nat, quotient: real)
    requires f > 0.0 && quotient * f == debt as real
    ensures debt as real < Capacity(rung, f) <==> quotient < (rung * GRT) as real
  {
  }

  lemma QuotientAtLeast(debt: nat, f: real, quotient: real)
    requires 0.0 < f <= 1.0 && quotient * f == debt as real
    ensures debt as real <= quotient
  {
    Scale(quotient, 0.0, f);
    if quotient > 0.0 { Scale(f, 1.0, quotient); }
  }

  lemma RungGap(rung: nat, below: nat, quotient: real)
    requires rung <= 2 * below && rung <= below + 10_000 && (below * GRT) as real <= quotient
    ensures (rung * GRT) as real <= 2.0 * quotient
    ensures (rung * GRT) as real <= quotient + MAX_ADJUSTMENT as real
  {
  }

  /** With `quotient` the debt over the fill factor: the target exceeds it, and above the first
      rung it does so neither twofold nor by more than one step of 10,000 GRT. */
  lemma TargetBounds(debt: nat, f: real, quotient: real)
    requires 0.0 < f <= 1.0 && debt as real < Capacity(LAST_RUNG, f)
    requires quotient * f == debt as real
    ensures debt as real <= quotient < Target(debt, f) as real
    ensures Target(debt, f) > MIN_DEPOSIT ==>
              && Target(debt, f) as real <= 2.0 * quotient
              && Target(debt, f) as real <= quotient + MAX_ADJUSTMENT as real
  {
    var rung := LeastRung(debt, f);
    QuotientAtLeast(debt, f, quotient);
    RungHolds(debt, f, rung, quotient);
    if rung > 2 {
      var below := RungBelow(rung);
      RungHolds(debt, f, below, quotient);
      RungGap(rung, below, quotient);
    }
  }
}
