/**
 The fixed-budget order plan, and the two other places that size the same
 ladder: the live runner here, the backtest simulator in `SimulatorLadder`.
 */
module RiskBudget {
  import opened Reals

  const MAX_DCA_LEVELS := 200

  /** Number.EPSILON, the gap between 1 and the next double. */
  const EPSILON: real := 1.0 / 4503599627370496.0

  datatype PlanInput = PlanInput(
    riskBudgetQuote: real,
    baseOrderQuote: real,
    maxDcaOrders: nat,
    dcaStepPercent: real,
    dcaMultiplier: real,
    dcaMultipliers: seq<real>,
    takeProfitPercent: real,
    independentFromLevel: nat)

  datatype PlannedLevel = PlannedLevel(level: nat, quoteAmount: real, triggerDropPercent: real, independent: bool)

  datatype PlanResult = Plan(levels: seq<PlannedLevel>) | InvalidPlan

  predicate Validates(i: PlanInput) {
    && i.riskBudgetQuote > 0.0
    && i.baseOrderQuote > 0.0
    && i.maxDcaOrders <= MAX_DCA_LEVELS
    && i.dcaStepPercent > 0.0
    && i.dcaMultiplier >= 1.0
    && (forall k :: 0 <= k < |i.dcaMultipliers| ==> i.dcaMultipliers[k] > 0.0)
    && i.takeProfitPercent > 0.0
    && 2 <= i.independentFromLevel <= i.maxDcaOrders + 2
  }

  /** The part of the validation that sizing depends on. */
  predicate Sized(i: PlanInput) {
    && i.riskBudgetQuote > 0.0 && i.baseOrderQuote > 0.0 && i.dcaMultiplier >= 1.0
    && forall k :: 0 <= k < |i.dcaMultipliers| ==> i.dcaMultipliers[k] > 0.0
  }

  function MultiplierForLevel(i: PlanInput, level: nat): real {
    if level <= 1 then 1.0
    else if level - 2 < |i.dcaMultipliers| && i.dcaMultipliers[level - 2] > 0.0 then i.dcaMultipliers[level - 2]
    else Power(i.dcaMultiplier, level - 1)
  }

  function RawAmount(i: PlanInput, level: nat): real {
    i.baseOrderQuote * MultiplierForLevel(i, level)
  }

  /** Math.round((value + EPSILON) * 10^8) / 10^8 */
  function Round8(value: real): real {
    ((value + EPSILON) * 100000000.0 + 0.5).Floor as real / 100000000.0
  }

  /** The same with four digits. */
  function Round4(value: real): real {
    ((value + EPSILON) * 10000.0 + 0.5).Floor as real / 10000.0
  }

  /* ---- The plan, level by level, before rounding ---- */

  /** What the levels below this one have used of the budget. */
  function Allocated(i: PlanInput, level: nat): real
    decreases level, 0
  {
    if level <= 1 then 0.0 else Allocated(i, level - 1) + Amount(i, level - 1)
  }

  /** The level's order: its own size, or what is left of the budget. */
  function Amount(i: PlanInput, level: nat): real
    decreases level, 1
  {
    Min(RawAmount(i, level), Max(i.riskBudgetQuote - Allocated(i, level), 0.0))
  }

  function TriggerDrop(i: PlanInput, level: nat): real {
    i.dcaStepPercent * (level as real - 1.0)
  }

  function Rounded(i: PlanInput, level: nat, quoteAmount: real): PlannedLevel {
    PlannedLevel(level, Round8(quoteAmount), Round4(TriggerDrop(i, level)), level >= i.independentFromLevel)
  }

  /** Levels are planned while the budget still has something for them. */
  function PlannedLevels(i: PlanInput, from: nat): seq<PlannedLevel>
    requires 1 <= from <= i.maxDcaOrders + 2
    decreases i.maxDcaOrders + 2 - from
  {
    if from == i.maxDcaOrders + 2 || i.riskBudgetQuote - Allocated(i, from) <= 0.0 then []
    else [Rounded(i, from, Amount(i, from))] + PlannedLevels(i, from + 1)
  }

  method BuildPlan(i: PlanInput) returns (result: PlanResult)
    ensures result == if Validates(i) then Plan(PlannedLevels(i, 1)) else InvalidPlan
    ensures result.Plan? ==> result.levels != []
  {
    hide Round8, Round4, MultiplierForLevel;
    if !Validates(i) {
      return InvalidPlan;
    }
    var levels: seq<PlannedLevel> := [];
    var used := 0.0;
    var level := 1;
    while level <= i.maxDcaOrders + 1
      invariant 1 <= level <= i.maxDcaOrders + 2
      invariant used == Allocated(i, level)
      invariant levels + PlannedLevels(i, level) == PlannedLevels(i, 1)
      invariant level > 1 ==> levels != []
    {
      PlanStep(i, level);
      var rawAmount := RawAmount(i, level);
      var remaining := i.riskBudgetQuote - used;
      if remaining <= 0.0 { break; }
      var quoteAmount := Min(rawAmount, remaining);
      levels := levels + [Rounded(i, level, quoteAmount)];
      used := used + quoteAmount;
      level := level + 1;
      if quoteAmount < rawAmount { break; }
    }
    if levels == [] { return InvalidPlan; }
    result := Plan(levels);
  }

  /** One round of the loop; a clipped amount leaves nothing for the next level. */
  lemma PlanStep(i: PlanInput, level: nat)
    requires 1 <= level <= i.maxDcaOrders + 1
    ensures i.riskBudgetQuote - Allocated(i, level) <= 0.0 ==> PlannedLevels(i, level) == []
    ensures i.riskBudgetQuote - Allocated(i, level) > 0.0 ==>
              && PlannedLevels(i, level) == [Rounded(i, level, Amount(i, level))] + PlannedLevels(i, level + 1)
              && Amount(i, level) == Min(RawAmount(i, level), i.riskBudgetQuote - Allocated(i, level))
              && Allocated(i, level + 1) == Allocated(i, level) + Amount(i, level)
              && (Amount(i, level) < RawAmount(i, level) ==> PlannedLevels(i, level + 1) == [])
  {
  }

  /* ---- Properties of the plan ---- */

  lemma MultiplierPositive(i: PlanInput, level: nat)
    requires Sized(i)
    ensures MultiplierForLevel(i, level) > 0.0
    ensures RawAmount(i, level) > 0.0
  {
    if level > 1 { PowerPositive(i.dcaMultiplier, level - 1); }
    ProductPositive(i.baseOrderQuote, MultiplierForLevel(i, level));
  }

  /** The unrounded plan never exceeds the budget, and stops short of it only by funding every level so far in full. */
  lemma {:induction false} AllocationWithinBudget(i: PlanInput, level: nat)
    requires Sized(i)
    ensures 0.0 <= Allocated(i, level) <= i.riskBudgetQuote
    ensures Allocated(i, level) < i.riskBudgetQuote ==>
              forall k: nat :: 1 <= k < level ==> Amount(i, k) == RawAmount(i, k)
  {
    if level > 1 {
      AllocationWithinBudget(i, level - 1);
      MultiplierPositive(i, level - 1);
    }
  }

  lemma {:induction false} AllocationPositive(i: PlanInput, level: nat)
    requires Sized(i) && level >= 2
    ensures Allocated(i, level) > 0.0
  {
    MultiplierPositive(i, level - 1);
    if level > 2 { AllocationPositive(i, level - 1); } else { assert Allocated(i, 1) == 0.0; }
  }

  /** Every planned level is listed under its own number, and its rounded size is within 1e-8 of the unrounded one. */
  lemma {:induction false} PlannedLevelsAreAmounts(i: PlanInput, from: nat, k: nat)
    requires Validates(i) && 1 <= from <= i.maxDcaOrders + 2 && k < |PlannedLevels(i, from)|
    ensures PlannedLevels(i, from)[k].level == from + k <= i.maxDcaOrders + 1
    ensures Amount(i, from + k) > 0.0
    ensures -0.00000001 < PlannedLevels(i, from)[k].quoteAmount - Amount(i, from + k) < 0.00000001
    ensures PlannedLevels(i, from)[k].independent <==> from + k >= i.independentFromLevel
    decreases k
  {
    if k == 0 {
      RoundError(Amount(i, from));
      MultiplierPositive(i, from);
    } else {
      PlannedLevelsAreAmounts(i, from + 1, k - 1);
    }
  }

  lemma RoundsToFour(value: real)
    ensures -0.00005 < Round4(value) - value <= 0.00005 + EPSILON
  {
    var scaled := (value + EPSILON) * 10000.0 + 0.5;
    var whole := scaled.Floor as real;
    assert scaled - 1.0 < whole <= scaled;
    assert Round4(value) * 10000.0 == whole;
  }

  lemma Round4Monotone(x: real, y: real)
    requires x <= y
    ensures Round4(x) <= Round4(y)
  {
    var low, high := (x + EPSILON) * 10000.0 + 0.5, (y + EPSILON) * 10000.0 + 0.5;
    assert low.Floor <= high.Floor;
    assert Round4(x) * 10000.0 == low.Floor as real && Round4(y) * 10000.0 == high.Floor as real;
  }

  /** n ladder steps, in percent. */
  function Steps(i: PlanInput, n: nat): real {
    i.dcaStepPercent * (n as real)
  }

  lemma StepsGrow(i: PlanInput, n: nat)
    requires i.dcaStepPercent > 0.0
    ensures 0.0 <= Steps(i, n) < Steps(i, n + 1)
  {
    Distribute(n as real, 1.0, i.dcaStepPercent);
    ProductNonNegative(i.dcaStepPercent, n as real);
  }

  lemma {:induction false} LevelIs(i: PlanInput, from: nat, k: nat)
    requires 1 <= from <= i.maxDcaOrders + 2 && k < |PlannedLevels(i, from)|
    ensures from + k <= i.maxDcaOrders + 1 && PlannedLevels(i, from)[k] == Rounded(i, from + k, Amount(i, from + k))
    decreases k
  {
    hide Rounded, Amount, Allocated;
    if k > 0 { LevelIs(i, from + 1, k - 1); }
  }

  lemma DropIs(i: PlanInput, k: nat)
    ensures TriggerDrop(i, k + 1) == Steps(i, k)
  {
    assert (k + 1) as real - 1.0 == k as real;
  }

  /**
   The drops of a valid plan: level k + 1 is listed k steps below the first, rounded to four decimals, and never
   above the one before it; the first is at the market and not independent, and there are at most 201.
   */
  lemma DropsAreSteps(i: PlanInput, k: nat)
    requires Validates(i) && k < |PlannedLevels(i, 1)|
    ensures var levels := PlannedLevels(i, 1);
            && -0.00005 < levels[k].triggerDropPercent - Steps(i, k) <= 0.00005 + EPSILON
            && (k == 0 ==> levels[k].triggerDropPercent == 0.0 && !levels[k].independent)
            && (k > 0 ==> levels[k - 1].triggerDropPercent <= levels[k].triggerDropPercent)
            && k <= 200
  {
    if k == 0 { assert Steps(i, k) == 0.0; }
    hide Round4, Round8, Amount, PlannedLevels, Steps, TriggerDrop;
    LevelIs(i, 1, k);
    DropIs(i, k);
    RoundsToFour(Steps(i, k));
    if k == 0 {
      RoundsToZero();
    } else {
      LevelIs(i, 1, k - 1);
      DropIs(i, k - 1);
      StepsGrow(i, k - 1);
      Round4Monotone(Steps(i, k - 1), Steps(i, k));
    }
  }

  lemma RoundsToZero()
    ensures Round4(0.0) == 0.0
  {
    var scaled := (0.0 + EPSILON) * 10000.0 + 0.5;
    assert 0.0 <= scaled < 1.0;
    assert scaled.Floor == 0;
  }

  lemma RoundError(value: real)
    ensures -0.00000001 < Round8(value) - value < 0.00000001
  {
    var scaled := (value + EPSILON) * 100000000.0 + 0.5;
    var whole := scaled.Floor as real;
    assert scaled - 1.0 < whole <= scaled;
    assert Round8(value) * 100000000.0 == whole;
  }

  /** Amounts with eight decimals are not changed by rounding. */
  lemma RoundExact(n: int)
    ensures Round8(n as real / 100000000.0) == n as real / 100000000.0
  {
    var scaled := (n as real / 100000000.0 + EPSILON) * 100000000.0 + 0.5;
    assert n as real <= scaled < n as real + 1.0;
    assert scaled.Floor == n;
  }

  function SumOfQuotes(levels: seq<PlannedLevel>): real {
    if levels == [] then 0.0 else levels[0].quoteAmount + SumOfQuotes(levels[1..])
  }

  /**
   The rounded plan, unlike the unrounded one, can exceed the budget: with a
   multiplier of 0.333333335 each of two buys is rounded up.
   */
  lemma RoundedPlanCanExceedBudget()
    ensures var i := PlanInput(1.66666667, 1.0, 2, 3.0, 1.0, [0.333333335, 0.333333335], 1.5, 4);
            Validates(i) && SumOfQuotes(PlannedLevels(i, 1)) > i.riskBudgetQuote + EPSILON
  {
    var i := PlanInput(1.66666667, 1.0, 2, 3.0, 1.0, [0.333333335, 0.333333335], 1.5, 4);
    assert Allocated(i, 1) == 0.0;
    assert Amount(i, 1) == 1.0;
    assert Allocated(i, 2) == 1.0;
    assert Amount(i, 2) == 0.333333335;
    assert Allocated(i, 3) == 1.333333335;
    assert Amount(i, 3) == 0.333333335;
    RoundExact(100000000);
    RoundsUp();
    PlanStep(i, 1);
    PlanStep(i, 2);
    PlanStep(i, 3);
    var l1, l2, l3 := Rounded(i, 1, Amount(i, 1)), Rounded(i, 2, Amount(i, 2)), Rounded(i, 3, Amount(i, 3));
    assert PlannedLevels(i, 4) == [];
    assert PlannedLevels(i, 1) == [l1, l2, l3];
    ThreeQuotes(l1, l2, l3);
  }

  predicate EightDecimals(x: real) {
    x == (x * 100000000.0).Floor as real / 100000000.0
  }

  lemma UnitsHaveEightDecimals(n: int)
    ensures EightDecimals(n as real / 100000000.0)
  {
    assert n as real / 100000000.0 * 100000000.0 == n as real;
  }

  lemma EightDecimalsAdd(x: real, y: real)
    requires EightDecimals(x) && EightDecimals(y)
    ensures EightDecimals(x + y) && EightDecimals(x - y)
  {
    var n, m := (x * 100000000.0).Floor, (y * 100000000.0).Floor;
    assert x == n as real / 100000000.0 && y == m as real / 100000000.0;
    UnitsHaveEightDecimals(n + m);
    UnitsHaveEightDecimals(n - m);
    hide EightDecimals;
    assert x + y == (n + m) as real / 100000000.0 && x - y == (n - m) as real / 100000000.0;
  }

  /** Budget and requested sizes have eight decimals, as a caller can tell before planning. */
  predicate EightDecimalTerms(i: PlanInput) {
    EightDecimals(i.riskBudgetQuote) && forall level :: 1 <= level <= i.maxDcaOrders + 1 ==> EightDecimals(RawAmount(i, level))
  }

  /** Then every planned amount has eight decimals too, the one that is clipped to the rest of the budget included. */
  lemma {:induction false} PlannedAmountHasEightDecimals(i: PlanInput, level: nat)
    requires EightDecimalTerms(i) && level <= i.maxDcaOrders + 2
    ensures EightDecimals(Allocated(i, level))
    ensures 1 <= level <= i.maxDcaOrders + 1 ==> EightDecimals(Amount(i, level))
  {
    UnitsHaveEightDecimals(0);
    hide EightDecimals, RawAmount;
    if level > 1 {
      PlannedAmountHasEightDecimals(i, level - 1);
      EightDecimalsAdd(Allocated(i, level - 1), Amount(i, level - 1));
    }
    EightDecimalsAdd(i.riskBudgetQuote, Allocated(i, level));
  }

  /** So rounding changes none of them. */
  lemma {:induction false} EightDecimalPlanIsExact(i: PlanInput, from: nat, k: nat)
    requires Validates(i) && EightDecimalTerms(i)
    requires 1 <= from <= i.maxDcaOrders + 2 && k < |PlannedLevels(i, from)|
    ensures PlannedLevels(i, from)[k].quoteAmount == Amount(i, from + k)
    decreases k
  {
    hide Round8, Round4, EightDecimals, Allocated, Amount, EightDecimalTerms;
    if k == 0 {
      PlannedAmountHasEightDecimals(i, from);
      RoundsExactly(Amount(i, from));
    } else {
      EightDecimalPlanIsExact(i, from + 1, k - 1);
    }
  }

  /** And the rounded plan keeps to the budget. */
  lemma {:induction false} EightDecimalPlanWithinBudget(i: PlanInput, from: nat)
    requires Validates(i) && EightDecimalTerms(i) && 1 <= from <= i.maxDcaOrders + 2
    ensures Allocated(i, from) + SumOfQuotes(PlannedLevels(i, from)) <= i.riskBudgetQuote
    decreases i.maxDcaOrders + 2 - from
  {
    AllocationWithinBudget(i, from);
    if PlannedLevels(i, from) != [] {
      EightDecimalPlanIsExact(i, from, 0);
      PlanStep(i, from);
      EightDecimalPlanWithinBudget(i, from + 1);
      hide Rounded, Amount, Allocated, EightDecimalTerms, Validates;
      assert PlannedLevels(i, from)[1..] == PlannedLevels(i, from + 1);
    }
  }

  /** Half a unit of the eighth decimal, and the epsilon that is added before rounding. */
  const ROUNDING: real := 0.000000005 + EPSILON

  lemma RoundsUpBy(value: real)
    ensures Round8(value) <= value + ROUNDING
  {
    var scaled := (value + EPSILON) * 100000000.0 + 0.5;
    assert Round8(value) * 100000000.0 == scaled.Floor as real <= scaled;
  }

  /** Whatever its terms, a rounded plan exceeds the budget by at most one rounding a level. */
  lemma {:induction false} RoundedPlanOvershoot(i: PlanInput, from: nat)
    requires Validates(i) && 1 <= from <= i.maxDcaOrders + 2
    ensures Allocated(i, from) + SumOfQuotes(PlannedLevels(i, from))
         <= i.riskBudgetQuote + ROUNDING * (|PlannedLevels(i, from)| as real)
    decreases i.maxDcaOrders + 2 - from
  {
    hide Round8;
    AllocationWithinBudget(i, from);
    if PlannedLevels(i, from) == [] {
      assert ROUNDING * (0 as real) == 0.0;
    } else {
      PlanStep(i, from);
      RoundsUpBy(Amount(i, from));
      RoundedPlanOvershoot(i, from + 1);
      hide Amount, Allocated, Validates;
      assert PlannedLevels(i, from)[1..] == PlannedLevels(i, from + 1);
      OneMoreRounding(|PlannedLevels(i, from + 1)|);
    }
  }

  lemma OneMoreRounding(n: nat)
    ensures ROUNDING * ((n + 1) as real) == ROUNDING * (n as real) + ROUNDING
  {
  }

  lemma RoundsExactly(x: real)
    requires EightDecimals(x)
    ensures Round8(x) == x
  {
    RoundExact((x * 100000000.0).Floor);
  }

  lemma RoundsUp()
    ensures Round8(0.333333335) == 0.33333334
  {
    var up := (0.333333335 + EPSILON) * 100000000.0 + 0.5;
    assert 33333334.0 <= up < 33333335.0;
    assert up.Floor == 33333334;
  }

  lemma ThreeQuotes(l1: PlannedLevel, l2: PlannedLevel, l3: PlannedLevel)
    ensures SumOfQuotes([l1, l2, l3]) == l1.quoteAmount + l2.quoteAmount + l3.quoteAmount
  {
    assert [l3][1..] == [] && [l2, l3][1..] == [l3] && [l1, l2, l3][1..] == [l2, l3];
    assert SumOfQuotes([l3]) == l3.quoteAmount;
    assert SumOfQuotes([l2, l3]) == l2.quoteAmount + l3.quoteAmount;
  }

  /* ---- The live runner's sizing ---- */

  /** First buy of a cycle. */
  function RunnerEntryQuote(i: PlanInput): real {
    Min(i.baseOrderQuote, i.riskBudgetQuote)
  }

  /** The ladder buy after `dcaCount` earlier ones, with `exposure` already at risk; 0 when the runner holds. */
  function RunnerDcaQuote(i: PlanInput, dcaCount: nat, exposure: real): real {
    Min(RunnerRequest(i, dcaCount), Max(i.riskBudgetQuote - exposure, 0.0))
  }

  function RunnerRequest(i: PlanInput, dcaCount: nat): real {
    i.baseOrderQuote * RunnerMultiplier(i, dcaCount)
  }

  function RunnerMultiplier(i: PlanInput, dcaCount: nat): real {
    if dcaCount < |i.dcaMultipliers| && i.dcaMultipliers[dcaCount] > 0.0
    then i.dcaMultipliers[dcaCount]
    else Power(i.dcaMultiplier, dcaCount + 1)
  }

  /** What the runner has at risk after n buys that each cost what was planned. */
  function RunnerExposure(i: PlanInput, n: nat): real {
    if n == 0 then 0.0
    else RunnerExposure(i, n - 1) + (if n == 1 then RunnerEntryQuote(i) else RunnerDcaQuote(i, n - 2, RunnerExposure(i, n - 1)))
  }

  lemma RunnerRequestIsRaw(i: PlanInput, dcaCount: nat)
    ensures RunnerRequest(i, dcaCount) == RawAmount(i, dcaCount + 2)
  {
    var m := RunnerMultiplier(i, dcaCount);
    assert m == MultiplierForLevel(i, dcaCount + 2);
  }

  lemma RunnerLevel(i: PlanInput, dcaCount: nat, exposure: real)
    requires exposure == Allocated(i, dcaCount + 2)
    ensures RunnerDcaQuote(i, dcaCount, exposure) == Amount(i, dcaCount + 2)
  {
    RunnerRequestIsRaw(i, dcaCount);
  }

  lemma RunnerEntry(i: PlanInput)
    requires Validates(i)
    ensures RunnerEntryQuote(i) == Amount(i, 1)
  {
  }

  /** Level by level, the runner asks for exactly the planned, unrounded amount. */
  lemma {:induction false} RunnerFollowsPlan(i: PlanInput, level: nat)
    requires Validates(i) && level >= 1
    ensures RunnerExposure(i, level - 1) == Allocated(i, level)
    ensures level == 1 ==> RunnerEntryQuote(i) == Amount(i, level)
    ensures level > 1 ==> RunnerDcaQuote(i, level - 2, RunnerExposure(i, level - 1)) == Amount(i, level)
  {
    if level == 1 {
      RunnerEntry(i);
    } else {
      RunnerFollowsPlan(i, level - 1);
      RunnerLevel(i, level - 2, RunnerExposure(i, level - 1));
    }
  }

  /** The guard in front of paper orders. */
  predicate WithinBudget(planned: real, alreadyAllocated: real, riskBudget: real) {
    planned > 0.0 && alreadyAllocated + planned <= riskBudget + EPSILON
  }
}
