/**
 When the simulator buys, and how much. A candle first buys ladder levels, then
 sets the recovery anchor, then buys recovery legs; and once everything is sold
 the next candle starts a new cycle. Prices are compared by cross-multiplication,
 and an amount is the least of what is planned and what may still be spent.
 */
module SimulatorEntries {
  import opened Reals
  import Recovery
  import opened Simulator
  import opened SimulatorLaws
  import opened SimulatorFloors
  import opened SimulatorExits

  /* ---- The conditions and the amounts ---- */

  /** There is cash, and room below the risk budget when there is one. */
  predicate CanSpend(c: Config, s: State) {
    s.cash > 0.0 && (c.riskBudget.Some? ==> Cost(s) < c.riskBudget.value)
  }

  predicate Least(x: real, planned: real, c: Config, s: State) {
    && x <= planned && x <= s.cash && (c.riskBudget.Some? ==> x <= c.riskBudget.value - Cost(s))
    && (x == planned || x == s.cash || (c.riskBudget.Some? && x == c.riskBudget.value - Cost(s)))
  }

  /** The first buy waits for the dip, or for a close at the cycle's price; a later one for its fall and its confirmation. */
  predicate LadderDue(c: Config, s: State, k: Candle) {
    && !s.recoveryMode && s.entries < c.maxEntries && CanSpend(c, s)
    && if s.entries == 0 then if c.dipEntry then k.dipSignal else k.close <= s.cycleEntryPrice
       else
         var percent := if s.entries + 1 >= c.independentFrom then c.subTriggerPercent else c.priceDeviationPercent;
         100.0 * k.close <= s.lastEntryPrice * (100.0 - percent) && (c.dcaRequiresConfirmation ==> k.bounceSignal)
  }

  predicate EntersLevel(c: Config, s: State, trade: Trade) {
    && trade.level == s.entries + 1
    && trade.kind == (if trade.level >= c.independentFrom then IndependentEntry else ParentEntry)
    && trade.quoteAmount > 0.0 && Least(trade.quoteAmount, Allocation(c, s.entries), c, s)
  }

  /** A leg below the anchor by its step, while recovery is on and legs remain. */
  predicate RecoveryDue(c: Config, s: State, k: Candle) {
    && s.anchorPrice.Some? && c.recovery.enabled && s.recoveryCount < c.recovery.maxOrders && CanSpend(c, s)
    && 100.0 * k.close <= s.anchorPrice.value * (100.0 - c.recovery.steps[s.recoveryCount])
    && (c.dcaRequiresConfirmation ==> k.bounceSignal)
  }

  predicate EntersLeg(c: Config, s: State, trade: Trade)
    requires s.recoveryCount < c.recovery.maxOrders
  {
    && trade.kind.RecoveryEntry? && trade.level == c.maxEntries + s.recoveryCount + 1
    && trade.quoteAmount > 0.0
    && Least(trade.quoteAmount, Recovery.Multiple(Allocation(c, 0), c.recovery.multipliers[s.recoveryCount]), c, s)
  }

  /* ---- Allocations ---- */

  lemma AllocationPositive(c: Config, n: nat)
    ensures Allocation(c, n) > 0.0
  {
    PowerPositive(c.volumeMultiplier, n);
    WeightPositive(c, c.maxEntries);
    if c.baseOrder.None? {
      ProductPositive(c.initialCapital, Power(c.volumeMultiplier, n));
      QuotientPositive(c.initialCapital * Power(c.volumeMultiplier, n), TotalWeight(c, c.maxEntries));
    } else {
      ProductPositive(c.baseOrder.value, EntryMultiplier(c, n));
    }
  }

  /** What a recovery leg multiplies is the first level's allocation. */
  lemma RecoveryBaseIsFirst(c: Config)
    ensures RecoveryBase(c) == Allocation(c, 0)
  {
    assert Power(c.volumeMultiplier, 0) == 1.0;
  }

  function Allocated(c: Config, levels: nat): real {
    if levels == 0 then 0.0 else Allocated(c, levels - 1) + Allocation(c, levels - 1)
  }

  lemma {:induction false} AllocatedIs(c: Config, levels: nat)
    requires c.baseOrder.None?
    ensures Allocated(c, levels) * TotalWeight(c, c.maxEntries) == c.initialCapital * TotalWeight(c, levels)
  {
    if levels > 0 {
      AllocatedIs(c, levels - 1);
      WeightPositive(c, c.maxEntries);
      var total, weight := TotalWeight(c, c.maxEntries), Power(c.volumeMultiplier, levels - 1);
      QuotientTimes(c.initialCapital * weight, total);
      Distribute(Allocated(c, levels - 1), Allocation(c, levels - 1), total);
      Distribute(TotalWeight(c, levels - 1), weight, c.initialCapital);
    }
  }

  /** Without a base order the levels share out the whole capital, each the multiplier times the one before. */
  lemma LevelsShareTheCapital(c: Config)
    requires c.baseOrder.None?
    ensures Allocated(c, c.maxEntries) == c.initialCapital
    ensures forall n: nat :: Allocation(c, n + 1) == Allocation(c, n) * c.volumeMultiplier
  {
    WeightPositive(c, c.maxEntries);
    AllocatedIs(c, c.maxEntries);
    CancelFactor(Allocated(c, c.maxEntries), c.initialCapital, TotalWeight(c, c.maxEntries));
    forall n: nat ensures Allocation(c, n + 1) == Allocation(c, n) * c.volumeMultiplier {
      Associate(c.initialCapital, Power(c.volumeMultiplier, n), c.volumeMultiplier);
    }
  }

  /* ---- The ladder ---- */

  lemma FeeLeavesSome(c: Config, spend: real)
    ensures spend - spend * FeeRate(c) > 0.0 <==> spend > 0.0
  {
    Distribute(1.0, FeeRate(c), spend);
    CompareProducts(spend, 0.0, 1.0 - FeeRate(c));
  }

  lemma PricePositive(c: Config, price: real)
    requires price > 0.0
    ensures price * BuyFactor(c) > 0.0
  {
    ProductPositive(price, BuyFactor(c));
  }

  lemma SpendIsLeast(c: Config, s: State)
    requires Inv(c, s)
    ensures Least(LadderSpend(c, s), Allocation(c, s.entries), c, s)
    ensures LadderSpend(c, s) > 0.0 <==> CanSpend(c, s)
  {
    AllocationPositive(c, s.entries);
    hide Allocation, Holdings, Ladders, Logged, LotCosts;
  }

  lemma TriggerIs(price: real, percent: real, close: real)
    ensures close <= price * (1.0 - percent / 100.0) <==> 100.0 * close <= price * (100.0 - percent)
  {
    Associate(price, 1.0 - percent / 100.0, 100.0);
  }

  lemma BlockedIs(c: Config, s: State, k: Candle)
    ensures LadderBlocked(c, s, k) <==>
            || k.close > LadderTrigger(c, s) || (s.entries > 0 && c.dcaRequiresConfirmation && !k.bounceSignal)
            || LadderSpend(c, s) <= 0.0
  {
    hide *;
    var spend := LadderSpend(c, s);
    var afterFee, price := spend - spend * FeeRate(c), k.close * BuyFactor(c);
    assert price > 0.0 by { PricePositive(c, k.close); }
    assert afterFee > 0.0 <==> spend > 0.0 by { FeeLeavesSome(c, spend); }
    BlockedOnlyBy(c, s, k, afterFee, price);
  }

  lemma BlockedOnlyBy(c: Config, s: State, k: Candle, afterFee: real, price: real)
    requires afterFee == LadderSpend(c, s) - LadderSpend(c, s) * FeeRate(c) && price == k.close * BuyFactor(c)
    ensures LadderBlocked(c, s, k) <==>
            || k.close > LadderTrigger(c, s) || (s.entries > 0 && c.dcaRequiresConfirmation && !k.bounceSignal)
            || LadderSpend(c, s) <= 0.0 || afterFee <= 0.0 || price <= 0.0
  {
    hide LadderSpend, LadderTrigger, FeeRate, BuyFactor;
  }

  lemma BlockedExactly(c: Config, s: State, k: Candle)
    requires Inv(c, s) && !s.recoveryMode && s.entries < c.maxEntries
    requires s.entries == 0 && c.dipEntry ==> k.dipSignal && s.cycleEntryPrice == k.close
    ensures LadderBlocked(c, s, k) <==> !LadderDue(c, s, k)
  {
    hide Inv, LadderBlocked, LadderSpend, CanSpend, Least, Settings;
    SpendIsLeast(c, s);
    BlockedIs(c, s, k);
    TriggerIs(s.lastEntryPrice, if s.entries + 1 >= c.independentFrom then c.subTriggerPercent else c.priceDeviationPercent, k.close);
  }

  lemma ArmIs(c: Config, s: State, k: Candle)
    requires Inv(c, s) && !s.awaitingNewCycle
    ensures var a := Arm(c, s, k);
            && Inv(c, a) && !a.awaitingNewCycle && a == s.(cycleEntryPrice := a.cycleEntryPrice)
            && (s.entries == 0 && c.dipEntry ==> a.cycleEntryPrice == k.close)
            && (LadderDue(c, a, k) <==> LadderDue(c, s, k))
  {
    InvIgnoresPrices(c, s, Arm(c, s, k));
    hide Inv;
  }

  lemma LadderBuyIs(c: Config, s: State, k: Candle)
    requires Inv(c, s) && !LadderBlocked(c, s, k)
    ensures var t := LadderBuy(c, s, k);
            && |t.trades| == |s.trades| + 1 && t.trades[..|s.trades|] == s.trades && EntersLevel(c, s, t.trades[|s.trades|])
            && t.entries == s.entries + 1 && t.lastEntryPrice == k.close
  {
    SpendIsLeast(c, s);
    hide Inv, LadderSpend, LadderTrigger, Allocation, Least, Bought, FeeRate;
  }

  /** What the ladder loop does from a state s to a state t. */
  ghost predicate LadderFollows(c: Config, s: State, t: State, k: Candle) {
    && (t.entries > s.entries <==> LadderDue(c, s, k)) && !LadderDue(c, t, k)
    && t.entries >= s.entries && |t.trades| == |s.trades| + (t.entries - s.entries)
    && t.trades[..|s.trades|] == s.trades
    && (LadderDue(c, s, k) ==> EntersLevel(c, s, t.trades[|s.trades|]))
    && t.lastEntryPrice == (if LadderDue(c, s, k) then k.close else s.lastEntryPrice)
  }

  /** The ladder buys exactly while its next level is due, each level with the least of its allocation and what may be spent. */
  lemma {:induction false} LadderBuysExactly(c: Config, s: State, k: Candle)
    requires Inv(c, s) && !s.awaitingNewCycle
    ensures LadderFollows(c, s, Ladder(c, s, k), k)
    decreases c.maxEntries - s.entries
  {
    hide Inv, LadderBlocked, EntersLevel, CanSpend, LadderBuy;
    var a := Arm(c, s, k);
    ArmIs(c, s, k);
    if s.recoveryMode || s.entries >= c.maxEntries || (s.entries == 0 && c.dipEntry && !k.dipSignal) {
    } else {
      BlockedExactly(c, a, k);
      if !LadderBlocked(c, a, k) {
        var b := LadderBuy(c, a, k);
        LadderBuyIs(c, a, k);
        LadderBuyInv(c, a, k);
        LadderBuysExactly(c, b, k);
        EntersArmed(c, s, a, b.trades[|s.trades|]);
        assert Ladder(c, s, k).trades[|s.trades|] == b.trades[|s.trades|];
      }
    }
  }

  lemma EntersArmed(c: Config, s: State, a: State, trade: Trade)
    requires a == s.(cycleEntryPrice := a.cycleEntryPrice)
    ensures EntersLevel(c, a, trade) <==> EntersLevel(c, s, trade)
  {
  }

  /* ---- Recovery ---- */

  /** A candle's anchor is the average of the first independent level while it is held; otherwise the anchor stays. */
  lemma AnchorIs(c: Config, s: State)
    requires Inv(c, s)
    ensures var t := SetAnchor(c, s);
            var held := exists i :: 0 <= i < |s.lots| && s.lots[i].level == c.independentFrom;
            && t == s.(anchorPrice := t.anchorPrice)
            && (s.recoveryMode || !c.recovery.enabled || !held ==> t == s)
            && forall i :: 0 <= i < |s.lots| && s.lots[i].level == c.independentFrom && !s.recoveryMode && c.recovery.enabled ==>
                 t.anchorPrice.Some? && t.anchorPrice.value * s.lots[i].quantity == s.lots[i].cost
  {
    hide Solvent, Logged, FindLot;
    var i := FindLot(s.lots, c.independentFrom);
    FoundFirst(s.lots, c.independentFrom);
    if i < |s.lots| {
      QuotientTimes(s.lots[i].cost, s.lots[i].quantity);
      assert forall j :: 0 <= j < |s.lots| && s.lots[j].level == c.independentFrom ==> j == i;
    }
  }

  lemma {:induction false} FoundFirst(lots: seq<Lot>, level: nat)
    ensures forall i :: 0 <= i < FindLot(lots, level) ==> lots[i].level != level
  {
    if lots != [] && lots[0].level != level { FoundFirst(lots[1..], level); }
  }

  lemma LegIs(c: Config, s: State)
    requires Inv(c, s) && s.anchorPrice.Some?
    ensures RecoveryLeg(c, s).Leg? <==> c.recovery.enabled && s.recoveryCount < c.recovery.maxOrders && CanSpend(c, s)
    ensures RecoveryLeg(c, s).Leg? ==>
              && RecoveryLeg(c, s).triggerPrice == s.anchorPrice.value * (1.0 - c.recovery.steps[s.recoveryCount] / 100.0)
              && RecoveryLeg(c, s).quoteAmount > 0.0 && RecoverySpend(c, s) > 0.0
              && Least(RecoverySpend(c, s), Recovery.Multiple(Allocation(c, 0), c.recovery.multipliers[s.recoveryCount]), c, s)
  {
    hide RecoveryBase, Allocation, Logged, LotCosts, Holdings, Recovery.NextLeg;
    RecoveryBaseIsFirst(c);
    AllocationPositive(c, 0);
    var remaining := Min(RiskRemaining(c, s), s.cash);
    Recovery.NextLegIs(c.recovery, s.recoveryCount, s.anchorPrice.value, RecoveryBase(c), remaining);
    if s.recoveryCount < c.recovery.maxOrders {
      assert Recovery.Multiple(Allocation(c, 0), c.recovery.multipliers[s.recoveryCount]) > 0.0 by {
        ProductPositive(Allocation(c, 0), c.recovery.multipliers[s.recoveryCount]);
      }
    }
    hide Recovery.Multiple;
  }

  lemma RecoveryFiresExactly(c: Config, s: State, k: Candle)
    requires Inv(c, s)
    ensures RecoveryFires(c, s, k) <==> RecoveryDue(c, s, k)
  {
    if s.anchorPrice.Some? {
      LegIs(c, s);
      PricePositive(c, k.close);
      if RecoveryLeg(c, s).Leg? {
        FeeLeavesSome(c, RecoverySpend(c, s));
        TriggerIs(s.anchorPrice.value, c.recovery.steps[s.recoveryCount], k.close);
      }
    }
    hide Inv, RecoverySpend, RecoveryLeg, FeeRate, BuyFactor, CanSpend, Least;
  }

  /** What the recovery loop does from a state s to a state t. */
  ghost predicate RecoveryFollows(c: Config, s: State, t: State, k: Candle) {
    && (t.recoveryCount > s.recoveryCount <==> RecoveryDue(c, s, k)) && !RecoveryDue(c, t, k)
    && t.recoveryCount >= s.recoveryCount && |t.trades| == |s.trades| + (t.recoveryCount - s.recoveryCount)
    && t.trades[..|s.trades|] == s.trades
    && t.recoveryMode == (s.recoveryMode || RecoveryDue(c, s, k))
    && (RecoveryDue(c, s, k) ==> EntersLeg(c, s, t.trades[|s.trades|]))
  }

  /** Recovery buys exactly while its next leg is due, each with the least of its multiple and what may be spent. */
  lemma {:induction false} RecoveryBuysExactly(c: Config, s: State, k: Candle)
    requires Inv(c, s) && !s.awaitingNewCycle
    ensures RecoveryFollows(c, s, RecoveryBuys(c, s, k), k)
    decreases c.recovery.maxOrders - s.recoveryCount
  {
    hide Inv, RecoveryFires, RecoveryBuy;
    RecoveryFiresExactly(c, s, k);
    if RecoveryFires(c, s, k) {
      var b := RecoveryBuy(c, s, k);
      RecoveryBuyIs(c, s, k);
      RecoveryBuyInv(c, s, k);
      RecoveryBuysExactly(c, b, k);
      hide RecoveryDue, EntersLeg;
      assert RecoveryBuys(c, s, k).trades[|s.trades|] == b.trades[|s.trades|];
    }
  }

  lemma RecoveryBuyIs(c: Config, s: State, k: Candle)
    requires Inv(c, s) && RecoveryFires(c, s, k) && RecoveryDue(c, s, k)
    ensures var t := RecoveryBuy(c, s, k);
            && |t.trades| == |s.trades| + 1 && t.trades[..|s.trades|] == s.trades && EntersLeg(c, s, t.trades[|s.trades|])
            && t.recoveryCount == s.recoveryCount + 1 && t.recoveryMode
  {
    hide Inv, RecoverySpend, RecoveryLeg, FeeRate, CanSpend, Least, Bought, Allocation, Exposure, Recovery.Multiple;
    LegIs(c, s);
    assert RecoveryLeg(c, s).Leg?;
    hide RecoveryFires, RecoveryDue;
    var t, spend := RecoveryBuy(c, s, k), RecoverySpend(c, s);
    assert t.trades == s.trades + [EntryTrade(c, RecoveryEntry, c.maxEntries + s.recoveryCount + 1, spend, k.close)];
  }

  /* ---- Every candle of every run ---- */

  /** What a candle of a run buys: first the ladder, and then recovery with the anchor that the ladder left. */
  lemma RunEntersExactly(c: Config, candles: seq<Candle>, n: nat)
    requires n < |candles|
    ensures var s, k := Run(c, candles, n), candles[n];
            var b := BeginCandle(c, s, k);
            var l := Ladder(c, b, k);
            LadderFollows(c, b, l, k) && RecoveryFollows(c, SetAnchor(c, l), Buying(c, s, k), k)
  {
    hide Inv, Run, Ladder, RecoveryBuys, LadderFollows, RecoveryFollows;
    var s, k := Run(c, candles, n), candles[n];
    StateKeepsAccount(c, candles, n);
    BeginCandleInv(c, s, k);
    var b := BeginCandle(c, s, k);
    LadderBuysExactly(c, b, k);
    LadderInv(c, b, k);
    SetAnchorInv(c, Ladder(c, b, k));
    RecoveryBuysExactly(c, SetAnchor(c, Ladder(c, b, k)), k);
  }
}
