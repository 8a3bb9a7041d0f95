/**
 The ladder over whole runs: how far apart its buys are, and that until the
 first exit or recovery buy it spends exactly the risk-budget plan.

 Spacing bounds the last ladder price (`Spaced`); the plan is followed as
 long as the log holds nothing but ladder buys (`FollowsPlan`). Every other
 phase of a candle trades nothing or logs a trade of another kind
 (`OffLadder`), so it cannot disturb either.

 The amounts are those of `RiskBudget`, before rounding.
 */
module SimulatorLadder {
  import opened Reals
  import opened Simulator
  import opened SimulatorLaws
  import RiskBudget

  /* ---- Spacing ---- */

  /** Percent below the previous buy that triggers the given level. */
  function TriggerPercent(c: Config, level: nat): real {
    if level >= c.independentFrom then c.subTriggerPercent else c.priceDeviationPercent
  }

  /** Product of (1 - trigger/100) over levels 2 to level. */
  function Discount(c: Config, level: nat): real {
    if level <= 1 then 1.0 else Discount(c, level - 1) * (1.0 - TriggerPercent(c, level) / 100.0)
  }

  ghost predicate Spaced(c: Config, s: State) {
    s.entries >= 1 ==>
      s.firstEntryPrice > 0.0 && 0.0 < s.lastEntryPrice <= s.firstEntryPrice * Discount(c, s.entries)
  }

  /** A ladder buy happens no higher than the first buy of the cycle discounted by every trigger since. */
  lemma BuyIsDiscounted(c: Config, s: State, k: Candle)
    requires Spaced(c, s) && !LadderBlocked(c, s, k) && s.entries >= 1
    ensures k.close <= s.firstEntryPrice * Discount(c, s.entries + 1)
  {
    var d := 1.0 - TriggerPercent(c, s.entries + 1) / 100.0;
    assert k.close <= s.lastEntryPrice * d;
    if d < 0.0 { ProductPositive(s.lastEntryPrice, -d); }
    ProductMonotone(s.lastEntryPrice, s.firstEntryPrice * Discount(c, s.entries), d);
    Associate(s.firstEntryPrice, Discount(c, s.entries), d);
  }

  lemma SpacedBuy(c: Config, s: State, k: Candle)
    requires Spaced(c, s) && !LadderBlocked(c, s, k)
    ensures Spaced(c, LadderBuy(c, s, k))
  {
    if s.entries >= 1 { BuyIsDiscounted(c, s, k); }
  }

  /** With positive triggers a candle makes at most one ladder buy. */
  lemma OneLadderBuyPerCandle(c: Config, s: State, k: Candle)
    requires c.subTriggerPercent > 0.0
    ensures Ladder(c, s, k).entries <= s.entries + 1
    ensures |Ladder(c, s, k).trades| - |s.trades| == Ladder(c, s, k).entries - s.entries
  {
    var a := Arm(c, s, k);
    if !s.recoveryMode && s.entries < c.maxEntries && !(s.entries == 0 && c.dipEntry && !k.dipSignal) && !LadderBlocked(c, a, k) {
      var b := LadderBuy(c, a, k);
      assert b.entries == s.entries + 1 && b.lastEntryPrice == k.close && |b.trades| == |s.trades| + 1;
      NextTriggerIsLower(c, b, k);
    }
  }

  lemma NextTriggerIsLower(c: Config, s: State, k: Candle)
    requires c.subTriggerPercent > 0.0 && s.entries >= 1 && s.lastEntryPrice == k.close
    ensures LadderBlocked(c, s, k) && Ladder(c, s, k) == s
  {
    TriggerIsLower(c, s);
  }

  lemma TriggerIsLower(c: Config, s: State)
    requires c.subTriggerPercent > 0.0 && s.entries >= 1 && s.lastEntryPrice > 0.0
    ensures LadderTrigger(c, s) < s.lastEntryPrice
  {
    var t := TriggerPercent(c, s.entries + 1) / 100.0;
    ProductPositive(s.lastEntryPrice, t);
    assert s.lastEntryPrice * (1.0 - t) == s.lastEntryPrice - s.lastEntryPrice * t;
  }

  /* ---- Spending the plan ---- */

  /** The plan a configuration with a risk budget stands for. */
  function PlanOf(c: Config): (i: RiskBudget.PlanInput)
    requires c.riskBudget.Some?
    ensures RiskBudget.Sized(i)
  {
    RiskBudget.PlanInput(c.riskBudget.value, c.baseOrder.value, c.maxEntries - 1, c.priceDeviationPercent,
                         c.volumeMultiplier, c.volumeMultipliers, 1.0, c.independentFrom)
  }

  /** A risk budget is set and the account can pay for all of it. */
  predicate Funded(c: Config) {
    c.riskBudget.Some? && c.initialCapital >= c.riskBudget.value
  }

  predicate LadderTrade(t: Trade) {
    t.kind == ParentEntry || t.kind == IndependentEntry
  }

  ghost predicate OnlyLadder(trades: seq<Trade>) {
    forall n :: 0 <= n < |trades| ==> LadderTrade(trades[n])
  }

  ghost predicate FollowsPlan(c: Config, s: State)
    requires c.riskBudget.Some?
  {
    && |s.trades| == s.entries
    && Exposure(s) == RiskBudget.Allocated(PlanOf(c), s.entries + 1)
    && s.cash == c.initialCapital - Exposure(s)
    && forall n :: 0 <= n < |s.trades| ==> s.trades[n].quoteAmount == RiskBudget.Amount(PlanOf(c), n + 1)
  }

  ghost predicate Scheduled(c: Config, s: State) {
    Spaced(c, s) && (Funded(c) && OnlyLadder(s.trades) ==> FollowsPlan(c, s))
  }

  lemma AllocationIsRaw(c: Config, entries: nat)
    requires c.riskBudget.Some?
    ensures Allocation(c, entries) == RiskBudget.RawAmount(PlanOf(c), entries + 1)
  {
    assert EntryMultiplier(c, entries) == RiskBudget.MultiplierForLevel(PlanOf(c), entries + 1);
  }

  lemma SpendIsAmount(c: Config, s: State)
    requires Funded(c) && FollowsPlan(c, s)
    requires Exposure(s) <= c.riskBudget.value
    ensures LadderSpend(c, s) == RiskBudget.Amount(PlanOf(c), s.entries + 1)
  {
    AllocationIsRaw(c, s.entries);
  }

  lemma NotBlockedPays(c: Config, s: State, k: Candle)
    requires !LadderBlocked(c, s, k)
    ensures k.close * BuyFactor(c) > 0.0
  {
  }

  lemma LadderBuyFollowsPlan(c: Config, s: State, k: Candle)
    requires Funded(c) && FollowsPlan(c, s) && Exposure(s) <= c.riskBudget.value && !LadderBlocked(c, s, k)
    ensures FollowsPlan(c, LadderBuy(c, s, k))
  {
    hide LadderBlocked, LadderSpend, Funded, PlanOf, RiskBudget.Amount, LadderBuy, Exposure;
    SpendIsAmount(c, s);
    LadderBuyMoves(c, s, k);
  }

  lemma LadderBuyMoves(c: Config, s: State, k: Candle)
    requires !LadderBlocked(c, s, k)
    ensures var t, spend := LadderBuy(c, s, k), LadderSpend(c, s);
            && t.entries == s.entries + 1 && t.cash == s.cash - spend && Exposure(t) == Exposure(s) + spend
            && |t.trades| == |s.trades| + 1 && t.trades[..|s.trades|] == s.trades && t.trades[|s.trades|].quoteAmount == spend
  {
    hide LadderBlocked, LadderSpend, LadderTrigger, Bought, BuyFactor, FeeRate;
    NotBlockedPays(c, s, k);
    var spend := LadderSpend(c, s);
    LotCostsAppend(s.lots, Lot(s.entries + 1, Bought(c, spend, k.close), spend));
  }

  lemma LadderBuyScheduled(c: Config, s: State, k: Candle)
    requires Inv(c, s) && Scheduled(c, s) && !LadderBlocked(c, s, k)
    ensures Scheduled(c, LadderBuy(c, s, k))
  {
    SpacedBuy(c, s, k);
    var t := LadderBuy(c, s, k);
    if Funded(c) && OnlyLadder(t.trades) {
      forall n | 0 <= n < |s.trades| ensures LadderTrade(s.trades[n]) { assert t.trades[n] == s.trades[n]; }
      LadderBuyFollowsPlan(c, s, k);
    }
  }

  lemma {:induction false} LadderScheduled(c: Config, s: State, k: Candle)
    requires Inv(c, s) && Scheduled(c, s) && !s.awaitingNewCycle
    ensures Scheduled(c, Ladder(c, s, k))
    decreases c.maxEntries - s.entries
  {
    var a := Arm(c, s, k);
    InvIgnoresPrices(c, s, a);
    assert Scheduled(c, a);
    hide Inv, Scheduled, LadderBlocked;
    if s.recoveryMode || s.entries >= c.maxEntries {
    } else if s.entries == 0 && c.dipEntry && !k.dipSignal {
    } else if !LadderBlocked(c, a, k) {
      LadderBuyInv(c, a, k);
      LadderBuyScheduled(c, a, k);
      LadderScheduled(c, LadderBuy(c, a, k), k);
    }
  }

  /* ---- The other phases leave the ladder alone ---- */

  /** Either nothing was traded, or the log now holds a trade that is not a ladder buy. */
  ghost predicate OffLadder(s: State, t: State) {
    && t.entries == s.entries && t.lastEntryPrice == s.lastEntryPrice && t.firstEntryPrice == s.firstEntryPrice
    && s.trades <= t.trades
    && (|t.trades| > |s.trades| ==> !LadderTrade(t.trades[|s.trades|]))
    && (t.trades == s.trades ==> t.cash == s.cash && t.parentCost == s.parentCost && t.lots == s.lots)
  }

  lemma OffLadderThen(s: State, t: State, u: State)
    requires OffLadder(s, t) && OffLadder(t, u)
    ensures OffLadder(s, u)
  {
    if |t.trades| > |s.trades| { assert u.trades[|s.trades|] == t.trades[|s.trades|]; }
  }

  lemma OffLadderScheduled(c: Config, s: State, t: State)
    requires Scheduled(c, s) && OffLadder(s, t)
    ensures Scheduled(c, t)
  {
    if OnlyLadder(t.trades) {
      assert |t.trades| == |s.trades|;
      assert t.trades == s.trades;
    }
  }

  lemma {:induction false} RecoveryOffLadder(c: Config, s: State, k: Candle)
    ensures OffLadder(s, RecoveryBuys(c, s, k))
    decreases c.recovery.maxOrders - s.recoveryCount
  {
    if RecoveryFires(c, s, k) {
      RecoveryOffLadder(c, RecoveryBuy(c, s, k), k);
      OffLadderThen(s, RecoveryBuy(c, s, k), RecoveryBuys(c, s, k));
    }
  }

  lemma {:induction false} SellLotsOffLadder(c: Config, s: State, price: real)
    ensures OffLadder(s, SellLots(c, s, price))
    decreases |s.lots|
  {
    if s.lots != [] {
      var next := SellLot(c, s, |s.lots| - 1, price);
      SellLotsOffLadder(c, next, price);
      OffLadderThen(s, next, SellLots(c, s, price));
    }
  }

  lemma SellBasketOffLadder(c: Config, s: State, level: nat, price: real)
    ensures OffLadder(s, SellBasket(c, s, level, price))
  {
    SellLotsOffLadder(c, s, price);
    var sold := SellLots(c, s, price);
    OffLadderThen(s, sold, SellBasket(c, s, level, price));
  }

  lemma {:induction false} LotTakeProfitsOffLadder(c: Config, s: State, k: Candle, i: nat)
    requires i <= |s.lots|
    ensures OffLadder(s, LotTakeProfits(c, s, k, i))
    decreases i
  {
    if i > 0 {
      var next := if LotTakeProfitHit(c, s.lots[i - 1], k) then SellLot(c, s, i - 1, k.close) else s;
      LotTakeProfitsOffLadder(c, next, k, i - 1);
      OffLadderThen(s, next, LotTakeProfits(c, s, k, i));
    }
  }

  lemma ExitsOffLadder(c: Config, s: State, k: Candle)
    ensures OffLadder(s, Exits(c, s, k))
  {
    hide SellBasket, LotTakeProfits, StopLossHit, RecoveryTakeProfitHit, ParentTakeProfitHit, NetProceeds;
    if StopLossHit(c, s, k) {
      SellBasketOffLadder(c, s, ParentLevel(c, s.entries), k.close);
    } else if c.takeProfitPercent.Some? && s.recoveryMode {
      SellBasketOffLadder(c, s, c.maxEntries + s.recoveryCount, k.close);
    } else if c.takeProfitPercent.Some? {
      var t := ParentTakeProfit(c, s, k);
      LotTakeProfitsOffLadder(c, t, k, |t.lots|);
      OffLadderThen(s, t, LotTakeProfits(c, t, k, |t.lots|));
    }
  }

  /** A cycle that has bought and is flat again has exited, so the log no longer holds ladder buys only. */
  lemma BeginCandleScheduled(c: Config, s: State, k: Candle)
    requires Inv(c, s) && Scheduled(c, s)
    ensures Scheduled(c, BeginCandle(c, s, k))
  {
    if Funded(c) && OnlyLadder(s.trades) && s.awaitingNewCycle {
      RiskBudget.AllocationPositive(PlanOf(c), s.entries + 1);
      assert false;
    }
  }

  lemma TradingScheduled(c: Config, s: State, k: Candle)
    requires Inv(c, s) && Scheduled(c, s)
    ensures Scheduled(c, Trading(c, s, k))
  {
    var s1 := BeginCandle(c, s, k);
    BeginCandleInv(c, s, k);
    BeginCandleScheduled(c, s, k);
    var s2 := Ladder(c, s1, k);
    LadderScheduled(c, s1, k);
    var s3 := SetAnchor(c, s2);
    assert OffLadder(s2, s3);
    hide Inv, Scheduled, BeginCandle, Ladder, SetAnchor, RecoveryBuys, Exits, EndCycle, OffLadder;
    RecoveryOffLadder(c, s3, k);
    var s4 := RecoveryBuys(c, s3, k);
    ExitsOffLadder(c, s4, k);
    AfterLadderScheduled(c, s2, s3, s4, k);
  }

  lemma AfterLadderScheduled(c: Config, s2: State, s3: State, s4: State, k: Candle)
    requires Scheduled(c, s2) && OffLadder(s2, s3) && OffLadder(s3, s4) && OffLadder(s4, Exits(c, s4, k))
    ensures Scheduled(c, EndCycle(c, Exits(c, s4, k)))
  {
    var s5 := Exits(c, s4, k);
    OffLadderThen(s2, s3, s4);
    OffLadderThen(s2, s4, s5);
    OffLadderThen(s2, s5, EndCycle(c, s5));
    OffLadderScheduled(c, s2, EndCycle(c, s5));
  }

  lemma MarkScheduled(c: Config, s: State, t: State)
    requires Scheduled(c, s) && t.trades == s.trades && t.cash == s.cash && t.parentCost == s.parentCost && t.lots == s.lots
    requires t.entries == s.entries && t.lastEntryPrice == s.lastEntryPrice && t.firstEntryPrice == s.firstEntryPrice
    ensures Scheduled(c, t)
  {
    assert OffLadder(s, t);
    OffLadderScheduled(c, s, t);
  }
}
