/**
 When the simulator sells. The exits of a candle, decided on what is held after
 its buys: the stop-loss first, then in recovery mode the whole basket, and
 otherwise the parent and every lot at its own target. Prices are compared with
 averages by cross-multiplication, and amounts are those of the holdings.
 */
module SimulatorExits {
  import opened Reals
  import opened Simulator
  import opened SimulatorLaws
  import opened SimulatorFloors

  function Coins(s: State): real {
    s.parentQuantity + LotQuantities(s.lots)
  }

  function Cost(s: State): real {
    s.parentCost + LotCosts(s.lots)
  }

  predicate Flat(s: State) {
    s.parentQuantity == 0.0 && s.parentCost == 0.0 && s.lots == []
  }

  /** Out of recovery, with no legs counted and no anchor. */
  predicate Recovered(s: State) {
    !s.recoveryMode && s.recoveryCount == 0 && s.anchorPrice.None?
  }

  predicate SameRecovery(s: State, t: State) {
    t.recoveryMode == s.recoveryMode && t.recoveryCount == s.recoveryCount && t.anchorPrice == s.anchorPrice
  }

  /* ---- The conditions ---- */

  /** The close is p percent or more below the basket's average. */
  predicate AtStop(c: Config, s: State, k: Candle) {
    c.stopLossPercent.Some? && Coins(s) > 0.0 && k.close * Coins(s) <= Cost(s) * (1.0 - c.stopLossPercent.value / 100.0)
  }

  predicate BasketAtTarget(c: Config, s: State, k: Candle) {
    Coins(s) > 0.0 && k.close * Coins(s) >= Cost(s) * (1.0 + c.recovery.takeProfitPercent / 100.0)
  }

  predicate ParentAtTarget(c: Config, s: State, k: Candle)
    requires c.takeProfitPercent.Some?
  {
    s.parentQuantity > 0.0 && k.close * s.parentQuantity >= s.parentCost * (1.0 + c.takeProfitPercent.value / 100.0)
  }

  predicate LotAtTarget(c: Config, lot: Lot, k: Candle) {
    lot.quantity > 0.0 && k.close * lot.quantity >= lot.cost * (1.0 + c.subTakeProfitPercent / 100.0)
  }

  lemma PercentOf(cost: real, percent: real)
    requires cost > 0.0 && percent > 0.0
    ensures cost * (1.0 + percent / 100.0) > cost > cost * (1.0 - percent / 100.0)
    ensures percent < 100.0 ==> cost * (1.0 - percent / 100.0) > 0.0
  {
    ProductPositive(cost, percent / 100.0);
    if percent < 100.0 { ProductPositive(cost, 1.0 - percent / 100.0); }
  }

  /** A stop lies below the average, at a price that can be reached; the targets of the basket and of the parent lie above. */
  lemma LimitsLieAroundTheAverage(c: Config, s: State, k: Candle)
    requires Coins(s) > 0.0 && Cost(s) > 0.0
    ensures AtStop(c, s, k) ==> k.close * Coins(s) < Cost(s)
    ensures c.stopLossPercent.Some? ==> exists low: Candle :: AtStop(c, s, low)
    ensures BasketAtTarget(c, s, k) ==> k.close * Coins(s) > Cost(s)
    ensures c.takeProfitPercent.Some? && s.parentCost > 0.0 && ParentAtTarget(c, s, k) ==> k.close * s.parentQuantity > s.parentCost
  {
    hide AtStop, BasketAtTarget, ParentAtTarget, Coins, Cost;
    BasketTargetIsAbove(c, s, k);
    if c.takeProfitPercent.Some? && s.parentCost > 0.0 { ParentTargetIsAbove(c, s, k); }
    StopIsBelow(c, s, k);
    if c.stopLossPercent.Some? {
      PercentOf(Cost(s), c.stopLossPercent.value);
      StopIsReached(c, s);
    }
  }

  lemma StopIsBelow(c: Config, s: State, k: Candle)
    requires Cost(s) > 0.0
    ensures AtStop(c, s, k) ==> k.close * Coins(s) < Cost(s)
  {
    hide Coins, Cost;
    if c.stopLossPercent.Some? { PercentOf(Cost(s), c.stopLossPercent.value); }
  }

  lemma BasketTargetIsAbove(c: Config, s: State, k: Candle)
    requires Cost(s) > 0.0
    ensures BasketAtTarget(c, s, k) ==> k.close * Coins(s) > Cost(s)
  {
    hide Coins, Cost;
    PercentOf(Cost(s), c.recovery.takeProfitPercent);
  }

  lemma ParentTargetIsAbove(c: Config, s: State, k: Candle)
    requires c.takeProfitPercent.Some? && s.parentCost > 0.0
    ensures ParentAtTarget(c, s, k) ==> k.close * s.parentQuantity > s.parentCost
  {
    PercentOf(s.parentCost, c.takeProfitPercent.value);
  }

  lemma StopIsReached(c: Config, s: State)
    requires Coins(s) > 0.0 && c.stopLossPercent.Some? && Cost(s) * (1.0 - c.stopLossPercent.value / 100.0) > 0.0
    ensures exists low: Candle :: AtStop(c, s, low)
  {
    hide Coins, Cost, Settings;
    var coins, limit := Coins(s), Cost(s) * (1.0 - c.stopLossPercent.value / 100.0);
    QuotientPositive(limit, coins);
    QuotientTimes(limit, coins);
    var low: Candle := Bar(limit / coins, false, false);
    assert AtStop(c, s, low);
  }

  /** The lots that stay, in their order. */
  function Kept(c: Config, lots: seq<Lot>, k: Candle): seq<Lot> {
    if lots == [] then []
    else Kept(c, lots[..|lots| - 1], k) + (if LotAtTarget(c, lots[|lots| - 1], k) then [] else [lots[|lots| - 1]])
  }

  lemma StopIsAtStop(c: Config, s: State, k: Candle)
    ensures StopLossHit(c, s, k) <==> AtStop(c, s, k)
  {
    if c.stopLossPercent.Some? && Coins(s) > 0.0 {
      ScaledQuotient(k.close, Cost(s), Coins(s), 1.0 - c.stopLossPercent.value / 100.0);
    }
  }

  lemma RecoveryIsAtTarget(c: Config, s: State, k: Candle)
    ensures RecoveryTakeProfitHit(c, s, k) <==> BasketAtTarget(c, s, k)
  {
    if Coins(s) > 0.0 { ScaledQuotient(k.close, Cost(s), Coins(s), 1.0 + c.recovery.takeProfitPercent / 100.0); }
  }

  lemma ParentIsAtTarget(c: Config, s: State, k: Candle)
    requires c.takeProfitPercent.Some?
    ensures ParentTakeProfitHit(c, s, k) <==> ParentAtTarget(c, s, k)
  {
    if s.parentQuantity > 0.0 { ScaledQuotient(k.close, s.parentCost, s.parentQuantity, 1.0 + c.takeProfitPercent.value / 100.0); }
  }

  lemma LotIsAtTarget(c: Config, lot: Lot, k: Candle)
    ensures LotTakeProfitHit(c, lot, k) <==> LotAtTarget(c, lot, k)
  {
    if lot.quantity > 0.0 { ScaledQuotient(k.close, lot.cost, lot.quantity, 1.0 + c.subTakeProfitPercent / 100.0); }
  }

  /* ---- What the exits leave ---- */

  /** Selling the basket leaves nothing, and counts no stop-loss by itself. */
  lemma BasketSold(c: Config, s: State, level: nat, price: real)
    requires Inv(c, s) && price > 0.0
    ensures Flat(SellBasket(c, s, level, price)) && SellBasket(c, s, level, price).stopLossCount == s.stopLossCount
  {
    SellBasketInv(c, s, level, price);
    LotsKeepCount(c, s, price);
    hide SellLots, Inv;
    assert Holdings(SellBasket(c, s, level, price)) by { InvHolds(c, SellBasket(c, s, level, price)); }
  }

  lemma InvHolds(c: Config, s: State)
    requires Inv(c, s)
    ensures Holdings(s)
  {
  }

  lemma {:induction false} LotsKeepCount(c: Config, s: State, price: real)
    ensures SellLots(c, s, price).stopLossCount == s.stopLossCount && SellLots(c, s, price).lots == []
    decreases |s.lots|
  {
    if s.lots != [] { LotsKeepCount(c, SellLot(c, s, |s.lots| - 1, price), price); }
  }

  lemma LotSold(c: Config, s: State, i: nat, price: real)
    requires i < |s.lots|
    ensures var t := SellLot(c, s, i, price);
            && t.lots[..i] == s.lots[..i] && t.lots[i..] == s.lots[i + 1..] && i <= |t.lots|
            && t.parentQuantity == s.parentQuantity && t.parentCost == s.parentCost && t.stopLossCount == s.stopLossCount
            && SameRecovery(s, t)
  {
    hide GrossProceeds, ExitTrade, NetProceeds, LotCosts;
  }

  lemma KeptStep(c: Config, lots: seq<Lot>, k: Candle, i: nat)
    requires 0 < i <= |lots|
    ensures Kept(c, lots[..i], k) == Kept(c, lots[..i - 1], k) + (if LotAtTarget(c, lots[i - 1], k) then [] else [lots[i - 1]])
    ensures lots[i - 1..] == [lots[i - 1]] + lots[i..]
  {
    assert lots[..i][..i - 1] == lots[..i - 1];
  }

  /** The scan from the end sells exactly the lots at their target and keeps the order of the others. */
  lemma {:induction false} ScanKeeps(c: Config, s: State, k: Candle, i: nat)
    requires i <= |s.lots|
    ensures var t := LotTakeProfits(c, s, k, i);
            && t.lots == Kept(c, s.lots[..i], k) + s.lots[i..]
            && t.parentQuantity == s.parentQuantity && t.parentCost == s.parentCost && t.stopLossCount == s.stopLossCount
            && SameRecovery(s, t)
    decreases i
  {
    hide LotTakeProfitHit, LotAtTarget, SellLot;
    if i == 0 {
      assert s.lots[..0] == [] && s.lots[0..] == s.lots;
    } else {
      LotIsAtTarget(c, s.lots[i - 1], k);
      LotSold(c, s, i - 1, k.close);
      KeptStep(c, s.lots, k, i);
      hide Kept;
      ScanKeeps(c, if LotTakeProfitHit(c, s.lots[i - 1], k) then SellLot(c, s, i - 1, k.close) else s, k, i - 1);
    }
  }

  /** What the exits of a candle do with what is held after its buys. */
  predicate ExitsFollow(c: Config, s: State, t: State, k: Candle) {
    if AtStop(c, s, k) then Flat(t) && Recovered(t) && t.stopLossCount == s.stopLossCount + 1
    else
      && t.stopLossCount == s.stopLossCount
      && if c.takeProfitPercent.None? then t == s
         else if s.recoveryMode then (if BasketAtTarget(c, s, k) then Flat(t) && Recovered(t) else t == s)
         else
           && (if ParentAtTarget(c, s, k) then t.parentQuantity == 0.0 && t.parentCost == 0.0
               else t.parentQuantity == s.parentQuantity && t.parentCost == s.parentCost)
           && t.lots == Kept(c, s.lots, k) && SameRecovery(s, t)
  }

  lemma ExitsExactly(c: Config, s: State, k: Candle)
    requires Inv(c, s)
    ensures ExitsFollow(c, s, Exits(c, s, k), k)
  {
    hide Inv, StopLossHit, AtStop, SellBasket, ParentLevel, BasketAtTarget, RecoveryTakeProfitHit, ParentTakeProfit, LotTakeProfits, Flat;
    StopIsAtStop(c, s, k);
    if StopLossHit(c, s, k) {
      BasketSold(c, s, ParentLevel(c, s.entries), k.close);
      RecoveryEnds(c, s, ParentLevel(c, s.entries), k.close);
      StopOutIs(c, s, k);
    } else if c.takeProfitPercent.Some? && s.recoveryMode {
      RecoveryIsAtTarget(c, s, k);
      BasketSold(c, s, c.maxEntries + s.recoveryCount, k.close);
      RecoveryEnds(c, s, c.maxEntries + s.recoveryCount, k.close);
    } else if c.takeProfitPercent.Some? {
      SingleExits(c, s, k);
    }
  }

  lemma StopOutIs(c: Config, s: State, k: Candle)
    requires Flat(SellBasket(c, s, ParentLevel(c, s.entries), k.close)) && Recovered(SellBasket(c, s, ParentLevel(c, s.entries), k.close))
    ensures Flat(StopOut(c, s, k)) && Recovered(StopOut(c, s, k)) && StopOut(c, s, k).stopLossCount == s.stopLossCount + 1
  {
    hide SellBasket;
  }

  lemma RecoveryEnds(c: Config, s: State, level: nat, price: real)
    ensures Recovered(SellBasket(c, s, level, price))
  {
    hide SellLots, SellParent;
  }

  lemma SingleExits(c: Config, s: State, k: Candle)
    requires c.takeProfitPercent.Some?
    ensures var t := ParentTakeProfit(c, s, k);
            var u := LotTakeProfits(c, t, k, |t.lots|);
            && u.stopLossCount == s.stopLossCount && u.lots == Kept(c, s.lots, k) && SameRecovery(s, u)
            && if ParentAtTarget(c, s, k) then u.parentQuantity == 0.0 && u.parentCost == 0.0
               else u.parentQuantity == s.parentQuantity && u.parentCost == s.parentCost
  {
    hide ParentTakeProfitHit, LotTakeProfits, Kept, NetProceeds, ExitTrade, ParentLevel;
    ParentIsAtTarget(c, s, k);
    var t := ParentTakeProfit(c, s, k);
    ScanKeeps(c, t, k, |t.lots|);
    assert t.lots[..|t.lots|] == t.lots && t.lots[|t.lots|..] == [];
  }

  /** The parent's exits among the trades from a place on are reported at a level. */
  predicate ReportedAt(trades: seq<Trade>, from: nat, level: nat) {
    forall n :: from <= n < |trades| && trades[n].kind.ParentExit? ==> trades[n].level == level
  }

  lemma {:induction false} LotsReport(c: Config, s: State, price: real, from: nat, level: nat)
    requires ReportedAt(s.trades, from, level)
    ensures ReportedAt(SellLots(c, s, price).trades, from, level)
    decreases |s.lots|
  {
    hide NetProceeds, GrossProceeds;
    if s.lots != [] { LotsReport(c, SellLot(c, s, |s.lots| - 1, price), price, from, level); }
  }

  lemma {:induction false} ScanReports(c: Config, s: State, k: Candle, i: nat, from: nat, level: nat)
    requires i <= |s.lots| && ReportedAt(s.trades, from, level)
    ensures ReportedAt(LotTakeProfits(c, s, k, i).trades, from, level)
    decreases i
  {
    hide LotTakeProfitHit, NetProceeds, GrossProceeds;
    if i > 0 {
      ScanReports(c, if LotTakeProfitHit(c, s.lots[i - 1], k) then SellLot(c, s, i - 1, k.close) else s, k, i - 1, from, level);
    }
  }

  /**
   The parent's exit is reported at the highest level the parent may have bought, and at least the first; the sale
   of a recovery basket at the last recovery leg's.
   */
  lemma ParentExitLevel(c: Config, s: State, k: Candle)
    ensures ReportedAt(Exits(c, s, k).trades, |s.trades|,
              if s.recoveryMode && !AtStop(c, s, k) then c.maxEntries + s.recoveryCount
              else if s.entries == 0 then 1 else if s.entries < c.independentFrom then s.entries else c.independentFrom - 1)
  {
    hide AtStop, StopLossHit, RecoveryTakeProfitHit, ParentTakeProfitHit, LotTakeProfits, SellLots, NetProceeds, GrossProceeds;
    StopIsAtStop(c, s, k);
    var level: nat := if s.recoveryMode && !AtStop(c, s, k) then c.maxEntries + s.recoveryCount else ParentLevel(c, s.entries);
    LotsReport(c, s, k.close, |s.trades|, level);
    var t := ParentTakeProfit(c, s, k);
    if !s.recoveryMode { ScanReports(c, t, k, |t.lots|, |s.trades|, level); }
  }

  /* ---- Every candle of every run ---- */

  /** The state a candle's exits are decided on. */
  function BeforeExits(c: Config, candles: seq<Candle>, n: nat): State
    requires n < |candles|
  {
    Buying(c, Run(c, candles, n), candles[n])
  }

  lemma RunExitsExactly(c: Config, candles: seq<Candle>, n: nat)
    requires n < |candles|
    ensures var s := BeforeExits(c, candles, n); ExitsFollow(c, s, Exits(c, s, candles[n]), candles[n])
  {
    hide Inv, Run, Buying, ExitsFollow, Exits;
    StateKeepsAccount(c, candles, n);
    BuyingInv(c, Run(c, candles, n), candles[n]);
    ExitsExactly(c, BeforeExits(c, candles, n), candles[n]);
  }

  /**
   A candle's exits count a stop-loss and leave nothing held if and only if a stop is set and the candle closes at
   or below it, for what is held after the buys; otherwise no stop-loss is counted.
   */
  lemma StopLossFiresExactly(c: Config, candles: seq<Candle>, n: nat)
    requires n < |candles|
    ensures var s := BeforeExits(c, candles, n);
            var k, t, coins, cost := candles[n], Exits(c, s, candles[n]), Coins(s), Cost(s);
            var below := c.stopLossPercent.Some? && coins > 0.0 && k.close * coins <= cost * (1.0 - c.stopLossPercent.value / 100.0);
            && (t.stopLossCount == s.stopLossCount + 1 && Flat(t) <==> below)
            && (!below ==> t.stopLossCount == s.stopLossCount)
  {
    hide Exits, BeforeExits, Coins, Cost, Flat, Kept, AtStop, BasketAtTarget, ParentAtTarget;
    var s := BeforeExits(c, candles, n);
    RunExitsExactly(c, candles, n);
    AtStopIs(c, s, candles[n]);
  }

  lemma AtStopIs(c: Config, s: State, k: Candle)
    ensures var coins, cost := Coins(s), Cost(s);
            AtStop(c, s, k) <==>
              c.stopLossPercent.Some? && coins > 0.0 && k.close * coins <= cost * (1.0 - c.stopLossPercent.value / 100.0)
  {
    hide Coins, Cost;
  }

  /** So a candle that closes at or below the stop of what it holds ends flat. */
  lemma StoppedCandleEndsFlat(c: Config, candles: seq<Candle>, n: nat)
    requires n < |candles| && AtStop(c, BeforeExits(c, candles, n), candles[n])
    ensures Flat(Run(c, candles, n + 1))
  {
    RunExitsExactly(c, candles, n);
    hide Exits, Buying, AtStop;
  }

  lemma {:induction false} LadderKeepsCount(c: Config, s: State, k: Candle)
    ensures Ladder(c, s, k).stopLossCount == s.stopLossCount
    decreases c.maxEntries - s.entries
  {
    hide LadderBlocked, LadderSpend;
    if !(s.recoveryMode || s.entries >= c.maxEntries || (s.entries == 0 && c.dipEntry && !k.dipSignal) || LadderBlocked(c, Arm(c, s, k), k)) {
      LadderKeepsCount(c, LadderBuy(c, Arm(c, s, k), k), k);
    }
  }

  lemma {:induction false} RecoveryKeepsCount(c: Config, s: State, k: Candle)
    ensures RecoveryBuys(c, s, k).stopLossCount == s.stopLossCount
    decreases c.recovery.maxOrders - s.recoveryCount
  {
    hide RecoverySpend;
    if RecoveryFires(c, s, k) { RecoveryKeepsCount(c, RecoveryBuy(c, s, k), k); }
  }

  /** Over a run the stop-losses counted are the candles that closed at or below the stop. */
  lemma StopLossesCounted(c: Config, candles: seq<Candle>, n: nat)
    requires n < |candles|
    ensures Run(c, candles, n + 1).stopLossCount
         == Run(c, candles, n).stopLossCount + (if AtStop(c, BeforeExits(c, candles, n), candles[n]) then 1 else 0)
  {
    RunExitsExactly(c, candles, n);
    var s, k := Run(c, candles, n), candles[n];
    LadderKeepsCount(c, BeginCandle(c, s, k), k);
    RecoveryKeepsCount(c, SetAnchor(c, Ladder(c, BeginCandle(c, s, k), k)), k);
    hide Exits, AtStop, Ladder, RecoveryBuys;
  }
}
