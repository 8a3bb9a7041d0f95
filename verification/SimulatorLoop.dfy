/**
 The simulator as it runs: one variable holding its state, updated statement
 by statement in the source's order, with the source's loops.
 */
module SimulatorLoop {
  import opened Reals
  import opened Simulator

  datatype Outcome =
    | Rejected
    | Report(endingCapital: real, realizedPnl: real, returnPercent: real, maxDrawdownPercent: real, tradeCount: nat,
             cycleCount: nat, stopLossCount: nat, trades: seq<Trade>, equityPoints: seq<EquityPoint>)

  /** Pays for one ladder level. */
  method EnterLevel(c: Config, start: State, k: Candle) returns (s: State)
    requires !LadderBlocked(c, start, k)
    ensures s == LadderBuy(c, start, k)
  {
    s := start;
    var spend := LadderSpend(c, s);
    var feeQuote := spend * FeeRate(c);
    var quoteForAsset := spend - feeQuote;
    var executionPrice := k.close * BuyFactor(c);
    s := s.(exposures := s.exposures + [Exposure(s) + spend],
            firstEntryPrice := if s.entries == 0 then k.close else s.firstEntryPrice);
    s := s.(cash := s.cash - spend);
    var quantity := quoteForAsset / executionPrice;
    assert quantity == Bought(c, spend, k.close);
    var level := s.entries + 1;
    var independent := level >= c.independentFrom;
    if independent {
      s := s.(lots := s.lots + [Lot(level, quantity, spend)]);
    } else {
      s := s.(parentQuantity := s.parentQuantity + quantity, parentCost := s.parentCost + spend);
    }
    var trade := Trade(if independent then IndependentEntry else ParentEntry, level, executionPrice, quantity, spend, feeQuote, None);
    assert trade == EntryTrade(c, trade.kind, level, spend, k.close);
    s := s.(trades := s.trades + [trade]);
    s := s.(entries := s.entries + 1, lastEntryPrice := k.close, entryTrades := s.entryTrades + 1);
  }

  method BuyLadder(c: Config, start: State, k: Candle) returns (s: State)
    ensures s == Ladder(c, start, k)
  {
    s := start;
    while !s.recoveryMode && s.entries < c.maxEntries
      invariant Ladder(c, s, k) == Ladder(c, start, k)
      decreases c.maxEntries - s.entries
    {
      ghost var before := s;
      if s.entries == 0 && c.dipEntry {
        if !k.dipSignal { break; }
        s := s.(cycleEntryPrice := k.close);
      }
      LadderUnfolds(c, before, s, k);
      var blocked := LadderIsBlocked(c, s, k);
      if blocked { break; }
      s := EnterLevel(c, s, k);
    }
  }

  /** The checks before a ladder buy, in the source's order. */
  method LadderIsBlocked(c: Config, s: State, k: Candle) returns (blocked: bool)
    ensures blocked == LadderBlocked(c, s, k)
  {
    hide LadderSpend, FeeRate, BuyFactor;
    var nextLevel := s.entries + 1;
    var triggerPercent := if nextLevel >= c.independentFrom then c.subTriggerPercent else c.priceDeviationPercent;
    var triggerPrice := if s.entries == 0 then s.cycleEntryPrice else s.lastEntryPrice * (1.0 - triggerPercent / 100.0);
    if k.close > triggerPrice { return true; }
    if s.entries > 0 && c.dcaRequiresConfirmation && !k.bounceSignal { return true; }
    var spend := LadderSpend(c, s);
    if !(spend > 0.0) { return true; }
    var quoteForAsset := spend - spend * FeeRate(c);
    var executionPrice := k.close * BuyFactor(c);
    blocked := !(quoteForAsset > 0.0) || !(executionPrice > 0.0);
  }

  lemma LadderUnfolds(c: Config, s: State, a: State, k: Candle)
    requires !s.recoveryMode && s.entries < c.maxEntries
    requires s.entries == 0 && c.dipEntry ==> k.dipSignal
    requires a == Arm(c, s, k)
    ensures Ladder(c, s, k) == if LadderBlocked(c, a, k) then a else Ladder(c, LadderBuy(c, a, k), k)
  {
  }

  lemma FiringPays(c: Config, s: State, k: Candle)
    requires RecoveryFires(c, s, k)
    ensures s.anchorPrice.Some? && RecoveryLeg(c, s).Leg? && k.close * BuyFactor(c) > 0.0
  {
  }

  /** Pays for one recovery leg. */
  method EnterRecoveryLeg(c: Config, start: State, k: Candle) returns (s: State)
    requires RecoveryFires(c, start, k)
    ensures s == RecoveryBuy(c, start, k)
  {
    hide RecoveryFires, RecoverySpend, RecoveryLeg, BuyFactor, FeeRate;
    s := start;
    FiringPays(c, s, k);
    var spend := RecoverySpend(c, s);
    var feeQuote := spend * FeeRate(c);
    var quoteForAsset := spend - feeQuote;
    var executionPrice := k.close * BuyFactor(c);
    s := s.(exposures := s.exposures + [Exposure(s) + spend]);
    s := s.(cash := s.cash - spend);
    var quantity := quoteForAsset / executionPrice;
    assert quantity == Bought(c, spend, k.close);
    s := s.(parentQuantity := s.parentQuantity + quantity, parentCost := s.parentCost + spend);
    s := s.(recoveryMode := true, recoveryCount := s.recoveryCount + 1, entryTrades := s.entryTrades + 1);
    var trade := Trade(RecoveryEntry, c.maxEntries + s.recoveryCount, executionPrice, quantity, spend, feeQuote, None);
    assert trade == EntryTrade(c, RecoveryEntry, c.maxEntries + s.recoveryCount, spend, k.close);
    s := s.(trades := s.trades + [trade]);
  }

  method BuyRecovery(c: Config, start: State, k: Candle) returns (s: State)
    ensures s == RecoveryBuys(c, start, k)
  {
    s := start;
    while s.anchorPrice.Some? && c.recovery.enabled
      invariant RecoveryBuys(c, s, k) == RecoveryBuys(c, start, k)
      decreases c.recovery.maxOrders - s.recoveryCount
    {
      var fires := RecoveryWillFire(c, s, k);
      if !fires { break; }
      s := EnterRecoveryLeg(c, s, k);
    }
  }

  /** The checks before a recovery buy, in the source's order. */
  method RecoveryWillFire(c: Config, s: State, k: Candle) returns (fires: bool)
    requires s.anchorPrice.Some? && c.recovery.enabled
    ensures fires == RecoveryFires(c, s, k)
  {
    var leg := RecoveryLeg(c, s);
    if !leg.Leg? || k.close > leg.triggerPrice || leg.quoteAmount <= 0.0 { return false; }
    if c.dcaRequiresConfirmation && !k.bounceSignal { return false; }
    var spend := RecoverySpend(c, s);
    if !(spend > 0.0) { return false; }
    if !(spend - spend * FeeRate(c) > 0.0) || !(k.close * BuyFactor(c) > 0.0) { return false; }
    fires := true;
  }

  /** Credits one leg's proceeds and logs the exit; the caller removes the leg from the holdings. */
  method Sell(c: Config, start: State, quantity: real, costQuote: real, kind: TradeType, level: nat, price: real) returns (s: State)
    ensures s == start.(cash := start.cash + NetProceeds(c, quantity, price),
                        trades := start.trades + [ExitTrade(c, kind, level, quantity, costQuote, price)],
                        exits := start.exits + 1)
  {
    s := start;
    var executionPrice := price * SellFactor(c);
    var grossProceeds := quantity * executionPrice;
    var feeQuote := grossProceeds * FeeRate(c);
    var netProceeds := grossProceeds - feeQuote;
    assert netProceeds == NetProceeds(c, quantity, price);
    s := s.(cash := s.cash + netProceeds);
    var trade := Trade(kind, level, executionPrice, quantity, grossProceeds, feeQuote, Some(netProceeds - costQuote));
    assert trade == ExitTrade(c, kind, level, quantity, costQuote, price);
    s := s.(trades := s.trades + [trade]);
    s := s.(exits := s.exits + 1);
  }

  lemma SellsLast(c: Config, s: State, index: nat, price: real)
    requires index < |s.lots|
    ensures var lot := s.lots[index];
            SellLot(c, s.(lots := s.lots[..index + 1]), index, price)
            == s.(cash := s.cash + NetProceeds(c, lot.quantity, price), lots := s.lots[..index],
               trades := s.trades + [ExitTrade(c, IndependentExit, lot.level, lot.quantity, lot.cost, price)],
               exits := s.exits + 1, exposures := s.exposures + [s.parentCost + LotCosts(s.lots[..index])])
  {
    hide NetProceeds, ExitTrade, LotCosts;
    assert WithoutLot(s.lots[..index + 1], index) == s.lots[..index];
  }

  /** Sells every lot from the last to the first, clearing the list only at the end. */
  method SellAllLots(c: Config, start: State, price: real) returns (s: State)
    ensures s == SellLots(c, start, price)
  {
    hide NetProceeds, ExitTrade, LotCosts, SellLot;
    s := start;
    var index := |s.lots|;
    assert s.(lots := s.lots[..index]) == start;
    while index > 0
      invariant 0 <= index <= |s.lots| && s.lots == start.lots
      invariant SellLots(c, s.(lots := s.lots[..index]), price) == SellLots(c, start, price)
    {
      index := index - 1;
      SellsLast(c, s, index, price);
      var position := s.lots[index];
      s := Sell(c, s, position.quantity, position.cost, IndependentExit, position.level, price);
      s := s.(exposures := s.exposures + [s.parentCost + LotCosts(s.lots[..index])]);
    }
    s := s.(lots := []);
  }

  /** Sells the whole basket and leaves recovery mode. */
  method SellAll(c: Config, start: State, parentLevel: nat, price: real) returns (s: State)
    ensures s == SellBasket(c, start, parentLevel, price)
  {
    hide NetProceeds, ExitTrade, LotCosts, SellLots;
    s := SellAllLots(c, start, price);
    if s.parentQuantity > 0.0 {
      s := Sell(c, s, s.parentQuantity, s.parentCost, ParentExit, parentLevel, price);
      s := s.(exposures := s.exposures + [LotCosts(s.lots)]);
      s := s.(parentQuantity := 0.0, parentCost := 0.0);
    }
    s := s.(recoveryMode := false, recoveryCount := 0, anchorPrice := None);
  }

  /** Sells the parent at its own target. */
  method SellParentAtTarget(c: Config, start: State, k: Candle) returns (s: State)
    requires c.takeProfitPercent.Some?
    ensures s == ParentTakeProfit(c, start, k)
  {
    s := start;
    if s.parentQuantity > 0.0 && k.close >= s.parentCost / s.parentQuantity * (1.0 + c.takeProfitPercent.value / 100.0) {
      s := Sell(c, s, s.parentQuantity, s.parentCost, ParentExit, ParentLevel(c, s.entries), k.close);
      s := s.(exposures := s.exposures + [LotCosts(s.lots)]);
      s := s.(parentQuantity := 0.0, parentCost := 0.0);
    }
  }

  /** Scans the lots from the last to the first and sells those at their own target. */
  method SellLotsAtTarget(c: Config, start: State, k: Candle) returns (s: State)
    ensures s == LotTakeProfits(c, start, k, |start.lots|)
  {
    hide NetProceeds, ExitTrade, LotCosts;
    s := start;
    var index := |s.lots|;
    while index > 0
      invariant 0 <= index <= |s.lots|
      invariant LotTakeProfits(c, s, k, index) == LotTakeProfits(c, start, k, |start.lots|)
    {
      ghost var before := s;
      index := index - 1;
      var position := s.lots[index];
      if position.quantity > 0.0 && k.close >= position.cost / position.quantity * (1.0 + c.subTakeProfitPercent / 100.0) {
        s := Sell(c, s, position.quantity, position.cost, IndependentExit, position.level, k.close);
        s := s.(lots := s.lots[..index] + s.lots[index + 1..]);
        s := s.(exposures := s.exposures + [s.parentCost + LotCosts(s.lots)]);
        assert s == SellLot(c, before, index, k.close);
      }
    }
  }

  method TakeExits(c: Config, start: State, k: Candle) returns (s: State)
    ensures s == Exits(c, start, k)
  {
    hide SellBasket, LotTakeProfits, ParentTakeProfit, LotCosts, LotQuantities, ParentLevel;
    s := start;
    var stoppedOut := false;
    if c.stopLossPercent.Some? {
      var basketQuantity := BasketQuantity(s);
      if basketQuantity > 0.0 {
        var stopPrice := Exposure(s) / basketQuantity * (1.0 - c.stopLossPercent.value / 100.0);
        if k.close <= stopPrice {
          s := SellAll(c, s, ParentLevel(c, s.entries), k.close);
          s := s.(stopLossCount := start.stopLossCount + 1);
          stoppedOut := true;
        }
      }
    }
    if c.takeProfitPercent.Some? && !stoppedOut {
      if s.recoveryMode {
        var basketQuantity := BasketQuantity(s);
        if basketQuantity > 0.0 && k.close >= Exposure(s) / basketQuantity * (1.0 + c.recovery.takeProfitPercent / 100.0) {
          s := SellAll(c, s, c.maxEntries + s.recoveryCount, k.close);
        }
      } else {
        s := SellParentAtTarget(c, s, k);
        s := SellLotsAtTarget(c, s, k);
      }
    }
  }

  method RecordEquity(start: State, k: Candle) returns (s: State)
    ensures s == Mark(start, k)
  {
    s := start;
    var equity := s.cash + s.parentQuantity * k.close + LotValues(s.lots, k.close);
    if equity > s.peakEquity { s := s.(peakEquity := equity); }
    assert equity == EquityAt(start, k.close) && s.peakEquity == Max(start.peakEquity, equity);
    var drawdownPercent := DrawdownPercent(s.peakEquity, equity);
    if drawdownPercent > s.maxDrawdownPercent { s := s.(maxDrawdownPercent := drawdownPercent); }
    s := s.(equityPoints := s.equityPoints + [EquityPoint(equity, drawdownPercent)]);
  }

  method ProcessBuys(c: Config, start: State, k: Candle) returns (s: State)
    ensures s == Buying(c, start, k)
  {
    s := start;
    if c.continuousCycles && s.awaitingNewCycle {
      s := s.(entries := 0, recoveryMode := false, recoveryCount := 0, anchorPrice := None);
      s := s.(cycleEntryPrice := k.close, lastEntryPrice := k.close, awaitingNewCycle := false);
    }
    assert s == BeginCandle(c, start, k);
    s := BuyLadder(c, s, k);
    var i := FindLot(s.lots, c.independentFrom);
    if !s.recoveryMode && i < |s.lots| && c.recovery.enabled && s.lots[i].quantity != 0.0 {
      s := s.(anchorPrice := Some(s.lots[i].cost / s.lots[i].quantity));
    }
    s := BuyRecovery(c, s, k);
  }

  /** One round of the candle loop up to its equity point. */
  method ProcessTrades(c: Config, start: State, k: Candle) returns (s: State)
    ensures s == Trading(c, start, k)
  {
    s := ProcessBuys(c, start, k);
    s := TakeExits(c, s, k);
    if c.continuousCycles && s.entries > 0 && !(s.parentQuantity > 0.0) && |s.lots| == 0 {
      if !s.awaitingNewCycle { s := s.(cycleCount := s.cycleCount + 1); }
      s := s.(awaitingNewCycle := true);
    }
  }

  method ProcessCandle(c: Config, start: State, k: Candle) returns (s: State)
    ensures s == Step(c, start, k)
  {
    s := ProcessTrades(c, start, k);
    s := RecordEquity(s, k);
  }

  method Advance(c: Config, candles: seq<Candle>, n: nat, start: State) returns (s: State)
    requires n < |candles| && start == Run(c, candles, n)
    ensures s == Run(c, candles, n + 1)
  {
    s := ProcessCandle(c, start, candles[n]);
  }

  /** What the simulator returns for the state it ends in. */
  function ReportOf(c: Config, s: State, lastClose: real): Outcome {
    Report(EquityAt(s, lastClose), EquityAt(s, lastClose) - c.initialCapital,
           (EquityAt(s, lastClose) - c.initialCapital) / c.initialCapital * 100.0, s.maxDrawdownPercent,
           s.entryTrades + s.exits, s.cycleCount, s.stopLossCount, s.trades, s.equityPoints)
  }

  method RunCandles(c: Config, candles: seq<Candle>) returns (s: State)
    requires 0 < |candles|
    ensures s == Run(c, candles, |candles|)
  {
    s := Init(c, candles[0].close);
    for candleIndex := 0 to |candles|
      invariant s == Run(c, candles, candleIndex)
    {
      s := Advance(c, candles, candleIndex, s);
    }
  }

  method SimulateCandles(c: Config, candles: seq<Candle>) returns (outcome: Outcome)
    requires 0 < |candles|
    ensures outcome == ReportOf(c, Run(c, candles, |candles|), candles[|candles| - 1].close)
  {
    var s := RunCandles(c, candles);
    outcome := ReportOf(c, s, candles[|candles| - 1].close);
  }

  method Simulate(p: Parameters, bars: seq<Bar>) returns (outcome: Outcome)
    ensures !Accepts(p, bars) ==> outcome == Rejected
    ensures Accepts(p, bars) ==> outcome == ReportOf(p, Run(p, bars, |bars|), bars[|bars| - 1].close)
  {
    if Accepts(p, bars) {
      outcome := SimulateCandles(p, bars);
    } else {
      outcome := Rejected;
    }
  }
}
