/**
 The simulator's account against its trade log. Every trade is at its candle's
 close moved by the slippage, with its fee; and cash and coins are what the log
 says, trade by trade.
 */
module SimulatorTrades {
  import opened Reals
  import opened Simulator
  import SimulatorLaws

  predicate Buys(kind: TradeType) {
    kind.ParentEntry? || kind.IndependentEntry? || kind.RecoveryEntry?
  }

  /** The price is so many percent worse than the close, the fee so many percent of the amount; a buy's coins cost what the fee leaves. */
  predicate PricedAt(c: Config, t: Trade, close: real) {
    && 100.0 * t.feeQuote == t.quoteAmount * c.feePercent
    && if Buys(t.kind)
       then 100.0 * t.price == close * (100.0 + c.slippagePercent) && t.quantity * t.price == t.quoteAmount - t.feeQuote
       else 100.0 * t.price == close * (100.0 - c.slippagePercent) && t.quantity * t.price == t.quoteAmount
  }

  function CashOf(t: Trade): real {
    if Buys(t.kind) then -t.quoteAmount else t.quoteAmount - t.feeQuote
  }

  function CoinsOf(t: Trade): real {
    if Buys(t.kind) then t.quantity else -t.quantity
  }

  function NetCash(trades: seq<Trade>): real {
    if trades == [] then 0.0 else NetCash(trades[..|trades| - 1]) + CashOf(trades[|trades| - 1])
  }

  function NetCoins(trades: seq<Trade>): real {
    if trades == [] then 0.0 else NetCoins(trades[..|trades| - 1]) + CoinsOf(trades[|trades| - 1])
  }

  /** Cash is the capital plus what the log brought in; the coins held are those the log bought and has not sold. */
  predicate AccountIsLog(c: Config, s: State) {
    s.cash == c.initialCapital + NetCash(s.trades) && s.parentQuantity + LotQuantities(s.lots) == NetCoins(s.trades)
  }

  predicate PricedFrom(c: Config, trades: seq<Trade>, from: nat, close: real) {
    forall n :: from <= n < |trades| ==> PricedAt(c, trades[n], close)
  }

  /** From one state of a candle to a later one. */
  predicate Traded(c: Config, s: State, t: State, close: real) {
    && (AccountIsLog(c, s) ==> AccountIsLog(c, t))
    && s.trades <= t.trades && PricedFrom(c, t.trades, |s.trades|, close)
    && t.equityPoints == s.equityPoints
  }

  lemma Untraded(c: Config, s: State, t: State, close: real)
    requires t.trades == s.trades && t.cash == s.cash && t.parentQuantity == s.parentQuantity && t.lots == s.lots
    requires t.equityPoints == s.equityPoints
    ensures Traded(c, s, t, close)
  {
  }

  lemma TradedTwice(c: Config, s: State, t: State, u: State, close: real)
    requires Traded(c, s, t, close) && Traded(c, t, u, close)
    ensures Traded(c, s, u, close)
  {
    hide AccountIsLog, PricedAt;
    forall n | |s.trades| <= n < |u.trades| ensures PricedAt(c, u.trades[n], close) {
      if n < |t.trades| { assert u.trades[n] == t.trades[n]; }
    }
  }

  lemma OneTrade(c: Config, s: State, t: State, trade: Trade, close: real)
    requires t.trades == s.trades + [trade] && PricedAt(c, trade, close) && t.cash == s.cash + CashOf(trade)
    requires t.parentQuantity + LotQuantities(t.lots) == s.parentQuantity + LotQuantities(s.lots) + CoinsOf(trade)
    requires t.equityPoints == s.equityPoints
    ensures Traded(c, s, t, close)
  {
    hide LotQuantities, PricedAt, CashOf, CoinsOf;
    assert t.trades[..|s.trades|] == s.trades;
  }

  /* ---- Single trades ---- */

  lemma EntryPriced(c: Config, kind: TradeType, level: nat, spend: real, close: real)
    requires close > 0.0 && close * BuyFactor(c) != 0.0 && Buys(kind)
    ensures PricedAt(c, EntryTrade(c, kind, level, spend, close), close)
  {
    var t := EntryTrade(c, kind, level, spend, close);
    QuotientTimes(spend - spend * FeeRate(c), close * BuyFactor(c));
    Percent(spend, c.feePercent);
    OneMoreHundred(close, c.slippagePercent);
  }

  lemma Percent(amount: real, percent: real)
    ensures 100.0 * (amount * (percent / 100.0)) == amount * percent
  {
  }

  lemma OneMoreHundred(close: real, percent: real)
    ensures 100.0 * (close * (1.0 + percent / 100.0)) == close * (100.0 + percent)
    ensures 100.0 * (close * (1.0 - percent / 100.0)) == close * (100.0 - percent)
  {
  }

  lemma ExitPriced(c: Config, kind: TradeType, level: nat, quantity: real, cost: real, close: real)
    requires !Buys(kind)
    ensures PricedAt(c, ExitTrade(c, kind, level, quantity, cost, close), close)
    ensures CashOf(ExitTrade(c, kind, level, quantity, cost, close)) == NetProceeds(c, quantity, close)
  {
    Percent(quantity * (close * SellFactor(c)), c.feePercent);
    OneMoreHundred(close, c.slippagePercent);
  }

  lemma {:induction false} LotsWithout(lots: seq<Lot>, i: nat)
    requires i < |lots|
    ensures LotQuantities(WithoutLot(lots, i)) == LotQuantities(lots) - lots[i].quantity
  {
    var last := |lots| - 1;
    if i == last {
      assert WithoutLot(lots, i) == lots[..last];
    } else {
      LotsWithout(lots[..last], i);
      assert WithoutLot(lots, i)[..last - 1] == WithoutLot(lots[..last], i);
    }
  }

  lemma BuyParentTrades(c: Config, s: State, kind: TradeType, level: nat, spend: real, k: Candle)
    requires k.close * BuyFactor(c) != 0.0 && (kind.ParentEntry? || kind.RecoveryEntry?)
    ensures Traded(c, s, BuyParent(c, s, kind, level, spend, k.close), k.close)
  {
    hide Traded, PricedAt, BuyFactor, Bought, LotQuantities;
    EntryPriced(c, kind, level, spend, k.close);
    OneTrade(c, s, BuyParent(c, s, kind, level, spend, k.close), EntryTrade(c, kind, level, spend, k.close), k.close);
  }

  lemma BuyLotTrades(c: Config, s: State, level: nat, spend: real, k: Candle)
    requires k.close * BuyFactor(c) != 0.0
    ensures Traded(c, s, BuyLot(c, s, level, spend, k.close), k.close)
  {
    hide Traded, PricedAt, BuyFactor, Bought, LotQuantities;
    EntryPriced(c, IndependentEntry, level, spend, k.close);
    SimulatorLaws.LotCostsAppend(s.lots, Lot(level, Bought(c, spend, k.close), spend));
    OneTrade(c, s, BuyLot(c, s, level, spend, k.close), EntryTrade(c, IndependentEntry, level, spend, k.close), k.close);
  }

  lemma SellParentTrades(c: Config, s: State, level: nat, k: Candle)
    ensures Traded(c, s, SellParent(c, s, level, k.close), k.close)
  {
    hide Traded, PricedAt, NetProceeds, GrossProceeds, LotQuantities, LotCosts;
    var trade := ExitTrade(c, ParentExit, level, s.parentQuantity, s.parentCost, k.close);
    ExitPriced(c, ParentExit, level, s.parentQuantity, s.parentCost, k.close);
    OneTrade(c, s, SellParent(c, s, level, k.close), trade, k.close);
  }

  lemma SellLotTrades(c: Config, s: State, i: nat, k: Candle)
    requires i < |s.lots|
    ensures Traded(c, s, SellLot(c, s, i, k.close), k.close)
  {
    hide Traded, PricedAt, NetProceeds, GrossProceeds, LotQuantities, LotCosts;
    var lot := s.lots[i];
    ExitPriced(c, IndependentExit, lot.level, lot.quantity, lot.cost, k.close);
    LotsWithout(s.lots, i);
    OneTrade(c, s, SellLot(c, s, i, k.close), ExitTrade(c, IndependentExit, lot.level, lot.quantity, lot.cost, k.close), k.close);
  }

  /* ---- A candle ---- */

  lemma {:induction false} LadderTrades(c: Config, s: State, k: Candle)
    ensures Traded(c, s, Ladder(c, s, k), k.close)
    decreases c.maxEntries - s.entries
  {
    hide Traded, LadderSpend, BuyParent, BuyLot, LadderTrigger;
    var a := Arm(c, s, k);
    Untraded(c, s, s, k.close);
    Untraded(c, s, a, k.close);
    if !(s.recoveryMode || s.entries >= c.maxEntries || (s.entries == 0 && c.dipEntry && !k.dipSignal) || LadderBlocked(c, a, k)) {
      LadderBuyTrades(c, a, k);
      LadderTrades(c, LadderBuy(c, a, k), k);
      hide LadderBuy, LadderBlocked, Arm;
      TradedTwice(c, s, a, LadderBuy(c, a, k), k.close);
      TradedTwice(c, s, LadderBuy(c, a, k), Ladder(c, s, k), k.close);
    }
  }

  lemma LadderBuyTrades(c: Config, s: State, k: Candle)
    requires !LadderBlocked(c, s, k)
    ensures Traded(c, s, LadderBuy(c, s, k), k.close)
  {
    var level, spend := s.entries + 1, LadderSpend(c, s);
    BuyLotTrades(c, s, level, spend, k);
    BuyParentTrades(c, s, ParentEntry, level, spend, k);
    hide Traded, LadderSpend, BuyParent, BuyLot, LadderBlocked, BuyFactor;
    var bought := if level >= c.independentFrom then BuyLot(c, s, level, spend, k.close) else BuyParent(c, s, ParentEntry, level, spend, k.close);
    Untraded(c, bought, LadderBuy(c, s, k), k.close);
    TradedTwice(c, s, bought, LadderBuy(c, s, k), k.close);
  }

  lemma {:induction false} RecoveryTrades(c: Config, s: State, k: Candle)
    ensures Traded(c, s, RecoveryBuys(c, s, k), k.close)
    decreases c.recovery.maxOrders - s.recoveryCount
  {
    hide Traded, RecoverySpend, BuyParent;
    Untraded(c, s, s, k.close);
    if RecoveryFires(c, s, k) {
      var level := c.maxEntries + s.recoveryCount + 1;
      BuyParentTrades(c, s, RecoveryEntry, level, RecoverySpend(c, s), k);
      Untraded(c, BuyParent(c, s, RecoveryEntry, level, RecoverySpend(c, s), k.close), RecoveryBuy(c, s, k), k.close);
      TradedTwice(c, s, BuyParent(c, s, RecoveryEntry, level, RecoverySpend(c, s), k.close), RecoveryBuy(c, s, k), k.close);
      RecoveryTrades(c, RecoveryBuy(c, s, k), k);
      hide RecoveryBuy, RecoveryFires;
      TradedTwice(c, s, RecoveryBuy(c, s, k), RecoveryBuys(c, s, k), k.close);
    }
  }

  lemma {:induction false} SellLotsTrades(c: Config, s: State, k: Candle)
    ensures Traded(c, s, SellLots(c, s, k.close), k.close)
    decreases |s.lots|
  {
    hide Traded;
    Untraded(c, s, s, k.close);
    if s.lots != [] {
      var t := SellLot(c, s, |s.lots| - 1, k.close);
      SellLotTrades(c, s, |s.lots| - 1, k);
      SellLotsTrades(c, t, k);
      TradedTwice(c, s, t, SellLots(c, s, k.close), k.close);
    }
  }

  lemma BasketTrades(c: Config, s: State, level: nat, k: Candle)
    ensures Traded(c, s, SellBasket(c, s, level, k.close), k.close)
  {
    hide Traded, SellLots, SellParent;
    var sold, after := SellLots(c, s, k.close), SellBasket(c, s, level, k.close);
    SellLotsTrades(c, s, k);
    SellParentTrades(c, sold, level, k);
    Untraded(c, sold, sold, k.close);
    var flat := if sold.parentQuantity > 0.0 then SellParent(c, sold, level, k.close) else sold;
    TradedTwice(c, s, sold, flat, k.close);
    Untraded(c, flat, after, k.close);
    TradedTwice(c, s, flat, after, k.close);
  }

  lemma {:induction false} ScanTrades(c: Config, s: State, k: Candle, i: nat)
    requires i <= |s.lots|
    ensures Traded(c, s, LotTakeProfits(c, s, k, i), k.close)
    decreases i
  {
    hide Traded, LotTakeProfitHit;
    Untraded(c, s, s, k.close);
    if i > 0 {
      var next := if LotTakeProfitHit(c, s.lots[i - 1], k) then SellLot(c, s, i - 1, k.close) else s;
      SellLotTrades(c, s, i - 1, k);
      ScanTrades(c, next, k, i - 1);
      TradedTwice(c, s, next, LotTakeProfits(c, s, k, i), k.close);
    }
  }

  lemma ExitsTrade(c: Config, s: State, k: Candle)
    ensures Traded(c, s, Exits(c, s, k), k.close)
  {
    hide Traded, StopLossHit, SellBasket, ParentLevel, RecoveryTakeProfitHit, ParentTakeProfitHit, LotTakeProfits, SellParent;
    Untraded(c, s, s, k.close);
    if StopLossHit(c, s, k) {
      var sold := SellBasket(c, s, ParentLevel(c, s.entries), k.close);
      BasketTrades(c, s, ParentLevel(c, s.entries), k);
      Untraded(c, sold, StopOut(c, s, k), k.close);
      TradedTwice(c, s, sold, StopOut(c, s, k), k.close);
    } else if c.takeProfitPercent.Some? {
      BasketTrades(c, s, c.maxEntries + s.recoveryCount, k);
      if !s.recoveryMode {
        var t := ParentTakeProfit(c, s, k);
        SellParentTrades(c, s, ParentLevel(c, s.entries), k);
        ScanTrades(c, t, k, |t.lots|);
        TradedTwice(c, s, t, LotTakeProfits(c, t, k, |t.lots|), k.close);
      }
    }
  }

  lemma BuyingTrades(c: Config, s: State, k: Candle)
    ensures Traded(c, s, Buying(c, s, k), k.close)
  {
    hide Traded, Ladder, RecoveryBuys;
    var b := BeginCandle(c, s, k);
    var l := Ladder(c, b, k);
    var a := SetAnchor(c, l);
    Untraded(c, s, b, k.close);
    Untraded(c, l, a, k.close);
    hide BeginCandle, SetAnchor;
    LadderTrades(c, b, k);
    RecoveryTrades(c, a, k);
    TradedTwice(c, s, b, l, k.close);
    TradedTwice(c, s, l, a, k.close);
    TradedTwice(c, s, a, Buying(c, s, k), k.close);
  }

  lemma TradingTrades(c: Config, s: State, k: Candle)
    ensures Traded(c, s, Trading(c, s, k), k.close)
  {
    hide Traded, Buying, Exits;
    var b := Buying(c, s, k);
    var x := Exits(c, b, k);
    BuyingTrades(c, s, k);
    ExitsTrade(c, b, k);
    TradedTwice(c, s, b, x, k.close);
    Untraded(c, x, EndCycle(c, x), k.close);
    TradedTwice(c, s, x, EndCycle(c, x), k.close);
  }

  /* ---- Every run ---- */

  /** After any number of candles cash and coins are what the trade log says. */
  lemma {:induction false} RunIsItsLog(c: Config, candles: seq<Candle>, n: nat)
    requires 0 < |candles| && n <= |candles|
    ensures AccountIsLog(c, Run(c, candles, n))
    decreases n
  {
    if n > 0 {
      RunIsItsLog(c, candles, n - 1);
      hide Trading, PricedFrom;
      TradingTrades(c, Run(c, candles, n - 1), candles[n - 1]);
    }
  }

  /** The trades that a candle adds are at its close, slipped and with their fees; earlier ones never change. */
  lemma TradesAreAtTheirCandles(c: Config, candles: seq<Candle>, n: nat)
    requires n < |candles|
    ensures Run(c, candles, n).trades <= Run(c, candles, n + 1).trades
    ensures PricedFrom(c, Run(c, candles, n + 1).trades, |Run(c, candles, n).trades|, candles[n].close)
  {
    hide Trading, AccountIsLog, PricedFrom;
    TradingTrades(c, Run(c, candles, n), candles[n]);
  }

  /** A candle adds one equity point: the cash after it, and every coin held at its close. */
  lemma {:induction false} EquityIsCashAndCoins(c: Config, candles: seq<Candle>, n: nat)
    requires n < |candles|
    ensures |Run(c, candles, n + 1).equityPoints| == n + 1
    ensures var t := Run(c, candles, n + 1);
            && t.equityPoints[..n] == Run(c, candles, n).equityPoints
            && t.equityPoints[n].equity == t.cash + (t.parentQuantity + LotQuantities(t.lots)) * candles[n].close
    decreases n
  {
    hide Trading, AccountIsLog, PricedFrom, LotValues, LotQuantities, DrawdownPercent;
    var s, k := Run(c, candles, n), candles[n];
    if n > 0 { EquityIsCashAndCoins(c, candles, n - 1); }
    TradingTrades(c, s, k);
    var x := Trading(c, s, k);
    ValuesAreCoins(x.lots, k.close);
    Distribute(x.parentQuantity, LotQuantities(x.lots), k.close);
    assert Run(c, candles, n + 1) == Mark(x, k);
  }

  lemma {:induction false} ValuesAreCoins(lots: seq<Lot>, price: real)
    ensures LotValues(lots, price) == LotQuantities(lots) * price
  {
    if lots != [] {
      ValuesAreCoins(lots[..|lots| - 1], price);
      Distribute(LotQuantities(lots[..|lots| - 1]), lots[|lots| - 1].quantity, price);
    }
  }
}
