/**
 What every run of the simulator keeps: money is conserved, the account never
 overdraws or exceeds its risk budget, and the trade log replays to the
 simulator's own exposure.

 The account invariant `Inv` has four parts: holdings and their costs are
 positive together (`Holdings`); cash and exposure stay within their bounds
 and add up to the capital plus realised results (`Solvent`); levels are
 distinct and counters agree with the holdings and the log (`Ladders`); the
 log replays to the exposure after every trade (`Logged`). The lemmas follow
 one candle: the buys, the exits, the end of a cycle.
 */
module SimulatorLaws {
  import opened Reals
  import opened Simulator
  import opened Analytics

  /* ---- The invariant ---- */

  function Realized(trades: seq<Trade>): real {
    if trades == [] then 0.0
    else
      var t := trades[|trades| - 1];
      Realized(trades[..|trades| - 1]) + (if t.realizedPnl.Some? then t.realizedPnl.value else 0.0)
  }

  lemma RealizedAppend(trades: seq<Trade>, t: Trade)
    ensures Realized(trades + [t]) == Realized(trades) + (if t.realizedPnl.Some? then t.realizedPnl.value else 0.0)
  {
    assert (trades + [t])[..|trades|] == trades;
  }

  ghost predicate Holdings(s: State) {
    && s.parentQuantity >= 0.0 && s.parentCost >= 0.0
    && (s.parentQuantity > 0.0 <==> s.parentCost > 0.0)
    && forall i :: 0 <= i < |s.lots| ==> s.lots[i].quantity > 0.0 && s.lots[i].cost > 0.0
  }

  ghost predicate Solvent(c: Config, s: State) {
    && s.cash >= 0.0
    && (c.riskBudget.Some? ==> Exposure(s) <= c.riskBudget.value)
    && s.cash + Exposure(s) == c.initialCapital + Realized(s.trades)
    && (s.cash > 0.0 || s.parentQuantity > 0.0 || s.lots != [])
  }

  ghost predicate Ladders(c: Config, s: State) {
    && s.entries <= c.maxEntries
    && DistinctLevels(s.lots)
    && (forall i :: 0 <= i < |s.lots| ==> c.independentFrom <= s.lots[i].level <= s.entries)
    && (s.awaitingNewCycle ==> c.continuousCycles && s.entries > 0 && s.parentQuantity == 0.0 && s.lots == [])
    && s.recoveryCount <= c.recovery.maxOrders
    && (s.anchorPrice.Some? ==> s.anchorPrice.value > 0.0)
    && s.entryTrades + s.exits == |s.trades|
  }

  ghost predicate Logged(s: State) {
    && BookAfter(s.trades) == Book(s.parentCost, LotBook(s.lots))
    && |s.exposures| == |s.trades|
    && forall n :: 0 <= n < |s.trades| ==> s.exposures[n] == Deployed(BookAfter(s.trades[..n + 1]))
  }

  ghost predicate Inv(c: Config, s: State) {
    Holdings(s) && Solvent(c, s) && Ladders(c, s) && Logged(s)
  }

  /** The equity curve's own variables; only Mark changes them. */
  ghost predicate SameCurve(s: State, t: State) {
    t.peakEquity == s.peakEquity && t.maxDrawdownPercent == s.maxDrawdownPercent && t.equityPoints == s.equityPoints
  }

  lemma InitInv(c: Config, close: real)
    ensures Inv(c, Init(c, close))
  {
  }

  /* ---- Sums over lots ---- */

  lemma {:induction false} LotSums(lots: seq<Lot>)
    requires forall i :: 0 <= i < |lots| ==> lots[i].quantity > 0.0 && lots[i].cost > 0.0
    ensures LotCosts(lots) >= 0.0 && LotQuantities(lots) >= 0.0
    ensures lots != [] ==> LotCosts(lots) > 0.0 && LotQuantities(lots) > 0.0
  {
    if lots != [] { LotSums(lots[..|lots| - 1]); }
  }

  lemma LotCostsAppend(lots: seq<Lot>, lot: Lot)
    ensures LotCosts(lots + [lot]) == LotCosts(lots) + lot.cost
    ensures LotQuantities(lots + [lot]) == LotQuantities(lots) + lot.quantity
  {
    assert (lots + [lot])[..|lots|] == lots;
  }

  lemma {:induction false} LotCostsWithout(lots: seq<Lot>, i: nat)
    requires i < |lots|
    ensures LotCosts(WithoutLot(lots, i)) == LotCosts(lots) - lots[i].cost
  {
    var n := |lots| - 1;
    if i < n {
      LotCostsWithout(lots[..n], i);
      assert WithoutLot(lots, i)[..n - 1] == WithoutLot(lots[..n], i);
    } else {
      assert WithoutLot(lots, i) == lots[..n];
    }
  }

  /* ---- Prices and proceeds ---- */

  lemma BoughtPositive(c: Config, spend: real, price: real)
    requires spend > 0.0 && price > 0.0
    ensures price * BuyFactor(c) > 0.0
    ensures spend - spend * FeeRate(c) > 0.0
    ensures Bought(c, spend, price) > 0.0
  {
    ProductPositive(price, BuyFactor(c));
    ProductPositive(spend, 1.0 - FeeRate(c));
    assert spend - spend * FeeRate(c) == spend * (1.0 - FeeRate(c));
    QuotientPositive(spend - spend * FeeRate(c), price * BuyFactor(c));
  }

  lemma ProceedsPositive(c: Config, quantity: real, price: real)
    requires quantity > 0.0 && price > 0.0
    ensures NetProceeds(c, quantity, price) > 0.0
  {
    ProductPositive(price, SellFactor(c));
    ProductPositive(quantity, price * SellFactor(c));
    var gross := GrossProceeds(c, quantity, price);
    ProductPositive(gross, 1.0 - FeeRate(c));
    assert gross - gross * FeeRate(c) == gross * (1.0 - FeeRate(c));
  }

  /* ---- The elementary moves keep the invariant ---- */

  ghost predicate Affordable(c: Config, s: State, spend: real) {
    0.0 < spend <= s.cash && (c.riskBudget.Some? ==> spend <= c.riskBudget.value - Exposure(s))
  }

  /** Appending one trade extends the replay by that trade. */
  lemma LogAppend(s: State, t: Trade, s': State, exposure: real)
    requires Logged(s)
    requires s'.trades == s.trades + [t] && s'.exposures == s.exposures + [exposure]
    requires Apply(BookAfter(s.trades), t) == Book(s'.parentCost, LotBook(s'.lots))
    requires exposure == Exposure(s')
    ensures Logged(s')
  {
    BookAppend(s.trades, t);
    LotBookCosts(s'.lots);
    forall n | 0 <= n < |s'.trades|
      ensures s'.exposures[n] == Deployed(BookAfter(s'.trades[..n + 1]))
    {
      if n < |s.trades| {
        assert s'.trades[..n + 1] == s.trades[..n + 1];
      } else {
        assert s'.trades[..n + 1] == s'.trades;
      }
    }
  }

  lemma BuyParentInv(c: Config, s: State, kind: TradeType, level: nat, spend: real, price: real)
    requires Inv(c, s) && Affordable(c, s, spend) && price > 0.0
    requires kind == ParentEntry || kind == RecoveryEntry
    requires !s.awaitingNewCycle
    ensures price * BuyFactor(c) != 0.0
    ensures Inv(c, BuyParent(c, s, kind, level, spend, price))
  {
    BoughtPositive(c, spend, price);
    var t := EntryTrade(c, kind, level, spend, price);
    var s' := BuyParent(c, s, kind, level, spend, price);
    RealizedAppend(s.trades, t);
    LogAppend(s, t, s', Exposure(s) + spend);
  }

  lemma BuyLotInv(c: Config, s: State, spend: real, price: real)
    requires Inv(c, s) && Affordable(c, s, spend) && price > 0.0
    requires s.entries + 1 >= c.independentFrom && s.entries < c.maxEntries && !s.awaitingNewCycle
    ensures price * BuyFactor(c) != 0.0
    ensures Inv(c, BuyLot(c, s, s.entries + 1, spend, price).(entries := s.entries + 1))
  {
    BoughtPositive(c, spend, price);
    BuyLotMoney(c, s, spend, price);
    BuyLotLog(c, s, spend, price);
    hide Holdings, Solvent, Logged, Bought, BuyFactor, FeeRate;
  }

  lemma BuyLotMoney(c: Config, s: State, spend: real, price: real)
    requires Inv(c, s) && Affordable(c, s, spend) && price * BuyFactor(c) > 0.0 && Bought(c, spend, price) > 0.0
    ensures var t := BuyLot(c, s, s.entries + 1, spend, price).(entries := s.entries + 1); Holdings(t) && Solvent(c, t)
  {
    LotCostsAppend(s.lots, Lot(s.entries + 1, Bought(c, spend, price), spend));
    RealizedAppend(s.trades, EntryTrade(c, IndependentEntry, s.entries + 1, spend, price));
    hide Bought, BuyFactor, FeeRate, Ladders, Logged;
  }

  lemma BuyLotLog(c: Config, s: State, spend: real, price: real)
    requires Ladders(c, s) && Logged(s) && price * BuyFactor(c) > 0.0
    ensures Logged(BuyLot(c, s, s.entries + 1, spend, price).(entries := s.entries + 1))
  {
    hide BookAfter, Deployed, LotCosts, DistinctLevels;
    var lot := Lot(s.entries + 1, Bought(c, spend, price), spend);
    var t := EntryTrade(c, IndependentEntry, s.entries + 1, spend, price);
    var s' := BuyLot(c, s, s.entries + 1, spend, price).(entries := s.entries + 1);
    LotCostsAppend(s.lots, lot);
    PutFresh(s.lots, lot);
    hide Bought, BuyFactor, FeeRate;
    LogAppend(s, t, s', Exposure(s) + spend);
  }

  lemma SellParentInv(c: Config, s: State, level: nat, price: real)
    requires Inv(c, s) && s.parentQuantity > 0.0 && price > 0.0
    ensures Inv(c, SellParent(c, s, level, price))
  {
    ProceedsPositive(c, s.parentQuantity, price);
    LotSums(s.lots);
    var t := ExitTrade(c, ParentExit, level, s.parentQuantity, s.parentCost, price);
    var s' := SellParent(c, s, level, price);
    RealizedAppend(s.trades, t);
    LogAppend(s, t, s', LotCosts(s.lots));
  }

  lemma SellLotInv(c: Config, s: State, i: nat, price: real)
    requires Inv(c, s) && i < |s.lots| && price > 0.0
    ensures Inv(c, SellLot(c, s, i, price))
  {
    SellLotMoney(c, s, i, price);
    SellLotLog(c, s, i, price);
  }

  lemma SellLotMoney(c: Config, s: State, i: nat, price: real)
    requires Inv(c, s) && i < |s.lots| && price > 0.0
    ensures Holdings(SellLot(c, s, i, price)) && Solvent(c, SellLot(c, s, i, price))
  {
    var lot := s.lots[i];
    ProceedsPositive(c, lot.quantity, price);
    LotCostsWithout(s.lots, i);
    RealizedAppend(s.trades, ExitTrade(c, IndependentExit, lot.level, lot.quantity, lot.cost, price));
  }

  lemma SellLotLog(c: Config, s: State, i: nat, price: real)
    requires i < |s.lots| && DistinctLevels(s.lots) && Logged(s)
    ensures Logged(SellLot(c, s, i, price)) && DistinctLevels(WithoutLot(s.lots, i))
  {
    var lot := s.lots[i];
    RemoveAt(s.lots, i);
    LogAppend(s, ExitTrade(c, IndependentExit, lot.level, lot.quantity, lot.cost, price), SellLot(c, s, i, price),
              s.parentCost + LotCosts(WithoutLot(s.lots, i)));
  }

  /* ---- The phases keep the invariant ---- */

  lemma BeginCandleInv(c: Config, s: State, k: Candle)
    requires Inv(c, s)
    ensures Inv(c, BeginCandle(c, s, k))
    ensures !BeginCandle(c, s, k).awaitingNewCycle
  {
  }

  lemma LadderSpendAffordable(c: Config, s: State)
    requires Inv(c, s) && LadderSpend(c, s) > 0.0
    ensures Affordable(c, s, LadderSpend(c, s))
  {
  }

  lemma LadderBuyInv(c: Config, s: State, k: Candle)
    requires Inv(c, s) && !s.awaitingNewCycle
    requires s.entries < c.maxEntries && !LadderBlocked(c, s, k)
    ensures Inv(c, LadderBuy(c, s, k)) && !LadderBuy(c, s, k).awaitingNewCycle && SameCurve(s, LadderBuy(c, s, k))
  {
    LadderSpendAffordable(c, s);
    if s.entries + 1 >= c.independentFrom { LadderLotInv(c, s, k); } else { LadderParentInv(c, s, k); }
  }

  lemma LadderLotInv(c: Config, s: State, k: Candle)
    requires Inv(c, s) && !s.awaitingNewCycle
    requires s.entries < c.maxEntries && !LadderBlocked(c, s, k) && s.entries + 1 >= c.independentFrom
    requires Affordable(c, s, LadderSpend(c, s))
    ensures Inv(c, LadderBuy(c, s, k))
  {
    hide Holdings, Solvent, Logged, Bought, BuyFactor, FeeRate, LadderSpend, LadderTrigger;
    BuyLotInv(c, s, LadderSpend(c, s), k.close);
    InvIgnoresPrices(c, BuyLot(c, s, s.entries + 1, LadderSpend(c, s), k.close).(entries := s.entries + 1), LadderBuy(c, s, k));
  }

  lemma LadderParentInv(c: Config, s: State, k: Candle)
    requires Inv(c, s) && !s.awaitingNewCycle
    requires s.entries < c.maxEntries && !LadderBlocked(c, s, k) && s.entries + 1 < c.independentFrom
    requires Affordable(c, s, LadderSpend(c, s))
    ensures Inv(c, LadderBuy(c, s, k))
  {
    hide Holdings, Solvent, Logged, Bought, BuyFactor, FeeRate, LadderSpend, LadderTrigger;
    BuyParentInv(c, s, ParentEntry, s.entries + 1, LadderSpend(c, s), k.close);
    InvIgnoresPrices(c, BuyParent(c, s, ParentEntry, s.entries + 1, LadderSpend(c, s), k.close), LadderBuy(c, s, k));
  }

  /** The invariant does not look at reference prices, modes or statistics. */
  lemma InvIgnoresPrices(c: Config, s: State, t: State)
    requires Inv(c, s) && Ladders(c, t)
    requires t.cash == s.cash && t.parentQuantity == s.parentQuantity && t.parentCost == s.parentCost
    requires t.lots == s.lots && t.trades == s.trades && t.exposures == s.exposures
    ensures Inv(c, t)
  {
  }

  lemma {:induction false} LadderInv(c: Config, s: State, k: Candle)
    requires Inv(c, s) && !s.awaitingNewCycle
    ensures Inv(c, Ladder(c, s, k)) && !Ladder(c, s, k).awaitingNewCycle && SameCurve(s, Ladder(c, s, k))
    decreases c.maxEntries - s.entries
  {
    var a := Arm(c, s, k);
    InvIgnoresPrices(c, s, a);
    hide Inv, LadderBlocked;
    if s.recoveryMode || s.entries >= c.maxEntries {
    } else if s.entries == 0 && c.dipEntry && !k.dipSignal {
    } else if !LadderBlocked(c, a, k) {
      LadderBuyInv(c, a, k);
      LadderInv(c, LadderBuy(c, a, k), k);
    }
  }

  lemma SetAnchorInv(c: Config, s: State)
    requires Inv(c, s)
    ensures Inv(c, SetAnchor(c, s))
  {
    var i := FindLot(s.lots, c.independentFrom);
    if i < |s.lots| { QuotientPositive(s.lots[i].cost, s.lots[i].quantity); }
    InvIgnoresPrices(c, s, SetAnchor(c, s));
  }

  lemma {:induction false} RecoveryBuysInv(c: Config, s: State, k: Candle)
    requires Inv(c, s) && !s.awaitingNewCycle
    ensures Inv(c, RecoveryBuys(c, s, k)) && !RecoveryBuys(c, s, k).awaitingNewCycle && SameCurve(s, RecoveryBuys(c, s, k))
    decreases c.recovery.maxOrders - s.recoveryCount
  {
    hide Inv, RecoveryFires;
    if RecoveryFires(c, s, k) {
      RecoveryBuyInv(c, s, k);
      RecoveryBuysInv(c, RecoveryBuy(c, s, k), k);
    }
  }

  lemma RecoverySpendAffordable(c: Config, s: State, k: Candle)
    requires Inv(c, s) && RecoveryFires(c, s, k)
    ensures s.anchorPrice.Some? && RecoveryLeg(c, s).Leg? && k.close * BuyFactor(c) > 0.0
    ensures s.recoveryCount < c.recovery.maxOrders && Affordable(c, s, RecoverySpend(c, s))
  {
    hide Exposure, Realized;
  }

  lemma RecoveryBuyInv(c: Config, s: State, k: Candle)
    requires Inv(c, s) && !s.awaitingNewCycle && RecoveryFires(c, s, k)
    ensures Inv(c, RecoveryBuy(c, s, k)) && !RecoveryBuy(c, s, k).awaitingNewCycle && SameCurve(s, RecoveryBuy(c, s, k))
    ensures s.recoveryCount < RecoveryBuy(c, s, k).recoveryCount <= c.recovery.maxOrders
  {
    hide RecoveryFires, RecoverySpend, RecoveryLeg, Inv, BuyFactor, Bought, EntryTrade;
    RecoverySpendAffordable(c, s, k);
    var spend := RecoverySpend(c, s);
    BuyParentInv(c, s, RecoveryEntry, c.maxEntries + s.recoveryCount + 1, spend, k.close);
    var bought := BuyParent(c, s, RecoveryEntry, c.maxEntries + s.recoveryCount + 1, spend, k.close);
    assert RecoveryBuy(c, s, k) == bought.(recoveryMode := true, recoveryCount := s.recoveryCount + 1) by { hide BuyParent; }
    assert SameCurve(s, bought) && bought.awaitingNewCycle == s.awaitingNewCycle && bought.recoveryCount == s.recoveryCount;
    hide BuyParent, RecoveryBuy;
    RecoveryCountInv(c, bought, s.recoveryCount + 1);
  }

  lemma RecoveryCountInv(c: Config, s: State, count: nat)
    requires Inv(c, s) && count <= c.recovery.maxOrders
    ensures Inv(c, s.(recoveryMode := true, recoveryCount := count))
  {
    InvIgnoresPrices(c, s, s.(recoveryMode := true, recoveryCount := count));
  }

  lemma {:induction false} SellLotsInv(c: Config, s: State, price: real)
    requires Inv(c, s) && price > 0.0
    ensures Inv(c, SellLots(c, s, price)) && SellLots(c, s, price).lots == [] && SameCurve(s, SellLots(c, s, price))
    decreases |s.lots|
  {
    hide Inv;
    if s.lots != [] {
      SellLotInv(c, s, |s.lots| - 1, price);
      SellLotsInv(c, SellLot(c, s, |s.lots| - 1, price), price);
    }
  }

  lemma SellBasketInv(c: Config, s: State, level: nat, price: real)
    requires Inv(c, s) && price > 0.0
    ensures Inv(c, SellBasket(c, s, level, price)) && SameCurve(s, SellBasket(c, s, level, price))
    ensures SellBasket(c, s, level, price).lots == [] && SellBasket(c, s, level, price).parentQuantity == 0.0
  {
    SellLotsInv(c, s, price);
    var sold := SellLots(c, s, price);
    if sold.parentQuantity > 0.0 { SellParentInv(c, sold, level, price); }
    var flat := if sold.parentQuantity > 0.0 then SellParent(c, sold, level, price) else sold;
    InvIgnoresPrices(c, flat, SellBasket(c, s, level, price));
  }

  lemma {:induction false} LotTakeProfitsInv(c: Config, s: State, k: Candle, i: nat)
    requires Inv(c, s) && i <= |s.lots|
    ensures Inv(c, LotTakeProfits(c, s, k, i)) && SameCurve(s, LotTakeProfits(c, s, k, i))
    decreases i
  {
    hide Inv, LotTakeProfitHit;
    if i > 0 {
      if LotTakeProfitHit(c, s.lots[i - 1], k) {
        SellLotInv(c, s, i - 1, k.close);
        LotTakeProfitsInv(c, SellLot(c, s, i - 1, k.close), k, i - 1);
      } else {
        LotTakeProfitsInv(c, s, k, i - 1);
      }
    }
  }

  lemma ExitsInv(c: Config, s: State, k: Candle)
    requires Inv(c, s)
    ensures Inv(c, Exits(c, s, k)) && SameCurve(s, Exits(c, s, k))
  {
    if StopLossHit(c, s, k) {
      SellBasketInv(c, s, ParentLevel(c, s.entries), k.close);
      InvIgnoresPrices(c, SellBasket(c, s, ParentLevel(c, s.entries), k.close), StopOut(c, s, k));
    } else {
      TakeProfitInv(c, s, k);
    }
  }

  lemma TakeProfitInv(c: Config, s: State, k: Candle)
    requires Inv(c, s)
    ensures Inv(c, TakeProfit(c, s, k)) && SameCurve(s, TakeProfit(c, s, k))
  {
    hide Inv, SellBasket, ParentTakeProfit, LotTakeProfits, RecoveryTakeProfitHit;
    if c.takeProfitPercent.Some? && s.recoveryMode {
      SellBasketInv(c, s, c.maxEntries + s.recoveryCount, k.close);
    } else if c.takeProfitPercent.Some? {
      ParentThenLotsInv(c, s, k);
    }
  }

  lemma ParentThenLotsInv(c: Config, s: State, k: Candle)
    requires Inv(c, s)
    ensures var t := ParentTakeProfit(c, s, k);
            var u := LotTakeProfits(c, t, k, |t.lots|);
            Inv(c, u) && SameCurve(s, u)
  {
    hide Inv, ParentTakeProfit, LotTakeProfits;
    ParentTakeProfitInv(c, s, k);
    var t := ParentTakeProfit(c, s, k);
    LotTakeProfitsInv(c, t, k, |t.lots|);
  }

  lemma ParentTakeProfitInv(c: Config, s: State, k: Candle)
    requires Inv(c, s)
    ensures Inv(c, ParentTakeProfit(c, s, k)) && SameCurve(s, ParentTakeProfit(c, s, k))
  {
    if ParentTakeProfitHit(c, s, k) { SellParentInv(c, s, ParentLevel(c, s.entries), k.close); }
  }

  lemma EndCycleInv(c: Config, s: State)
    requires Inv(c, s)
    ensures Inv(c, EndCycle(c, s))
  {
    InvIgnoresPrices(c, s, EndCycle(c, s));
  }

  /* ---- Whole candles and whole runs ---- */

  lemma BuyingInv(c: Config, s: State, k: Candle)
    requires Inv(c, s)
    ensures Inv(c, Buying(c, s, k)) && SameCurve(s, Buying(c, s, k))
  {
    hide Inv, Ladder, RecoveryBuys;
    var s1 := BeginCandle(c, s, k);
    BeginCandleInv(c, s, k);
    LadderInv(c, s1, k);
    SetAnchorInv(c, Ladder(c, s1, k));
    RecoveryBuysInv(c, SetAnchor(c, Ladder(c, s1, k)), k);
  }

  lemma TradingInv(c: Config, s: State, k: Candle)
    requires Inv(c, s)
    ensures Inv(c, Trading(c, s, k)) && SameCurve(s, Trading(c, s, k))
  {
    BuyingInv(c, s, k);
    ExitsInv(c, Buying(c, s, k), k);
    EndCycleInv(c, Exits(c, Buying(c, s, k), k));
  }

  lemma {:induction false} LotValuesPositive(lots: seq<Lot>, price: real)
    requires price > 0.0
    requires forall i :: 0 <= i < |lots| ==> lots[i].quantity > 0.0 && lots[i].cost > 0.0
    ensures LotValues(lots, price) >= 0.0
    ensures lots != [] ==> LotValues(lots, price) > 0.0
  {
    if lots != [] {
      LotValuesPositive(lots[..|lots| - 1], price);
      ProductPositive(lots[|lots| - 1].quantity, price);
    }
  }

  /** The account is never wiped out. */
  lemma EquityPositive(c: Config, s: State, price: real)
    requires Inv(c, s) && price > 0.0
    ensures EquityAt(s, price) > 0.0
  {
    hide Ladders, Logged, Realized, Exposure;
    LotValuesPositive(s.lots, price);
    ProductNonNegative(s.parentQuantity, price);
    if s.parentQuantity > 0.0 { ProductPositive(s.parentQuantity, price); }
    var held, lots := s.parentQuantity * price, LotValues(s.lots, price);
    assert s.cash >= 0.0 && held >= 0.0 && lots >= 0.0 && (s.cash > 0.0 || held > 0.0 || lots > 0.0);
    hide Inv, LotValues;
  }
}
