/** What a finished or interrupted run reports, and what each kind of exit guarantees. */
module SimulatorResults {
  import opened Reals
  import opened Simulator
  import opened Analytics
  import opened SimulatorLaws
  import opened SimulatorRun

  /* ---- Profit and loss ---- */

  function LotGains(lots: seq<Lot>, price: real): real {
    if lots == [] then 0.0
    else LotGains(lots[..|lots| - 1], price) + (lots[|lots| - 1].quantity * price - lots[|lots| - 1].cost)
  }

  /** Gain, leg by leg, of what is still open when valued at a price. */
  function Unrealized(s: State, price: real): real {
    (s.parentQuantity * price - s.parentCost) + LotGains(s.lots, price)
  }

  lemma {:induction false} LotGainsSum(lots: seq<Lot>, price: real)
    ensures LotGains(lots, price) == LotValues(lots, price) - LotCosts(lots)
  {
    if lots != [] { LotGainsSum(lots[..|lots| - 1], price); }
  }

  /** Ending capital less initial capital is the sum of the emitted exits' results plus the open gain. */
  lemma ReportedProfit(c: Config, candles: seq<Candle>, n: nat)
    requires 0 < |candles| && n <= |candles|
    ensures forall price: real :: EquityAt(Run(c, candles, n), price) - c.initialCapital
                          == Realized(Run(c, candles, n).trades) + Unrealized(Run(c, candles, n), price)
  {
    var s := Run(c, candles, n);
    RunSound(c, candles, n);
    forall price: real
      ensures EquityAt(s, price) - c.initialCapital == Realized(s.trades) + Unrealized(s, price)
    {
      LotGainsSum(s.lots, price);
    }
  }

  /** No run overdraws its cash, exceeds its risk budget, or holds two open lots of one level. */
  lemma AccountStaysWithinLimits(c: Config, candles: seq<Candle>, n: nat)
    requires 0 < |candles| && n <= |candles|
    ensures var s := Run(c, candles, n);
            && 0.0 <= s.cash && 0.0 <= Exposure(s)
            && (c.riskBudget.Some? ==> Exposure(s) <= c.riskBudget.value)
            && s.cash + Exposure(s) == c.initialCapital + Realized(s.trades)
            && s.entries <= c.maxEntries && s.recoveryCount <= c.recovery.maxOrders
            && (forall i, j :: 0 <= i < j < |s.lots| ==> s.lots[i].level != s.lots[j].level)
  {
    RunSound(c, candles, n);
    LotSums(Run(c, candles, n).lots);
  }

  /* ---- Capital deployed ---- */

  function Highest(xs: seq<real>): real {
    if xs == [] then 0.0 else Max(Highest(xs[..|xs| - 1]), xs[|xs| - 1])
  }

  lemma {:induction false} PeakOfLog(trades: seq<Trade>, exposures: seq<real>)
    requires |exposures| == |trades|
    requires forall n :: 0 <= n < |trades| ==> exposures[n] == Deployed(BookAfter(trades[..n + 1]))
    ensures PeakDeployed(trades) == Highest(exposures)
  {
    if trades != [] {
      var m := |trades| - 1;
      assert trades[..m + 1] == trades;
      forall n | 0 <= n < m
        ensures exposures[..m][n] == Deployed(BookAfter(trades[..m][..n + 1]))
      {
        assert trades[..m][..n + 1] == trades[..n + 1];
      }
      PeakOfLog(trades[..m], exposures[..m]);
    }
  }

  /**
   The report's maximum capital deployed, replayed from the trade log alone, is
   the highest exposure the simulator itself had after any trade, and the
   replay ends at the simulator's current exposure.
   */
  lemma DeployedIsPeakExposure(c: Config, candles: seq<Candle>, n: nat)
    requires 0 < |candles| && n <= |candles|
    ensures var s := Run(c, candles, n);
            && PeakDeployed(s.trades) == Highest(s.exposures)
            && Deployed(BookAfter(s.trades)) == Exposure(s)
  {
    var s := Run(c, candles, n);
    RunSound(c, candles, n);
    PeakOfLog(s.trades, s.exposures);
    LotBookCosts(s.lots);
  }

  /* ---- Floors under take-profit exits ---- */

  /** Net result, per unit of cost, of selling at a gain of percent over cost. */
  function Floor(c: Config, percent: real): real {
    (1.0 + percent / 100.0) * SellFactor(c) * (1.0 - FeeRate(c)) - 1.0
  }

  lemma ProceedsFloor(c: Config, quantity: real, cost: real, percent: real, price: real)
    requires quantity > 0.0
    requires price >= cost / quantity * (1.0 + percent / 100.0)
    ensures NetProceeds(c, quantity, price) - cost >= cost * Floor(c, percent)
  {
    var gain, f, r := 1.0 + percent / 100.0, SellFactor(c), 1.0 - FeeRate(c);
    ProductPositive(f, r);
    ProductMonotone(cost / quantity * gain, price, quantity);
    assert cost / quantity * gain * quantity == cost * gain by {
      QuotientTimes(cost, quantity);
      Reorder(cost / quantity, gain, quantity);
    }
    ProductMonotone(cost * gain, price * quantity, f * r);
    NetProceedsProduct(c, quantity, price);
    FloorProduct(c, cost, gain);
  }

  lemma Reorder(x: real, y: real, z: real)
    ensures x * y * z == x * z * y
  {
  }

  lemma NetProceedsProduct(c: Config, quantity: real, price: real)
    ensures NetProceeds(c, quantity, price) == price * quantity * (SellFactor(c) * (1.0 - FeeRate(c)))
  {
    var gross := GrossProceeds(c, quantity, price);
    assert gross == price * quantity * SellFactor(c);
    assert gross - gross * FeeRate(c) == gross * (1.0 - FeeRate(c));
    Associate(price * quantity, SellFactor(c), 1.0 - FeeRate(c));
  }

  lemma FloorProduct(c: Config, cost: real, gain: real)
    ensures cost * gain * (SellFactor(c) * (1.0 - FeeRate(c))) - cost == cost * (gain * SellFactor(c) * (1.0 - FeeRate(c)) - 1.0)
  {
    var f, r := SellFactor(c), 1.0 - FeeRate(c);
    Associate(gain, f, r);
    Associate(cost, gain, f * r);
    Distribute(gain * f * r, 1.0, cost);
  }

  /** A parent exit at its take profit realises at least the configured gain, net of slippage and fees. */
  lemma ParentExitFloor(c: Config, s: State, k: Candle)
    requires Inv(c, s) && ParentTakeProfitHit(c, s, k)
    ensures var t := ParentTakeProfit(c, s, k);
            && |t.trades| == |s.trades| + 1
            && t.trades[|s.trades|].kind == ParentExit
            && t.trades[|s.trades|].realizedPnl.Some?
            && t.trades[|s.trades|].realizedPnl.value >= s.parentCost * Floor(c, c.takeProfitPercent.value)
  {
    ProceedsFloor(c, s.parentQuantity, s.parentCost, c.takeProfitPercent.value, k.close);
  }

  /** So does every independent lot sold at its own take profit. */
  lemma LotExitFloor(c: Config, s: State, k: Candle, i: nat)
    requires Inv(c, s) && i < |s.lots| && LotTakeProfitHit(c, s.lots[i], k)
    ensures var t := SellLot(c, s, i, k.close);
            && |t.trades| == |s.trades| + 1
            && t.trades[|s.trades|].kind == IndependentExit && t.trades[|s.trades|].level == s.lots[i].level
            && t.trades[|s.trades|].realizedPnl.Some?
            && t.trades[|s.trades|].realizedPnl.value >= s.lots[i].cost * Floor(c, c.subTakeProfitPercent)
  {
    ProceedsFloor(c, s.lots[i].quantity, s.lots[i].cost, c.subTakeProfitPercent, k.close);
  }

  lemma {:induction false} SellLotsCash(c: Config, s: State, price: real)
    ensures SellLots(c, s, price).cash == s.cash + NetProceeds(c, LotQuantities(s.lots), price)
    ensures SellLots(c, s, price).parentQuantity == s.parentQuantity && SellLots(c, s, price).parentCost == s.parentCost
    decreases |s.lots|
  {
    if s.lots == [] {
      assert NetProceeds(c, 0.0, price) == 0.0;
    } else {
      var n := |s.lots| - 1;
      var next := SellLot(c, s, n, price);
      assert next.lots == s.lots[..n];
      SellLotsCash(c, next, price);
      ProceedsAdd(c, LotQuantities(s.lots[..n]), s.lots[n].quantity, price);
    }
  }

  lemma ProceedsAdd(c: Config, a: real, b: real, price: real)
    ensures NetProceeds(c, a + b, price) == NetProceeds(c, a, price) + NetProceeds(c, b, price)
  {
    var p := price * SellFactor(c);
    Distribute(a, b, p);
    Distribute(a * p, b * p, FeeRate(c));
  }

  /** A basket sale turns the whole basket into cash at one price. */
  lemma SellBasketCash(c: Config, s: State, level: nat, price: real)
    requires Inv(c, s) && price > 0.0
    ensures SellBasket(c, s, level, price).cash == s.cash + NetProceeds(c, BasketQuantity(s), price)
  {
    SellLotsCash(c, s, price);
    ProceedsAdd(c, s.parentQuantity, LotQuantities(s.lots), price);
    assert NetProceeds(c, 0.0, price) == 0.0;
    hide NetProceeds, SellLots, LotQuantities, ExitTrade;
  }

  /**
   Closing a recovery basket meets the floor for the sum of all its legs, even
   though single legs may lose.
   */
  lemma RecoveryExitFloor(c: Config, s: State, k: Candle)
    requires Inv(c, s) && RecoveryTakeProfitHit(c, s, k)
    ensures Realized(RecoveryTakeProfit(c, s, k).trades) - Realized(s.trades)
         >= Exposure(s) * Floor(c, c.recovery.takeProfitPercent)
  {
    SellBasketRealized(c, s, c.maxEntries + s.recoveryCount, k.close);
    BasketFloor(c, s, k.close);
  }

  lemma BasketFloor(c: Config, s: State, price: real)
    requires BasketQuantity(s) > 0.0
    requires price >= Exposure(s) / BasketQuantity(s) * (1.0 + c.recovery.takeProfitPercent / 100.0)
    ensures NetProceeds(c, BasketQuantity(s), price) - Exposure(s) >= Exposure(s) * Floor(c, c.recovery.takeProfitPercent)
  {
    ProceedsFloor(c, BasketQuantity(s), Exposure(s), c.recovery.takeProfitPercent, price);
  }

  /** The results of a basket sale's legs add up to its proceeds less its cost. */
  lemma SellBasketRealized(c: Config, s: State, level: nat, price: real)
    requires Inv(c, s) && price > 0.0
    ensures Realized(SellBasket(c, s, level, price).trades) - Realized(s.trades)
         == NetProceeds(c, BasketQuantity(s), price) - Exposure(s)
  {
    var t := SellBasket(c, s, level, price);
    SellBasketInv(c, s, level, price);
    SellBasketCash(c, s, level, price);
    assert Exposure(t) == 0.0;
  }

  /** Whoever holds coins has paid for them. */
  lemma ExposurePositive(c: Config, s: State)
    requires Inv(c, s) && BasketQuantity(s) > 0.0
    ensures Exposure(s) > 0.0
  {
    LotSums(s.lots);
  }

  /** With a positive net floor, a recovery basket close is never a loss. */
  lemma RecoveryClosePays(c: Config, s: State, k: Candle)
    requires Inv(c, s) && RecoveryTakeProfitHit(c, s, k)
    requires Floor(c, c.recovery.takeProfitPercent) > 0.0
    ensures Realized(RecoveryTakeProfit(c, s, k).trades) > Realized(s.trades)
  {
    ExposurePositive(c, s);
    hide Inv, Exposure, Floor, Realized, RecoveryTakeProfit;
    RecoveryExitFloor(c, s, k);
    ProductPositive(Exposure(s), Floor(c, c.recovery.takeProfitPercent));
  }
}
