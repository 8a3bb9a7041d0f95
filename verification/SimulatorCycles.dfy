/**
 Cycles. In continuous mode a candle that sells everything ends a cycle, and the
 next one starts another: from level one, at its own close, with no anchor.
 */
module SimulatorCycles {
  import opened Simulator
  import opened SimulatorLaws
  import opened SimulatorFloors
  import opened SimulatorExits
  import opened SimulatorEntries
  import SimulatorTrades

  /** Neither a cycle ended nor a new one began. */
  predicate SameCycle(s: State, t: State) {
    t.cycleCount == s.cycleCount && t.awaitingNewCycle == s.awaitingNewCycle
  }

  lemma {:induction false} LadderSameCycle(c: Config, s: State, k: Candle)
    ensures SameCycle(s, Ladder(c, s, k))
    decreases c.maxEntries - s.entries
  {
    hide LadderBlocked, LadderSpend;
    if !(s.recoveryMode || s.entries >= c.maxEntries || (s.entries == 0 && c.dipEntry && !k.dipSignal) || LadderBlocked(c, Arm(c, s, k), k)) {
      LadderSameCycle(c, LadderBuy(c, Arm(c, s, k), k), k);
    }
  }

  lemma {:induction false} RecoverySameCycle(c: Config, s: State, k: Candle)
    ensures SameCycle(s, RecoveryBuys(c, s, k))
    decreases c.recovery.maxOrders - s.recoveryCount
  {
    hide RecoverySpend;
    if RecoveryFires(c, s, k) { RecoverySameCycle(c, RecoveryBuy(c, s, k), k); }
  }

  lemma {:induction false} LotsSameCycle(c: Config, s: State, price: real)
    ensures SameCycle(s, SellLots(c, s, price))
    decreases |s.lots|
  {
    hide NetProceeds;
    if s.lots != [] { LotsSameCycle(c, SellLot(c, s, |s.lots| - 1, price), price); }
  }

  lemma {:induction false} ScanSameCycle(c: Config, s: State, k: Candle, i: nat)
    requires i <= |s.lots|
    ensures SameCycle(s, LotTakeProfits(c, s, k, i))
    decreases i
  {
    hide LotTakeProfitHit, NetProceeds;
    if i > 0 {
      ScanSameCycle(c, if LotTakeProfitHit(c, s.lots[i - 1], k) then SellLot(c, s, i - 1, k.close) else s, k, i - 1);
    }
  }

  lemma ExitsSameCycle(c: Config, s: State, k: Candle)
    ensures SameCycle(s, Exits(c, s, k))
  {
    hide SellLots, LotTakeProfits, StopLossHit, RecoveryTakeProfitHit, ParentTakeProfitHit, NetProceeds;
    LotsSameCycle(c, s, k.close);
    var t := ParentTakeProfit(c, s, k);
    ScanSameCycle(c, t, k, |t.lots|);
  }

  /** A cycle ends exactly with a candle after which, in continuous mode, levels were bought and nothing is held; each is counted. */
  lemma CyclesCounted(c: Config, candles: seq<Candle>, n: nat)
    requires n < |candles|
    ensures var s, t := Run(c, candles, n), Run(c, candles, n + 1);
            && (t.awaitingNewCycle <==> c.continuousCycles && t.entries > 0 && Flat(t))
            && t.cycleCount == s.cycleCount + (if t.awaitingNewCycle then 1 else 0)
  {
    var s, k := Run(c, candles, n), candles[n];
    StateKeepsAccount(c, candles, n);
    StateKeepsAccount(c, candles, n + 1);
    hide Solvent, Logged, LotCosts;
    var b := BeginCandle(c, s, k);
    var l := Ladder(c, b, k);
    var r := RecoveryBuys(c, SetAnchor(c, l), k);
    hide Ladder, RecoveryBuys, Exits, EquityAt, DrawdownPercent;
    LadderSameCycle(c, b, k);
    RecoverySameCycle(c, SetAnchor(c, l), k);
    ExitsSameCycle(c, r, k);
    assert !b.awaitingNewCycle;
    assert Run(c, candles, n + 1) == Step(c, s, k);
  }

  /* ---- The candle after the end of a cycle ---- */

  lemma NothingToSell(c: Config, s: State, k: Candle)
    requires Flat(s) && !s.recoveryMode
    ensures Exits(c, s, k) == s
  {
  }

  lemma NothingToBuy(c: Config, s: State, k: Candle)
    requires Flat(s) && !s.recoveryMode && s.anchorPrice.None? && s.entries == 0 && c.dipEntry && !k.dipSignal
    ensures RecoveryBuys(c, SetAnchor(c, Ladder(c, s, k)), k) == s
  {
  }

  lemma LogGrows(c: Config, s: State, k: Candle)
    ensures Ladder(c, BeginCandle(c, s, k), k).trades <= Step(c, s, k).trades
  {
    hide Ladder, RecoveryBuys, Exits, EquityAt, DrawdownPercent;
    var l := Ladder(c, BeginCandle(c, s, k), k);
    var r := RecoveryBuys(c, SetAnchor(c, l), k);
    SimulatorTrades.RecoveryTrades(c, SetAnchor(c, l), k);
    SimulatorTrades.ExitsTrade(c, r, k);
    hide SimulatorTrades.AccountIsLog, SimulatorTrades.PricedFrom;
  }

  /**
   After the end of a cycle the next candle trades if and only if it may enter: always without a dip rule, and
   otherwise on the dip. Its first trade is then the first level.
   */
  lemma NewCycleStarts(c: Config, candles: seq<Candle>, n: nat)
    requires n < |candles| && Run(c, candles, n).awaitingNewCycle
    ensures var s, t, enters := Run(c, candles, n), Run(c, candles, n + 1), c.dipEntry ==> candles[n].dipSignal;
            && (!enters ==> t.trades == s.trades)
            && (enters ==> |t.trades| > |s.trades| && t.trades[|s.trades|].level == 1 && t.trades[|s.trades|].kind.ParentEntry?)
  {
    var s, k := Run(c, candles, n), candles[n];
    StateKeepsAccount(c, candles, n);
    RunEntersExactly(c, candles, n);
    LogGrows(c, s, k);
    var b := BeginCandle(c, s, k);
    assert LotCosts([]) == 0.0;
    assert CanSpend(c, b) && Flat(b) && b.entries == 0 && b.anchorPrice.None? && !b.recoveryMode;
    hide Inv, RecoveryFollows, CanSpend, Least, Allocation;
    if c.dipEntry && !k.dipSignal {
      NothingToBuy(c, b, k);
      NothingToSell(c, b, k);
    }
    hide Ladder, RecoveryBuys, Exits, DrawdownPercent, EquityAt;
    assert Run(c, candles, n + 1) == Step(c, s, k);
  }
}
