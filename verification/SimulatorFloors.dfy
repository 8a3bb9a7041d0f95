/** The floor under take-profit exits, for every exit that a scan emits and over whole runs. */
module SimulatorFloors {
  import opened Reals
  import opened Simulator
  import opened SimulatorLaws
  import opened Drawdown
  import opened SimulatorLadder
  import opened SimulatorRun
  import opened SimulatorResults

  /** What had been paid for what an exit sells: its net proceeds less its result. */
  function CostOf(t: Trade): real
    requires t.realizedPnl.Some?
  {
    t.quoteAmount - t.feeQuote - t.realizedPnl.value
  }

  /** An exit realises at least its configured gain over cost, net of slippage and fee. */
  predicate MeetsFloor(c: Config, t: Trade) {
    match t.kind
    case ParentExit =>
      t.realizedPnl.Some? && c.takeProfitPercent.Some? && t.realizedPnl.value >= CostOf(t) * Floor(c, c.takeProfitPercent.value)
    case IndependentExit =>
      t.realizedPnl.Some? && t.realizedPnl.value >= CostOf(t) * Floor(c, c.subTakeProfitPercent)
    case _ => true
  }

  /** All trades from a place in the log on. */
  predicate MeetFrom(c: Config, trades: seq<Trade>, from: nat) {
    forall n :: from <= n < |trades| ==> MeetsFloor(c, trades[n])
  }

  lemma SoldLotMeets(c: Config, s: State, k: Candle, i: nat, from: nat)
    requires Inv(c, s) && i < |s.lots| && LotTakeProfitHit(c, s.lots[i], k) && MeetFrom(c, s.trades, from)
    ensures MeetFrom(c, SellLot(c, s, i, k.close).trades, from)
  {
    LotExitFloor(c, s, k, i);
    var t := SellLot(c, s, i, k.close).trades[|s.trades|];
    assert CostOf(t) == s.lots[i].cost;
    hide Floor, Inv;
  }

  /** Every lot that the scan sells meets the floor, wherever it stands in the list that shrinks meanwhile. */
  lemma {:induction false} ScanMeetsFloors(c: Config, s: State, k: Candle, i: nat, from: nat)
    requires Inv(c, s) && i <= |s.lots| && MeetFrom(c, s.trades, from)
    ensures MeetFrom(c, LotTakeProfits(c, s, k, i).trades, from)
    decreases i
  {
    hide Inv, LotTakeProfitHit, MeetFrom;
    if i > 0 {
      if LotTakeProfitHit(c, s.lots[i - 1], k) {
        SoldLotMeets(c, s, k, i - 1, from);
        SellLotInv(c, s, i - 1, k.close);
        ScanMeetsFloors(c, SellLot(c, s, i - 1, k.close), k, i - 1, from);
      } else {
        ScanMeetsFloors(c, s, k, i - 1, from);
      }
    }
  }

  lemma ParentMeets(c: Config, s: State, k: Candle, from: nat)
    requires Inv(c, s) && MeetFrom(c, s.trades, from)
    ensures MeetFrom(c, ParentTakeProfit(c, s, k).trades, from)
  {
    if ParentTakeProfitHit(c, s, k) {
      ParentExitFloor(c, s, k);
      var t := ParentTakeProfit(c, s, k).trades[|s.trades|];
      assert CostOf(t) == s.parentCost;
    }
    hide Floor, Inv;
  }

  /** Outside recovery mode, everything a candle sells at a take profit meets its floor. */
  lemma TakeProfitMeetsFloors(c: Config, s: State, k: Candle, from: nat)
    requires Inv(c, s) && !s.recoveryMode && MeetFrom(c, s.trades, from)
    ensures MeetFrom(c, TakeProfit(c, s, k).trades, from)
  {
    hide Inv, ParentTakeProfit, LotTakeProfits, MeetFrom;
    ParentMeets(c, s, k, from);
    ParentTakeProfitInv(c, s, k);
    var t := ParentTakeProfit(c, s, k);
    ScanMeetsFloors(c, t, k, |t.lots|, from);
  }

  /* ---- Every candle of every run ---- */

  /** What the exits of a candle add to the log: nothing by the stop-loss rule, a basket close, or single exits. */
  predicate ExitsPay(c: Config, s: State, k: Candle) {
    var t := Exits(c, s, k);
    if StopLossHit(c, s, k) then true
    else if s.recoveryMode then t == s || Realized(t.trades) - Realized(s.trades) >= Exposure(s) * Floor(c, c.recovery.takeProfitPercent)
    else MeetFrom(c, t.trades, |s.trades|)
  }

  lemma ExitsOfStatePay(c: Config, s: State, k: Candle)
    requires Inv(c, s)
    ensures ExitsPay(c, s, k)
  {
    hide Inv, Floor, Realized, RecoveryTakeProfit, ParentTakeProfit, LotTakeProfits, StopOut, StopLossHit, MeetFrom, Exposure;
    assert MeetFrom(c, s.trades, |s.trades|) by { NothingNew(c, s.trades); }
    if s.recoveryMode {
      RecoveryExitPays(c, s, k);
    } else {
      TakeProfitMeetsFloors(c, s, k, |s.trades|);
    }
  }

  lemma NothingNew(c: Config, trades: seq<Trade>)
    ensures MeetFrom(c, trades, |trades|)
  {
  }

  lemma RecoveryExitPays(c: Config, s: State, k: Candle)
    requires Inv(c, s)
    ensures var t := RecoveryTakeProfit(c, s, k);
            t == s || Realized(t.trades) - Realized(s.trades) >= Exposure(s) * Floor(c, c.recovery.takeProfitPercent)
  {
    if RecoveryTakeProfitHit(c, s, k) { RecoveryExitFloor(c, s, k); }
    hide Inv, Floor, Realized, SellBasket, RecoveryTakeProfitHit, Exposure;
  }

  /**
   For all settings: whatever a run sells other than by its stop-loss meets a floor. Outside recovery mode
   every single exit does, and in recovery mode the sum over the basket.
   */
  lemma RunExitsPay(c: Config, candles: seq<Candle>, n: nat)
    requires n < |candles|
    ensures ExitsPay(c, Buying(c, Run(c, candles, n), candles[n]), candles[n])
  {
    StateKeepsAccount(c, candles, n);
    hide Inv, Run, ExitsPay, Buying;
    BuyingInv(c, Run(c, candles, n), candles[n]);
    ExitsOfStatePay(c, Buying(c, Run(c, candles, n), candles[n]), candles[n]);
  }

  /* ---- The whole log, when take profits are the only exits ---- */

  predicate OnlyTakesProfit(c: Config) {
    c.stopLossPercent.None? && !c.recovery.enabled
  }

  predicate Meets(c: Config, s: State) {
    MeetFrom(c, s.trades, 0) && !s.recoveryMode
  }

  lemma {:induction false} LadderMeets(c: Config, s: State, k: Candle)
    requires Meets(c, s)
    ensures Meets(c, Ladder(c, s, k))
    decreases c.maxEntries - s.entries
  {
    hide LadderBlocked, LadderSpend, Floor;
    if !s.recoveryMode && s.entries < c.maxEntries && !(s.entries == 0 && c.dipEntry && !k.dipSignal) && !LadderBlocked(c, Arm(c, s, k), k) {
      LadderMeets(c, LadderBuy(c, Arm(c, s, k), k), k);
    }
  }

  lemma BuyingMeets(c: Config, s: State, k: Candle)
    requires Meets(c, s) && !c.recovery.enabled
    ensures Meets(c, Buying(c, s, k))
  {
    LadderMeets(c, BeginCandle(c, s, k), k);
    hide Ladder, MeetFrom;
  }

  lemma ExitsMeet(c: Config, s: State, k: Candle)
    requires Inv(c, s) && Meets(c, s) && OnlyTakesProfit(c)
    ensures Meets(c, Exits(c, s, k))
  {
    TakeProfitMeetsFloors(c, s, k, 0);
    StaysOutOfRecovery(c, s, k);
    hide TakeProfit, Inv, MeetFrom;
  }

  lemma StaysOutOfRecovery(c: Config, s: State, k: Candle)
    requires !s.recoveryMode
    ensures !TakeProfit(c, s, k).recoveryMode
  {
    var t := ParentTakeProfit(c, s, k);
    ScanKeepsMode(c, t, k, |t.lots|);
  }

  lemma {:induction false} ScanKeepsMode(c: Config, s: State, k: Candle, i: nat)
    requires i <= |s.lots|
    ensures LotTakeProfits(c, s, k, i).recoveryMode == s.recoveryMode
    decreases i
  {
    hide LotTakeProfitHit;
    if i > 0 {
      ScanKeepsMode(c, if LotTakeProfitHit(c, s.lots[i - 1], k) then SellLot(c, s, i - 1, k.close) else s, k, i - 1);
    }
  }

  lemma StepMeets(c: Config, s: State, k: Candle)
    requires Inv(c, s) && Meets(c, s) && OnlyTakesProfit(c)
    ensures Meets(c, Step(c, s, k))
  {
    hide Inv, Exits, Buying, MeetFrom;
    BuyingInv(c, s, k);
    BuyingMeets(c, s, k);
    ExitsMeet(c, Buying(c, s, k), k);
  }

  lemma NothingSold(c: Config, candles: seq<Candle>)
    requires 0 < |candles|
    ensures Meets(c, Run(c, candles, 0))
  {
  }

  /** With neither a stop-loss nor recovery, every exit of a run meets its floor. */
  lemma {:induction false} RunMeetsFloors(c: Config, candles: seq<Candle>, n: nat)
    requires 0 < |candles| && n <= |candles| && OnlyTakesProfit(c)
    ensures Meets(c, Run(c, candles, n))
    decreases n
  {
    hide Inv, Step, Meets;
    if n == 0 {
      NothingSold(c, candles);
    } else {
      var s, k := Run(c, candles, n - 1), candles[n - 1];
      RunMeetsFloors(c, candles, n - 1);
      StateKeepsAccount(c, candles, n - 1);
      StepMeets(c, s, k);
    }
  }

  lemma StateKeepsAccount(c: Config, candles: seq<Candle>, n: nat)
    requires 0 < |candles| && n <= |candles|
    ensures Inv(c, Run(c, candles, n))
  {
    hide Inv, Run, Tracked, Scheduled;
    RunSound(c, candles, n);
  }
}
