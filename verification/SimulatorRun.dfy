/** Whole runs of the simulator, candle by candle. */
module SimulatorRun {
  import opened Simulator
  import opened SimulatorLaws
  import opened Drawdown
  import opened SimulatorLadder
  import RiskBudget

  /**
   What holds between candles: the account invariant, the reported drawdown is
   the largest drop of the equity curve, and the ladder follows its spacing and
   its plan.
   */
  ghost predicate Sound(c: Config, s: State) {
    Inv(c, s) && Tracked(c, s) && Scheduled(c, s)
  }

  lemma StepSound(c: Config, s: State, k: Candle)
    requires Sound(c, s)
    ensures Sound(c, Step(c, s, k))
  {
    hide Trading, Tracked, Scheduled;
    var traded := Trading(c, s, k);
    TradingInv(c, s, k);
    EquityPositive(c, traded, k.close);
    TrackedSame(c, s, traded);
    TrackedMark(c, traded, k);
    InvIgnoresPrices(c, traded, Mark(traded, k));
    TradingScheduled(c, s, k);
    MarkScheduled(c, traded, Mark(traded, k));
  }

  lemma InitSound(c: Config, close: real)
    ensures Sound(c, Init(c, close))
  {
    InitInv(c, close);
    TrackedInit(c, close);
  }

  /** Every reachable state, whatever the candles, settings and entry signals. */
  lemma {:induction false} RunSound(c: Config, candles: seq<Candle>, n: nat)
    requires 0 < |candles| && n <= |candles|
    ensures Sound(c, Run(c, candles, n))
    decreases n
  {
    hide Sound, Step, Init;
    if n == 0 {
      InitSound(c, candles[0].close);
    } else {
      RunSound(c, candles, n - 1);
      StepSound(c, Run(c, candles, n - 1), candles[n - 1]);
    }
  }

  /** The reported drawdown is the largest loss between any two points of the equity curve, in order, and less than everything. */
  lemma DrawdownIsLargestDrop(c: Config, candles: seq<Candle>, n: nat)
    requires 0 < |candles| && n <= |candles|
    ensures var s := Run(c, candles, n);
            && Positive(Curve(c, s)) && IsMaxDrop(Curve(c, s), s.maxDrawdownPercent)
            && 0.0 <= s.maxDrawdownPercent < 100.0
  {
    RunSound(c, candles, n);
    hide Run, Inv, Scheduled, IsMaxDrop, Positive, IsPeak;
  }

  /** Until the first exit or recovery buy of a funded run, every spend is the unrounded planned amount of its level. */
  lemma LadderSpendsThePlan(c: Config, candles: seq<Candle>, n: nat, i: nat)
    requires 0 < |candles| && n <= |candles| && Funded(c) && OnlyLadder(Run(c, candles, n).trades)
    requires i < |Run(c, candles, n).trades|
    ensures Run(c, candles, n).trades[i].quoteAmount == RiskBudget.Amount(PlanOf(c), i + 1)
  {
    RunSound(c, candles, n);
    hide Run, Inv, Tracked, Spaced, RiskBudget.Amount, OnlyLadder, PlanOf;
  }
}
