/**
 The DCA backtest simulator's transition function: what one candle does to the
 account, phase by phase, in the source's order. `SimulatorLoop` runs it step
 by step; `SimulatorLaws` and its companions prove what every run keeps.
 Amounts are exact reals; string formatting is not modelled. A division is
 guarded where its divisor is zero in no reachable state.
 */
module Simulator {
  import opened Reals
  import Recovery

  datatype Parameters = Parameters(
    initialCapital: real,
    maxEntries: nat,
    independentFrom: nat,
    priceDeviationPercent: real,
    volumeMultiplier: real,
    volumeMultipliers: seq<real>,
    takeProfitPercent: Option<real>,
    subTriggerPercent: real,
    subTakeProfitPercent: real,
    feePercent: real,
    slippagePercent: real,
    riskBudget: Option<real>,
    baseOrder: Option<real>,
    recovery: Recovery.Config,
    continuousCycles: bool,
    dipEntry: bool,
    dcaRequiresConfirmation: bool,
    stopLossPercent: Option<real>)

  /** A closed candle: its close, and what the entry rule says on it (with and without the dip). */
  datatype Bar = Bar(close: real, dipSignal: bool, bounceSignal: bool)

  /** The checks on the settings before the first candle. */
  predicate Settings(c: Parameters) {
    && c.maxEntries >= 1
    && 2 <= c.independentFrom <= c.maxEntries + 1
    && Recovery.Normal(c.recovery)
    && c.initialCapital > 0.0
    && c.priceDeviationPercent > 0.0
    && c.volumeMultiplier >= 1.0
    && (forall i :: 0 <= i < |c.volumeMultipliers| ==> c.volumeMultipliers[i] > 0.0)
    && (c.takeProfitPercent.Some? ==> c.takeProfitPercent.value > 0.0)
    && 0.0 <= c.feePercent < 100.0
    && 0.0 <= c.slippagePercent < 100.0
    && (c.riskBudget.Some? ==> c.riskBudget.value > 0.0)
    && (c.baseOrder.Some? ==> c.baseOrder.value > 0.0)
    && (c.riskBudget.Some? <==> c.baseOrder.Some?)
    && (c.stopLossPercent.Some? ==> 0.0 < c.stopLossPercent.value < 100.0)
  }

  /** A run is refused unless its settings pass and every close is positive. */
  predicate Accepts(c: Parameters, bars: seq<Bar>) {
    bars != [] && Settings(c) && forall i :: 0 <= i < |bars| ==> bars[i].close > 0.0
  }

  const NO_RECOVERY := Recovery.Config(false, 0, [], [], 1.5)
  const EXAMPLE := Parameters(1000.0, 1, 2, 3.0, 1.0, [], None, 3.0, 1.5, 0.0, 0.0, None, None, NO_RECOVERY, false, false, false, None)

  /** Accepted settings, and candles with a positive close. */
  type Config = c: Parameters | Settings(c) witness EXAMPLE
  type Candle = k: Bar | k.close > 0.0 witness Bar(1.0, false, false)

  datatype TradeType = ParentEntry | IndependentEntry | RecoveryEntry | ParentExit | IndependentExit

  datatype Trade = Trade(
    kind: TradeType, level: nat, price: real, quantity: real, quoteAmount: real, feeQuote: real, realizedPnl: Option<real>)

  datatype Lot = Lot(level: nat, quantity: real, cost: real)

  datatype EquityPoint = EquityPoint(equity: real, drawdownPercent: real)

  /**
   The simulator's variables. The last two only observe: the open cost after
   each trade, and the close of the cycle's first buy.
   */
  datatype State = State(
    cash: real,
    parentQuantity: real,
    parentCost: real,
    lots: seq<Lot>,
    trades: seq<Trade>,
    entries: nat,
    entryTrades: nat,
    exits: nat,
    peakEquity: real,
    maxDrawdownPercent: real,
    cycleEntryPrice: real,
    lastEntryPrice: real,
    recoveryMode: bool,
    recoveryCount: nat,
    anchorPrice: Option<real>,
    awaitingNewCycle: bool,
    equityPoints: seq<EquityPoint>,
    cycleCount: nat,
    stopLossCount: nat,
    exposures: seq<real>,
    firstEntryPrice: real)

  function Init(c: Config, firstClose: real): State {
    State(c.initialCapital, 0.0, 0.0, [], [], 0, 0, 0, c.initialCapital, 0.0, firstClose, firstClose,
          false, 0, None, false, [], 0, 0, [], firstClose)
  }

  function LotCosts(lots: seq<Lot>): real {
    if lots == [] then 0.0 else LotCosts(lots[..|lots| - 1]) + lots[|lots| - 1].cost
  }

  function LotQuantities(lots: seq<Lot>): real {
    if lots == [] then 0.0 else LotQuantities(lots[..|lots| - 1]) + lots[|lots| - 1].quantity
  }

  function LotValues(lots: seq<Lot>, price: real): real {
    if lots == [] then 0.0 else LotValues(lots[..|lots| - 1], price) + lots[|lots| - 1].quantity * price
  }

  function Exposure(s: State): real {
    s.parentCost + LotCosts(s.lots)
  }

  function BasketQuantity(s: State): real {
    s.parentQuantity + LotQuantities(s.lots)
  }

  /* ---- Rates and sizes ---- */

  function FeeRate(c: Config): real { c.feePercent / 100.0 }
  function BuyFactor(c: Config): real { 1.0 + c.slippagePercent / 100.0 }
  function SellFactor(c: Config): real { 1.0 - c.slippagePercent / 100.0 }

  function TotalWeight(c: Config, n: nat): real {
    if n == 0 then 0.0 else TotalWeight(c, n - 1) + Power(c.volumeMultiplier, n - 1)
  }

  /** Size multiple of the ladder buy that follows `entries` earlier ones. */
  function EntryMultiplier(c: Config, entries: nat): real {
    if entries == 0 then 1.0
    else if entries - 1 < |c.volumeMultipliers| then c.volumeMultipliers[entries - 1]
    else Power(c.volumeMultiplier, entries)
  }

  function Allocation(c: Config, entries: nat): real
  {
    WeightPositive(c, c.maxEntries);
    if c.baseOrder.None?
    then c.initialCapital * Power(c.volumeMultiplier, entries) / TotalWeight(c, c.maxEntries)
    else c.baseOrder.value * EntryMultiplier(c, entries)
  }

  lemma {:induction false} WeightPositive(c: Config, n: nat)
    requires n >= 1
    ensures TotalWeight(c, n) > 0.0
  {
    PowerPositive(c.volumeMultiplier, n - 1);
    if n > 1 { WeightPositive(c, n - 1); }
  }

  function RiskRemaining(c: Config, s: State): real {
    if c.riskBudget.None? then s.cash else Max(c.riskBudget.value - Exposure(s), 0.0)
  }

  /* ---- The account's elementary moves ---- */

  /** Cash is paid out; the fee comes off before coins are bought at the slipped price. */
  function Bought(c: Config, spend: real, price: real): real
    requires price * BuyFactor(c) != 0.0
  {
    (spend - spend * FeeRate(c)) / (price * BuyFactor(c))
  }

  function EntryTrade(c: Config, kind: TradeType, level: nat, spend: real, price: real): Trade
    requires price * BuyFactor(c) != 0.0
  {
    Trade(kind, level, price * BuyFactor(c), Bought(c, spend, price), spend, spend * FeeRate(c), None)
  }

  function BuyParent(c: Config, s: State, kind: TradeType, level: nat, spend: real, price: real): State
    requires price * BuyFactor(c) != 0.0
  {
    s.(cash := s.cash - spend,
       parentQuantity := s.parentQuantity + Bought(c, spend, price),
       parentCost := s.parentCost + spend,
       trades := s.trades + [EntryTrade(c, kind, level, spend, price)],
       entryTrades := s.entryTrades + 1,
       exposures := s.exposures + [Exposure(s) + spend])
  }

  function BuyLot(c: Config, s: State, level: nat, spend: real, price: real): State
    requires price * BuyFactor(c) != 0.0
  {
    s.(cash := s.cash - spend,
       lots := s.lots + [Lot(level, Bought(c, spend, price), spend)],
       trades := s.trades + [EntryTrade(c, IndependentEntry, level, spend, price)],
       entryTrades := s.entryTrades + 1,
       exposures := s.exposures + [Exposure(s) + spend])
  }

  function GrossProceeds(c: Config, quantity: real, price: real): real {
    quantity * (price * SellFactor(c))
  }

  function NetProceeds(c: Config, quantity: real, price: real): real {
    GrossProceeds(c, quantity, price) - GrossProceeds(c, quantity, price) * FeeRate(c)
  }

  function ExitTrade(c: Config, kind: TradeType, level: nat, quantity: real, cost: real, price: real): Trade {
    Trade(kind, level, price * SellFactor(c), quantity, GrossProceeds(c, quantity, price),
          GrossProceeds(c, quantity, price) * FeeRate(c), Some(NetProceeds(c, quantity, price) - cost))
  }

  function SellParent(c: Config, s: State, level: nat, price: real): State {
    s.(cash := s.cash + NetProceeds(c, s.parentQuantity, price),
       parentQuantity := 0.0,
       parentCost := 0.0,
       trades := s.trades + [ExitTrade(c, ParentExit, level, s.parentQuantity, s.parentCost, price)],
       exits := s.exits + 1,
       exposures := s.exposures + [LotCosts(s.lots)])
  }

  function WithoutLot(lots: seq<Lot>, i: nat): seq<Lot>
    requires i < |lots|
  {
    lots[..i] + lots[i + 1..]
  }

  function SellLot(c: Config, s: State, i: nat, price: real): State
    requires i < |s.lots|
  {
    var lot := s.lots[i];
    s.(cash := s.cash + NetProceeds(c, lot.quantity, price),
       lots := WithoutLot(s.lots, i),
       trades := s.trades + [ExitTrade(c, IndependentExit, lot.level, lot.quantity, lot.cost, price)],
       exits := s.exits + 1,
       exposures := s.exposures + [s.parentCost + LotCosts(WithoutLot(s.lots, i))])
  }

  /* ---- Phases of one candle ---- */

  function BeginCandle(c: Config, s: State, k: Candle): State {
    if c.continuousCycles && s.awaitingNewCycle
    then s.(entries := 0, recoveryMode := false, recoveryCount := 0, anchorPrice := None,
            cycleEntryPrice := k.close, lastEntryPrice := k.close, awaitingNewCycle := false)
    else s
  }

  function LadderTrigger(c: Config, s: State): real {
    var percent := if s.entries + 1 >= c.independentFrom then c.subTriggerPercent else c.priceDeviationPercent;
    if s.entries == 0 then s.cycleEntryPrice else s.lastEntryPrice * (1.0 - percent / 100.0)
  }

  function LadderSpend(c: Config, s: State): real
  {
    Min(Min(Allocation(c, s.entries), s.cash), RiskRemaining(c, s))
  }

  /** A dip entry that fires sets the cycle's reference price. */
  function Arm(c: Config, s: State, k: Candle): State {
    if s.entries == 0 && c.dipEntry then s.(cycleEntryPrice := k.close) else s
  }

  predicate LadderBlocked(c: Config, s: State, k: Candle)
  {
    || k.close > LadderTrigger(c, s)
    || (s.entries > 0 && c.dcaRequiresConfirmation && !k.bounceSignal)
    || LadderSpend(c, s) <= 0.0
    || LadderSpend(c, s) - LadderSpend(c, s) * FeeRate(c) <= 0.0
    || k.close * BuyFactor(c) <= 0.0
  }

  function LadderBuy(c: Config, s: State, k: Candle): State
    requires !LadderBlocked(c, s, k)
  {
    var level := s.entries + 1;
    var bought := if level >= c.independentFrom
                  then BuyLot(c, s, level, LadderSpend(c, s), k.close)
                  else BuyParent(c, s, ParentEntry, level, LadderSpend(c, s), k.close);
    bought.(entries := level, lastEntryPrice := k.close,
            firstEntryPrice := if s.entries == 0 then k.close else s.firstEntryPrice)
  }

  function Ladder(c: Config, s: State, k: Candle): State
    decreases c.maxEntries - s.entries
  {
    if s.recoveryMode || s.entries >= c.maxEntries then s
    else if s.entries == 0 && c.dipEntry && !k.dipSignal then s
    else if LadderBlocked(c, Arm(c, s, k), k) then Arm(c, s, k)
    else Ladder(c, LadderBuy(c, Arm(c, s, k), k), k)
  }

  /** Index of the first lot at a level, or the length when there is none. */
  function FindLot(lots: seq<Lot>, level: nat): (i: nat)
    ensures i <= |lots|
    ensures i < |lots| ==> lots[i].level == level
  {
    if lots == [] then 0 else if lots[0].level == level then 0 else 1 + FindLot(lots[1..], level)
  }

  function SetAnchor(c: Config, s: State): State {
    var i := FindLot(s.lots, c.independentFrom);
    if !s.recoveryMode && i < |s.lots| && c.recovery.enabled && s.lots[i].quantity != 0.0
    then s.(anchorPrice := Some(s.lots[i].cost / s.lots[i].quantity))
    else s
  }

  function RecoveryBase(c: Config): real
  {
    WeightPositive(c, c.maxEntries);
    if c.baseOrder.Some? then c.baseOrder.value else c.initialCapital / TotalWeight(c, c.maxEntries)
  }

  function RecoveryLeg(c: Config, s: State): Recovery.NextLegResult
    requires s.anchorPrice.Some?
  {
    Recovery.NextLeg(c.recovery, s.recoveryCount, s.anchorPrice.value, RecoveryBase(c), Min(RiskRemaining(c, s), s.cash))
  }

  function RecoverySpend(c: Config, s: State): real
    requires s.anchorPrice.Some? && RecoveryLeg(c, s).Leg?
  {
    Min(Min(RecoveryLeg(c, s).quoteAmount, s.cash), RiskRemaining(c, s))
  }

  predicate RecoveryFires(c: Config, s: State, k: Candle)
  {
    && s.anchorPrice.Some? && c.recovery.enabled
    && RecoveryLeg(c, s).Leg?
    && k.close <= RecoveryLeg(c, s).triggerPrice && RecoveryLeg(c, s).quoteAmount > 0.0
    && !(c.dcaRequiresConfirmation && !k.bounceSignal)
    && RecoverySpend(c, s) > 0.0
    && RecoverySpend(c, s) - RecoverySpend(c, s) * FeeRate(c) > 0.0
    && k.close * BuyFactor(c) > 0.0
  }

  function RecoveryBuy(c: Config, s: State, k: Candle): State
    requires RecoveryFires(c, s, k)
  {
    BuyParent(c, s, RecoveryEntry, c.maxEntries + s.recoveryCount + 1, RecoverySpend(c, s), k.close)
      .(recoveryMode := true, recoveryCount := s.recoveryCount + 1)
  }

  function RecoveryBuys(c: Config, s: State, k: Candle): State
    decreases c.recovery.maxOrders - s.recoveryCount
  {
    if !RecoveryFires(c, s, k) then s else RecoveryBuys(c, RecoveryBuy(c, s, k), k)
  }

  /** Sells every lot, the last one first. */
  function SellLots(c: Config, s: State, price: real): State
    decreases |s.lots|
  {
    if s.lots == [] then s else SellLots(c, SellLot(c, s, |s.lots| - 1, price), price)
  }

  function SellBasket(c: Config, s: State, parentLevel: nat, price: real): State {
    var sold := SellLots(c, s, price);
    var flat := if sold.parentQuantity > 0.0 then SellParent(c, sold, parentLevel, price) else sold;
    flat.(recoveryMode := false, recoveryCount := 0, anchorPrice := None)
  }

  /** The level a parent exit is reported at. */
  function ParentLevel(c: Config, entries: nat): nat {
    var capped := if entries < c.independentFrom - 1 then entries as int else c.independentFrom - 1;
    if capped < 1 then 1 else capped
  }

  predicate StopLossHit(c: Config, s: State, k: Candle) {
    && c.stopLossPercent.Some?
    && BasketQuantity(s) > 0.0
    && k.close <= Exposure(s) / BasketQuantity(s) * (1.0 - c.stopLossPercent.value / 100.0)
  }

  function StopOut(c: Config, s: State, k: Candle): State {
    SellBasket(c, s, ParentLevel(c, s.entries), k.close).(stopLossCount := s.stopLossCount + 1)
  }

  predicate RecoveryTakeProfitHit(c: Config, s: State, k: Candle) {
    && BasketQuantity(s) > 0.0
    && k.close >= Exposure(s) / BasketQuantity(s) * (1.0 + c.recovery.takeProfitPercent / 100.0)
  }

  function RecoveryTakeProfit(c: Config, s: State, k: Candle): State {
    if RecoveryTakeProfitHit(c, s, k) then SellBasket(c, s, c.maxEntries + s.recoveryCount, k.close) else s
  }

  predicate ParentTakeProfitHit(c: Config, s: State, k: Candle) {
    && c.takeProfitPercent.Some?
    && s.parentQuantity > 0.0
    && k.close >= s.parentCost / s.parentQuantity * (1.0 + c.takeProfitPercent.value / 100.0)
  }

  function ParentTakeProfit(c: Config, s: State, k: Candle): State {
    if ParentTakeProfitHit(c, s, k) then SellParent(c, s, ParentLevel(c, s.entries), k.close) else s
  }

  predicate LotTakeProfitHit(c: Config, lot: Lot, k: Candle) {
    lot.quantity > 0.0 && k.close >= lot.cost / lot.quantity * (1.0 + c.subTakeProfitPercent / 100.0)
  }

  /** Scans the lots below index i from the end, selling those at their own take profit. */
  function LotTakeProfits(c: Config, s: State, k: Candle, i: nat): State
    requires i <= |s.lots|
    decreases i
  {
    if i == 0 then s
    else
      var next := if LotTakeProfitHit(c, s.lots[i - 1], k) then SellLot(c, s, i - 1, k.close) else s;
      LotTakeProfits(c, next, k, i - 1)
  }

  function TakeProfit(c: Config, s: State, k: Candle): State {
    if c.takeProfitPercent.None? then s
    else if s.recoveryMode then RecoveryTakeProfit(c, s, k)
    else
      var t := ParentTakeProfit(c, s, k);
      LotTakeProfits(c, t, k, |t.lots|)
  }

  function Exits(c: Config, s: State, k: Candle): State {
    if StopLossHit(c, s, k) then StopOut(c, s, k) else TakeProfit(c, s, k)
  }

  function EndCycle(c: Config, s: State): State {
    if c.continuousCycles && s.entries > 0 && s.parentQuantity <= 0.0 && s.lots == []
    then s.(cycleCount := if s.awaitingNewCycle then s.cycleCount else s.cycleCount + 1, awaitingNewCycle := true)
    else s
  }

  function EquityAt(s: State, price: real): real {
    s.cash + s.parentQuantity * price + LotValues(s.lots, price)
  }

  function DrawdownPercent(peak: real, equity: real): real {
    if peak == 0.0 then 0.0 else (peak - equity) / peak * 100.0
  }

  function Mark(s: State, k: Candle): State {
    var equity := EquityAt(s, k.close);
    var peak := Max(s.peakEquity, equity);
    var drawdown := DrawdownPercent(peak, equity);
    s.(peakEquity := peak,
       maxDrawdownPercent := Max(s.maxDrawdownPercent, drawdown),
       equityPoints := s.equityPoints + [EquityPoint(equity, drawdown)])
  }

  /* ---- Whole candles and whole runs ---- */

  /** The buying half of a candle. */
  function Buying(c: Config, s: State, k: Candle): State {
    RecoveryBuys(c, SetAnchor(c, Ladder(c, BeginCandle(c, s, k), k)), k)
  }

  /** Everything before the candle's equity point. */
  function Trading(c: Config, s: State, k: Candle): State {
    EndCycle(c, Exits(c, Buying(c, s, k), k))
  }

  function Step(c: Config, s: State, k: Candle): State {
    Mark(Trading(c, s, k), k)
  }

  /** The state after the first n candles. */
  function Run(c: Config, candles: seq<Candle>, n: nat): State
    requires 0 < |candles| && n <= |candles|
    decreases n
  {
    if n == 0 then Init(c, candles[0].close) else Step(c, Run(c, candles, n - 1), candles[n - 1])
  }
}
