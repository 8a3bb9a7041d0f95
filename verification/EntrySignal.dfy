/**
 The dip-and-confirmation entry rule: buy when the price has dropped far enough
 below the recent high and the latest closed candles confirm a bounce,
 optionally only after Wilder's RSI(14) was low enough.

 The live runner and the backtest hand different stretches of history to the
 same rule; the results below say when that cannot change the decision.
 */
module EntrySignal {
  import opened Reals

  datatype Candle = Candle(open: real, high: real, low: real, close: real)

  datatype ConfirmRule = GreenClose | CloseAbovePreviousHigh | ConsecutiveGreen

  datatype Timeframe = M1 | M3 | M5 | M15 | M30 | H1

  datatype Config = Config(dipPercent: real, dipLookbackMinutes: real, confirmTimeframe: Timeframe,
                           confirmRule: ConfirmRule, confirmCandles: real, rsiMax: Option<real>)

  /** The decision and, when it is negative, what the rule is waiting for. */
  datatype Signal =
    | Confirmed
    | NotEnoughCandles
    | WaitingForDrop(dropPercent: real)
    | WaitingForRsi(lowest: Option<real>)
    | WaitingForGreen(count: nat)
    | WaitingForHigherClose

  const RSI_PERIOD: nat := 14
  const MAX_SIGNAL_CANDLES: nat := 950

  /** MAX_SIGNAL_CANDLES less a margin of 60. */
  const MAX_LOOKBACK_CANDLES: real := 890.0

  function Minutes(t: Timeframe): (m: real)
    ensures m >= 1.0
  {
    match t
    case M1 => 1.0
    case M3 => 3.0
    case M5 => 5.0
    case M15 => 15.0
    case M30 => 30.0
    case H1 => 60.0
  }

  /** How many candles of the timeframe a stretch of minutes is, as a fraction. */
  function InCandles(minutes: real, t: Timeframe): (n: real)
  {
    match t
    case M1 => minutes
    case M3 => minutes / 3.0
    case M5 => minutes / 5.0
    case M15 => minutes / 15.0
    case M30 => minutes / 30.0
    case H1 => minutes / 60.0
  }

  function Ceiling(x: real): int {
    -((-x).Floor)
  }

  function AtLeastOne(k: int): (n: nat)
    ensures n >= 1
  {
    if k >= 1 then k else 1
  }

  function ConfirmationCount(c: Config): nat {
    if c.confirmRule.ConsecutiveGreen? then AtLeastOne(c.confirmCandles.Floor) else 1
  }

  function LookbackCandles(c: Config): nat {
    AtLeastOne(Ceiling(InCandles(c.dipLookbackMinutes, c.confirmTimeframe)))
  }

  /** Number of closed candles the rule needs to decide. */
  function RequiredCandles(c: Config): (n: nat)
  {
    var base := LookbackCandles(c) + ConfirmationCount(c) + 1;
    var withRsi := RSI_PERIOD * 3 + ConfirmationCount(c) + 4;
    if c.rsiMax.None? || base >= withRsi then base else withRsi
  }

  /* ---- Wilder's RSI ---- */

  function Up(closes: seq<real>, i: nat): (u: real)
    requires 0 < i < |closes|
    ensures u >= 0.0
  {
    Max(closes[i] - closes[i - 1], 0.0)
  }

  function Down(closes: seq<real>, i: nat): (d: real)
    requires 0 < i < |closes|
    ensures d >= 0.0
  {
    Max(closes[i - 1] - closes[i], 0.0)
  }

  function UpSum(closes: seq<real>, i: nat): (u: real)
    requires i < |closes|
    ensures u >= 0.0
  {
    if i == 0 then 0.0 else UpSum(closes, i - 1) + Up(closes, i)
  }

  function DownSum(closes: seq<real>, i: nat): (d: real)
    requires i < |closes|
    ensures d >= 0.0
  {
    if i == 0 then 0.0 else DownSum(closes, i - 1) + Down(closes, i)
  }

  /** Wilder's smoothing: a new sample weighs 1/period, the past the rest. */
  function Smooth(average: real, sample: real, period: nat): (s: real)
    requires period > 0 && average >= 0.0 && sample >= 0.0
    ensures s >= 0.0
  {
    (average * (period as real - 1.0) + sample) / period as real
  }

  function AverageGain(closes: seq<real>, period: nat, i: nat): (g: real)
    requires 0 < period <= i < |closes|
    ensures g >= 0.0
    decreases i
  {
    if i == period then UpSum(closes, i) / period as real
    else Smooth(AverageGain(closes, period, i - 1), Up(closes, i), period)
  }

  function AverageLoss(closes: seq<real>, period: nat, i: nat): (l: real)
    requires 0 < period <= i < |closes|
    ensures l >= 0.0
    decreases i
  {
    if i == period then DownSum(closes, i) / period as real
    else Smooth(AverageLoss(closes, period, i - 1), Down(closes, i), period)
  }

  function Index(gain: real, loss: real): real
    requires gain >= 0.0 && loss >= 0.0
  {
    if loss == 0.0 then 100.0 else
      assert gain / loss >= 0.0;
      100.0 - 100.0 / (1.0 + gain / loss)
  }

  /** The RSI of candle i: None before the warm-up period is over. */
  function Rsi(closes: seq<real>, period: nat, i: nat): Option<real>
    requires 0 < period && i < |closes|
  {
    if i < period then None else Some(Index(AverageGain(closes, period, i), AverageLoss(closes, period, i)))
  }

  /** The index is the share of gains in the total movement, in percent; no loss at all reads as 100. */
  lemma IndexIsShareOfGains(gain: real, loss: real)
    requires gain >= 0.0 && loss >= 0.0
    ensures 0.0 <= Index(gain, loss) <= 100.0
    ensures gain + loss > 0.0 ==> Index(gain, loss) * (gain + loss) == 100.0 * gain
    ensures Index(gain, loss) == 100.0 <==> loss == 0.0
  {
    if loss > 0.0 {
      var ratio := gain / loss;
      assert ratio * loss == gain;
      var part := 100.0 / (1.0 + ratio);
      assert part * (1.0 + ratio) == 100.0;
      assert 0.0 < part <= 100.0;
      assert part * (gain + loss) == 100.0 * loss by {
        assert gain + loss == (1.0 + ratio) * loss;
        Associate(part, 1.0 + ratio, loss);
      }
    }
  }

  lemma RsiBounds(closes: seq<real>, period: nat, i: nat)
    requires 0 < period <= i < |closes|
    ensures Rsi(closes, period, i).Some? && 0.0 <= Rsi(closes, period, i).value <= 100.0
  {
    IndexIsShareOfGains(AverageGain(closes, period, i), AverageLoss(closes, period, i));
  }

  function Mirrored(closes: seq<real>): (m: seq<real>)
    ensures |m| == |closes|
    ensures forall i :: 0 <= i < |closes| ==> m[i] == -closes[i]
  {
    if closes == [] then [] else [-closes[0]] + Mirrored(closes[1..])
  }

  lemma {:induction false} MirrorSwapsSums(closes: seq<real>, i: nat)
    requires i < |closes|
    ensures UpSum(Mirrored(closes), i) == DownSum(closes, i)
    ensures DownSum(Mirrored(closes), i) == UpSum(closes, i)
  {
    if i > 0 {
      MirrorSwapsSums(closes, i - 1);
    }
  }

  lemma {:induction false} MirrorSwapsAverages(closes: seq<real>, period: nat, i: nat)
    requires 0 < period <= i < |closes|
    ensures AverageGain(Mirrored(closes), period, i) == AverageLoss(closes, period, i)
    ensures AverageLoss(Mirrored(closes), period, i) == AverageGain(closes, period, i)
    decreases i
  {
    if i == period {
      MirrorSwapsSums(closes, i);
    } else {
      MirrorSwapsAverages(closes, period, i - 1);
      assert Up(Mirrored(closes), i) == Down(closes, i) && Down(Mirrored(closes), i) == Up(closes, i);
      StepOfAverages(closes, period, i);
      StepOfAverages(Mirrored(closes), period, i);
    }
  }

  lemma StepOfAverages(closes: seq<real>, period: nat, i: nat)
    requires 0 < period < i < |closes|
    ensures AverageGain(closes, period, i) == Smooth(AverageGain(closes, period, i - 1), Up(closes, i), period)
    ensures AverageLoss(closes, period, i) == Smooth(AverageLoss(closes, period, i - 1), Down(closes, i), period)
  {
  }

  /** Turning the price chart upside down turns the RSI upside down, as long as there was movement both ways. */
  lemma RsiMirror(closes: seq<real>, period: nat, i: nat)
    requires 0 < period <= i < |closes|
    requires AverageGain(closes, period, i) > 0.0 && AverageLoss(closes, period, i) > 0.0
    ensures Rsi(Mirrored(closes), period, i).Some?
    ensures Rsi(Mirrored(closes), period, i).value == 100.0 - Rsi(closes, period, i).value
  {
    MirrorSwapsAverages(closes, period, i);
    IndexMirror(AverageGain(closes, period, i), AverageLoss(closes, period, i));
  }

  lemma IndexMirror(g: real, l: real)
    requires g > 0.0 && l > 0.0
    ensures Index(l, g) == 100.0 - Index(g, l)
  {
    IndexIsShareOfGains(g, l);
    IndexIsShareOfGains(l, g);
    SharesAddUp(Index(g, l), Index(l, g), g, l);
  }

  lemma SharesAddUp(x: real, y: real, g: real, l: real)
    requires g + l > 0.0
    requires x * (g + l) == 100.0 * g && y * (l + g) == 100.0 * l
    ensures x + y == 100.0
  {
    Distribute(x, y, g + l);
    CancelFactor(x + y, 100.0, g + l);
  }

  /** The series filled in place, one smoothing step at a time. */
  method RsiSeries(closes: seq<real>, period: nat) returns (series: seq<Option<real>>)
    requires period > 0
    ensures |series| == |closes|
    ensures forall i :: 0 <= i < |closes| ==> series[i] == Rsi(closes, period, i)
  {
    var result := new Option<real>[|closes|](_ => None);
    if |closes| <= period {
      return result[..];
    }
    var gain, loss := 0.0, 0.0;
    for index := 1 to period + 1
      invariant gain == UpSum(closes, index - 1) && loss == DownSum(closes, index - 1)
    {
      var change := closes[index] - closes[index - 1];
      if change >= 0.0 { gain := gain + change; } else { loss := loss - change; }
    }
    gain, loss := gain / period as real, loss / period as real;
    result[period] := Some(Index(gain, loss));
    for index := period + 1 to |closes|
      invariant gain == AverageGain(closes, period, index - 1) && loss == AverageLoss(closes, period, index - 1)
      invariant forall i :: 0 <= i < index ==> result[i] == Rsi(closes, period, i)
    {
      var change := closes[index] - closes[index - 1];
      gain := Smooth(gain, Max(change, 0.0), period);
      loss := Smooth(loss, Max(-change, 0.0), period);
      result[index] := Some(Index(gain, loss));
    }
    series := result[..];
  }

  /* ---- The decision ---- */

  function HighestHigh(cs: seq<Candle>): (h: real)
    requires cs != []
    ensures exists i :: 0 <= i < |cs| && cs[i].high == h
    ensures forall i :: 0 <= i < |cs| ==> cs[i].high <= h
  {
    if |cs| == 1 then cs[0].high else Max(cs[0].high, HighestHigh(cs[1..]))
  }

  function LowestLow(cs: seq<Candle>): (l: real)
    requires cs != []
    ensures exists i :: 0 <= i < |cs| && cs[i].low == l
    ensures forall i :: 0 <= i < |cs| ==> cs[i].low >= l
  {
    if |cs| == 1 then cs[0].low else Min(cs[0].low, LowestLow(cs[1..]))
  }

  /** The lowest RSI of candles lo..hi that has a value. */
  function LowestRsi(closes: seq<real>, lo: nat, hi: nat): (r: Option<real>)
    requires lo <= hi <= |closes|
    ensures forall i :: lo <= i < hi && Rsi(closes, RSI_PERIOD, i).Some? ==>
                          r.Some? && r.value <= Rsi(closes, RSI_PERIOD, i).value
    ensures r.Some? ==> exists i :: lo <= i < hi && Rsi(closes, RSI_PERIOD, i) == r
    decreases hi - lo
  {
    if lo == hi then None else
      var rest := LowestRsi(closes, lo + 1, hi);
      var first := Rsi(closes, RSI_PERIOD, lo);
      if first.None? || (rest.Some? && rest.value <= first.value) then rest else first
  }

  function Closes(cs: seq<Candle>): (closes: seq<real>)
    ensures |closes| == |cs|
    ensures forall i :: 0 <= i < |cs| ==> closes[i] == cs[i].close
  {
    if cs == [] then [] else [cs[0].close] + Closes(cs[1..])
  }

  predicate AllGreen(cs: seq<Candle>) {
    forall i :: 0 <= i < |cs| ==> cs[i].close > cs[i].open
  }

  function ConfirmationMet(closed: seq<Candle>, c: Config): Signal {
    var count := ConfirmationCount(c);
    if |closed| < count + 1 then NotEnoughCandles
    else if !AllGreen(closed[|closed| - count..]) then WaitingForGreen(count)
    else if c.confirmRule.CloseAbovePreviousHigh? && closed[|closed| - 1].close <= closed[|closed| - 2].high then
      WaitingForHigherClose
    else Confirmed
  }

  /** The candles that may hold the recent high: the look-back before the confirmation candles. */
  function DipWindow(closed: seq<Candle>, c: Config): (w: seq<Candle>)
    requires |closed| > ConfirmationCount(c)
    ensures w != []
  {
    var confirmStart := |closed| - ConfirmationCount(c);
    var from := if confirmStart > LookbackCandles(c) then confirmStart - LookbackCandles(c) else 0;
    closed[from..confirmStart]
  }

  /** The candles the bounce may start from: the confirmation candles and the one before them. */
  function BounceWindow(closed: seq<Candle>, c: Config): (w: seq<Candle>)
    requires |closed| > ConfirmationCount(c)
    ensures w != []
  {
    closed[|closed| - ConfirmationCount(c) - 1..]
  }

  function DropPercent(high: real, low: real): real {
    if high > 0.0 then PercentDrop(high, low) else 0.0
  }

  function Drop(closed: seq<Candle>, c: Config): real
    requires |closed| > ConfirmationCount(c)
  {
    DropPercent(HighestHigh(DipWindow(closed, c)), LowestLow(BounceWindow(closed, c)))
  }

  function RecentRsi(closed: seq<Candle>, c: Config): Option<real> {
    var tail := ConfirmationCount(c) + 4;
    LowestRsi(Closes(closed), if |closed| > tail then |closed| - tail else 0, |closed|)
  }

  function Evaluate(closed: seq<Candle>, c: Config, requireDip: bool): Signal {
    if |closed| < (if requireDip then RequiredCandles(c) else ConfirmationCount(c) + 1) then NotEnoughCandles
    else if requireDip && Drop(closed, c) < c.dipPercent then WaitingForDrop(Drop(closed, c))
    else if c.rsiMax.Some? && (RecentRsi(closed, c).None? || RecentRsi(closed, c).value > c.rsiMax.value) then
      WaitingForRsi(RecentRsi(closed, c))
    else ConfirmationMet(closed, c)
  }

  /* ---- What the measured drop means ---- */

  /**
   The drop is at least p percent exactly when some candle of the bounce lies p percent or more below
   some candle of the look-back. The two candles need not be the extreme ones.
   */
  lemma DropMeansSomePairDropped(closed: seq<Candle>, c: Config, p: real)
    requires |closed| > ConfirmationCount(c) && p > 0.0
    requires forall i :: 0 <= i < |closed| ==> closed[i].low >= 0.0
    ensures Drop(closed, c) >= p <==>
            exists i, j :: 0 <= i < |DipWindow(closed, c)| && 0 <= j < |BounceWindow(closed, c)| &&
                           DipWindow(closed, c)[i].high > 0.0 &&
                           DropPercent(DipWindow(closed, c)[i].high, BounceWindow(closed, c)[j].low) >= p
  {
    var w, b := DipWindow(closed, c), BounceWindow(closed, c);
    var high, low := HighestHigh(w), LowestLow(b);
    var i0 :| 0 <= i0 < |w| && w[i0].high == high;
    var j0 :| 0 <= j0 < |b| && b[j0].low == low;
    if high > 0.0 {
      assert Drop(closed, c) == DropPercent(w[i0].high, b[j0].low);
      forall i, j | 0 <= i < |w| && 0 <= j < |b| && w[i].high > 0.0
        ensures DropPercent(w[i].high, b[j].low) <= DropPercent(high, low)
      {
        PercentDropGrows(w[i].high, b[j].low, high, low);
      }
    }
  }

  /* ---- Locality: a long enough tail of the history decides the same ---- */

  function Last<T>(xs: seq<T>, n: nat): (tail: seq<T>)
  {
    if |xs| <= n then xs else xs[|xs| - n..]
  }

  /** Without an RSI filter the last RequiredCandles candles decide alone, down to the reason that is given. */
  lemma SignalIsLocal(closed: seq<Candle>, c: Config, n: nat, requireDip: bool)
    requires c.rsiMax.None?
    requires n >= RequiredCandles(c)
    ensures Evaluate(Last(closed, n), c, requireDip) == Evaluate(closed, c, requireDip)
  {
    var tail := Last(closed, n);
    var count := ConfirmationCount(c);
    if |closed| > n {
      assert tail[|tail| - count..] == closed[|closed| - count..];
      assert DipWindow(tail, c) == DipWindow(closed, c);
      assert BounceWindow(tail, c) == BounceWindow(closed, c);
    }
  }

  /** What the strategy service accepts. */
  predicate Validated(c: Config) {
    && 0.1 <= c.dipPercent <= 50.0
    && c.dipLookbackMinutes == c.dipLookbackMinutes.Floor as real
    && 5.0 <= c.dipLookbackMinutes <= Minutes(c.confirmTimeframe) * MAX_LOOKBACK_CANDLES
    && c.confirmCandles == c.confirmCandles.Floor as real
    && 1.0 <= c.confirmCandles <= 5.0
    && (c.rsiMax.Some? ==> 5.0 <= c.rsiMax.value <= 60.0)
  }

  type StrategyConfig = c: Config | Validated(c) witness Config(5.0, 60.0, M1, GreenClose, 1.0, None)

  /** The backtest's decision after the candles of `history`, of which it reads its own window. */
  function BacktestSignal(history: seq<Candle>, c: Config, requireDip: bool): Signal {
    Evaluate(Last(history, RequiredCandles(c) + 2), c, requireDip)
  }

  /* ---- What the live service reads ---- */

  /** A kline of the exchange: its candle and the time at which it closes. */
  datatype Kline = Kline(candle: Candle, closeTime: int)

  /** The candles of those klines that have closed by now. */
  function ClosedBy(klines: seq<Kline>, now: int): seq<Candle> {
    if klines == [] then []
    else
      var newest := klines[|klines| - 1];
      ClosedBy(klines[..|klines| - 1], now) + (if newest.closeTime <= now then [newest.candle] else [])
  }

  function LiveWindow(c: Config): nat {
    if RequiredCandles(c) + 2 <= MAX_SIGNAL_CANDLES then RequiredCandles(c) + 2 else MAX_SIGNAL_CANDLES
  }

  /** The exchange is asked for one kline more than needed, and those that have not closed are dropped. */
  function LiveCandles(chart: seq<Kline>, now: int, count: nat): seq<Candle> {
    ClosedBy(Last(chart, count + 1), now)
  }

  function LiveSignal(chart: seq<Kline>, now: int, c: Config, requireDip: bool): Signal {
    Evaluate(LiveCandles(chart, now, LiveWindow(c)), c, requireDip)
  }

  /** Only the newest kline of a chart can still be forming. */
  predicate UpToDate(chart: seq<Kline>, now: int) {
    forall i :: 0 <= i < |chart| - 1 ==> chart[i].closeTime <= now
  }

  predicate Forming(chart: seq<Kline>, now: int) {
    chart != [] && chart[|chart| - 1].closeTime > now
  }

  lemma {:induction false} AllClosed(klines: seq<Kline>, now: int)
    requires forall i :: 0 <= i < |klines| ==> klines[i].closeTime <= now
    ensures |ClosedBy(klines, now)| == |klines|
    ensures forall i :: 0 <= i < |klines| ==> ClosedBy(klines, now)[i] == klines[i].candle
  {
    if klines != [] {
      AllClosed(klines[..|klines| - 1], now);
    }
  }

  lemma LastOfClosed(klines: seq<Kline>, now: int, n: nat)
    requires forall i :: 0 <= i < |klines| ==> klines[i].closeTime <= now
    ensures ClosedBy(Last(klines, n), now) == Last(ClosedBy(klines, now), n)
  {
    AllClosed(klines, now);
    AllClosed(Last(klines, n), now);
    hide ClosedBy;
  }

  /** The live rule reads `count` candles while the newest kline forms, and one more when it has just closed. */
  lemma LiveCandlesAre(chart: seq<Kline>, now: int, count: nat)
    requires UpToDate(chart, now)
    ensures LiveCandles(chart, now, count) == Last(ClosedBy(chart, now), if Forming(chart, now) then count else count + 1)
  {
    var raw := Last(chart, count + 1);
    if Forming(chart, now) {
      var older := chart[..|chart| - 1];
      assert raw[..|raw| - 1] == Last(older, count);
      LastOfClosed(older, now, count);
      assert ClosedBy(chart, now) == ClosedBy(older, now) && ClosedBy(raw, now) == ClosedBy(Last(older, count), now);
    } else {
      LastOfClosed(chart, now, count + 1);
    }
  }

  /** Cutting the history up to a candle is the slice from max(0, index - window + 1) to that candle. */
  lemma LastIsSlice(candles: seq<Candle>, index: nat, window: nat)
    requires index < |candles|
    ensures Last(candles[..index + 1], window)
         == candles[if index + 1 > window then index + 1 - window else 0..index + 1]
  {
  }

  lemma CapNeverShortensTheWindow(c: StrategyConfig)
    ensures LiveWindow(c) == RequiredCandles(c) + 2
  {
    assert InCandles(c.dipLookbackMinutes, c.confirmTimeframe) <= MAX_LOOKBACK_CANDLES;
    assert LookbackCandles(c) <= MAX_SIGNAL_CANDLES - 60;
  }

  /**
   Live and backtest decide alike on the same closed candles when there is no RSI filter, while the
   newest kline forms, and as long as there is no candle before the backtest's window.
   */
  lemma LiveAgreesWithBacktest(chart: seq<Kline>, now: int, c: StrategyConfig, requireDip: bool)
    requires UpToDate(chart, now)
    requires c.rsiMax.None? || Forming(chart, now) || |ClosedBy(chart, now)| <= RequiredCandles(c) + 2
    ensures LiveSignal(chart, now, c, requireDip) == BacktestSignal(ClosedBy(chart, now), c, requireDip)
  {
    hide Evaluate, RequiredCandles, ClosedBy;
    var history, window := ClosedBy(chart, now), RequiredCandles(c) + 2;
    CapNeverShortensTheWindow(c);
    LiveCandlesAre(chart, now, window);
    if c.rsiMax.None? {
      SignalIsLocal(history, c, window, requireDip);
      SignalIsLocal(history, c, window + 1, requireDip);
    }
  }

  /** Without an RSI filter both therefore decide as if they had read the whole history. */
  lemma BacktestDecidesOnWholeHistory(history: seq<Candle>, c: Config, requireDip: bool)
    requires c.rsiMax.None?
    ensures BacktestSignal(history, c, requireDip) == Evaluate(history, c, requireDip)
  {
    hide Evaluate, RequiredCandles, Last;
    SignalIsLocal(history, c, RequiredCandles(c) + 2, requireDip);
  }

  /* ---- With an RSI filter no window is long enough ---- */

  const FALL := Candle(2.0, 4.0, 2.0, 2.0)
  const LEVEL := Candle(0.5, 4.0, 0.5, 1.0)
  const RISE := Candle(0.5, 5.0, 0.5, 5.0)

  /** One early fall, candles that all close at the same price, and a rise in the last one. */
  function FallThenFlat(n: nat): (cs: seq<Candle>)
    requires n >= 1
    ensures |cs| == n + 1
    ensures cs[0] == FALL && cs[n] == RISE && forall i :: 1 <= i < n ==> cs[i] == LEVEL
  {
    [FALL] + seq(n - 1, _ => LEVEL) + [RISE]
  }

  lemma {:induction false} NoGain(closes: seq<real>, i: nat)
    requires RSI_PERIOD <= i < |closes|
    requires forall k :: 0 < k <= i ==> closes[k] <= closes[k - 1]
    ensures AverageGain(closes, RSI_PERIOD, i) == 0.0
    decreases i
  {
    if i == RSI_PERIOD {
      NoUp(closes, i);
    } else {
      NoGain(closes, i - 1);
    }
  }

  lemma {:induction false} NoUp(closes: seq<real>, i: nat)
    requires i < |closes|
    requires forall k :: 0 < k <= i ==> closes[k] <= closes[k - 1]
    ensures UpSum(closes, i) == 0.0
  {
    if i > 0 {
      NoUp(closes, i - 1);
    }
  }

  lemma {:induction false} NoLoss(closes: seq<real>, i: nat)
    requires RSI_PERIOD <= i < |closes|
    requires forall k :: 0 < k < |closes| ==> closes[k] >= closes[k - 1]
    ensures AverageLoss(closes, RSI_PERIOD, i) == 0.0
    decreases i
  {
    if i == RSI_PERIOD {
      NoDown(closes, i);
    } else {
      NoLoss(closes, i - 1);
    }
  }

  lemma {:induction false} NoDown(closes: seq<real>, i: nat)
    requires i < |closes|
    requires forall k :: 0 < k < |closes| ==> closes[k] >= closes[k - 1]
    ensures DownSum(closes, i) == 0.0
  {
    if i > 0 {
      NoDown(closes, i - 1);
    }
  }

  lemma {:induction false} LossStays(closes: seq<real>, i: nat)
    requires RSI_PERIOD <= i < |closes|
    requires closes[1] < closes[0]
    ensures AverageLoss(closes, RSI_PERIOD, i) > 0.0
    decreases i
  {
    if i == RSI_PERIOD {
      DownStays(closes, i);
    } else {
      LossStays(closes, i - 1);
    }
  }

  lemma {:induction false} DownStays(closes: seq<real>, i: nat)
    requires 1 <= i < |closes|
    requires closes[1] < closes[0]
    ensures DownSum(closes, i) > 0.0
  {
    if i > 1 {
      DownStays(closes, i - 1);
    }
  }

  /**
   Wilder's average never forgets: for every validated configuration with an RSI filter and however long
   the window, one fall before it makes the rule buy on the longer history while the window alone waits.
   */
  lemma RsiNeedsWholeHistory(c: StrategyConfig, n: nat)
    requires c.rsiMax.Some? && n >= RequiredCandles(c)
    ensures Evaluate(FallThenFlat(n), c, true) == Confirmed
    ensures Evaluate(Last(FallThenFlat(n), n), c, true) == WaitingForRsi(Some(100.0))
  {
    var full := FallThenFlat(n);
    var tail := Last(full, n);
    FallBuys(full, c);
    RiseWaits(tail, c);
  }

  lemma FallBuys(cs: seq<Candle>, c: StrategyConfig)
    requires c.rsiMax.Some? && |cs| > RequiredCandles(c)
    requires cs[0] == FALL && cs[|cs| - 1] == RISE && forall i :: 1 <= i < |cs| - 1 ==> cs[i] == LEVEL
    ensures Evaluate(cs, c, true) == Confirmed
  {
    hide RecentRsi, Drop, ConfirmationMet, Rsi, Closes;
    EarlyFallStays(cs);
    RecentRsiZero(cs, c);
    DropIsDeep(cs, c);
    RiseConfirms(cs, c);
  }

  lemma RiseWaits(cs: seq<Candle>, c: StrategyConfig)
    requires c.rsiMax.Some? && |cs| >= RequiredCandles(c)
    requires cs != [] && cs[|cs| - 1] == RISE && forall i :: 0 <= i < |cs| - 1 ==> cs[i] == LEVEL
    ensures Evaluate(cs, c, true) == WaitingForRsi(Some(100.0))
  {
    hide RecentRsi, Drop, ConfirmationMet, Rsi, Closes;
    NeverFell(cs);
    RecentRsiHundred(cs, c);
    DropIsDeep(cs, c);
  }

  lemma EarlyFallStays(cs: seq<Candle>)
    requires |cs| > RSI_PERIOD + 1 && cs[0] == FALL && forall i :: 1 <= i < |cs| - 1 ==> cs[i] == LEVEL
    ensures forall i :: RSI_PERIOD <= i < |cs| - 1 ==> Rsi(Closes(cs), RSI_PERIOD, i) == Some(0.0)
  {
    var closes := Closes(cs);
    assert forall k :: 0 < k < |cs| - 1 ==> closes[k] <= closes[k - 1];
    hide AverageGain, AverageLoss, Closes;
    forall i | RSI_PERIOD <= i < |cs| - 1 ensures Rsi(closes, RSI_PERIOD, i) == Some(0.0) {
      NoGain(closes, i);
      LossStays(closes, i);
    }
  }

  lemma NeverFell(cs: seq<Candle>)
    requires cs != [] && cs[|cs| - 1] == RISE && forall i :: 0 <= i < |cs| - 1 ==> cs[i] == LEVEL
    ensures forall i :: RSI_PERIOD <= i < |cs| ==> Rsi(Closes(cs), RSI_PERIOD, i) == Some(100.0)
  {
    var closes := Closes(cs);
    assert forall k :: 0 < k < |cs| ==> closes[k] >= closes[k - 1];
    hide AverageGain, AverageLoss, Closes;
    forall i | RSI_PERIOD <= i < |cs| ensures Rsi(closes, RSI_PERIOD, i) == Some(100.0) {
      NoLoss(closes, i);
    }
  }

  lemma NoEarlyRsi(closes: seq<real>)
    ensures forall i :: 0 <= i < RSI_PERIOD && i < |closes| ==> Rsi(closes, RSI_PERIOD, i) == None
  {
    hide AverageGain, AverageLoss;
  }

  lemma RecentRsiZero(cs: seq<Candle>, c: Config)
    requires |cs| > RSI_PERIOD + 1
    requires forall i :: RSI_PERIOD <= i < |cs| - 1 ==> Rsi(Closes(cs), RSI_PERIOD, i) == Some(0.0)
    ensures RecentRsi(cs, c) == Some(0.0)
  {
    hide Rsi, Closes;
    var n := |cs|;
    NoEarlyRsi(Closes(cs));
    RsiBounds(Closes(cs), RSI_PERIOD, n - 1);
    assert Rsi(Closes(cs), RSI_PERIOD, n - 2) == Some(0.0);
    var lowest := RecentRsi(cs, c);
    assert lowest.Some? && lowest.value <= 0.0;
  }

  lemma RecentRsiHundred(cs: seq<Candle>, c: Config)
    requires |cs| > RSI_PERIOD
    requires forall i :: RSI_PERIOD <= i < |cs| ==> Rsi(Closes(cs), RSI_PERIOD, i) == Some(100.0)
    ensures RecentRsi(cs, c) == Some(100.0)
  {
    assert Rsi(Closes(cs), RSI_PERIOD, |cs| - 1) == Some(100.0);
  }

  /** Flat candles that end with a rise satisfy every confirmation rule. */
  lemma RiseConfirms(cs: seq<Candle>, c: Config)
    requires |cs| > ConfirmationCount(c) + 1 && cs[|cs| - 1] == RISE
    requires forall i :: 1 <= i < |cs| - 1 ==> cs[i] == LEVEL
    ensures ConfirmationMet(cs, c) == Confirmed
  {
    var recent := cs[|cs| - ConfirmationCount(c)..];
    assert forall i :: 0 <= i < |recent| ==> recent[i] == LEVEL || recent[i] == RISE;
  }

  lemma DropIsDeep(cs: seq<Candle>, c: Config)
    requires |cs| > ConfirmationCount(c) && c.dipPercent <= 50.0
    requires forall i :: 0 <= i < |cs| - 1 ==> cs[i].high == 4.0
    requires forall i :: 0 <= i < |cs| ==> cs[i].low <= 2.0
    ensures Drop(cs, c) >= c.dipPercent
  {
    var high, low := HighestHigh(DipWindow(cs, c)), LowestLow(BounceWindow(cs, c));
    assert high == 4.0 && low <= 2.0;
    assert (4.0 - low) / 4.0 >= 0.5;
  }

  /* ---- Live and backtest agree exactly without an RSI filter ---- */

  /** The chart whose klines have all closed by time 0. */
  function AllClosedChart(cs: seq<Candle>): (chart: seq<Kline>)
    ensures |chart| == |cs| && forall i :: 0 <= i < |cs| ==> chart[i] == Kline(cs[i], 0)
  {
    seq(|cs|, i requires 0 <= i < |cs| => Kline(cs[i], 0))
  }

  /** When the newest kline has just closed, the live rule reads one candle more, and may buy where the backtest waits. */
  lemma LiveReadsOneMore(c: StrategyConfig)
    requires c.rsiMax.Some?
    ensures var chart := AllClosedChart(FallThenFlat(RequiredCandles(c) + 2));
            && LiveSignal(chart, 0, c, true) == Confirmed
            && BacktestSignal(ClosedBy(chart, 0), c, true) == WaitingForRsi(Some(100.0))
  {
    hide Evaluate, RequiredCandles;
    var window := RequiredCandles(c) + 2;
    var cs := FallThenFlat(window);
    var chart := AllClosedChart(cs);
    CapNeverShortensTheWindow(c);
    AllClosed(chart, 0);
    assert ClosedBy(chart, 0) == cs;
    LiveCandlesAre(chart, 0, window);
    assert Last(cs, window + 1) == cs;
    RsiNeedsWholeHistory(c, window);
  }

  predicate DecideAlike(c: StrategyConfig, chart: seq<Kline>, now: int, requireDip: bool) {
    LiveSignal(chart, now, c, requireDip) == BacktestSignal(ClosedBy(chart, now), c, requireDip)
  }

  /** For a validated configuration live and backtest decide alike on every chart if and only if it has no RSI filter. */
  lemma AgreementIsWithoutRsi(c: StrategyConfig)
    ensures (forall chart, now, requireDip :: UpToDate(chart, now) ==> DecideAlike(c, chart, now, requireDip))
            <==> c.rsiMax.None?
  {
    if c.rsiMax.None? {
      forall chart, now, requireDip | UpToDate(chart, now) ensures DecideAlike(c, chart, now, requireDip) {
        LiveAgreesWithBacktest(chart, now, c, requireDip);
      }
    } else {
      LiveReadsOneMore(c);
      var chart := AllClosedChart(FallThenFlat(RequiredCandles(c) + 2));
      assert UpToDate(chart, 0) && !DecideAlike(c, chart, 0, true);
    }
  }
}
