/**
 When the entry rule says yes: its own windows, extremes and counts against the
 candles themselves.
 */
module EntryRules {
  import opened Reals
  import opened EntrySignal

  /** The green candles that a configuration asks for. */
  function Asked(c: StrategyConfig): nat {
    if c.confirmRule == ConsecutiveGreen then c.confirmCandles.Floor else 1
  }

  /** The look-back is the fewest candles that cover its minutes. */
  lemma LookbackCovers(c: StrategyConfig)
    ensures var n := LookbackCandles(c);
            n >= 1 && n as real * Minutes(c.confirmTimeframe) >= c.dipLookbackMinutes
            && (n > 1 ==> (n as real - 1.0) * Minutes(c.confirmTimeframe) < c.dipLookbackMinutes)
  {
    var x := InCandles(c.dipLookbackMinutes, c.confirmTimeframe);
    assert x * Minutes(c.confirmTimeframe) == c.dipLookbackMinutes;
    assert Ceiling(x) as real >= x > Ceiling(x) as real - 1.0;
    CompareProducts(x, Ceiling(x) as real, Minutes(c.confirmTimeframe));
    CompareProducts(x, Ceiling(x) as real - 1.0, Minutes(c.confirmTimeframe));
  }

  /** Candle j of the bounce lies the wanted percentage or more below candle i of the look-back. */
  predicate Dropped(c: Config, high: real, low: real) {
    high > 0.0 && 100.0 * low <= high * (100.0 - c.dipPercent)
  }

  ghost predicate SomeDrop(closed: seq<Candle>, c: StrategyConfig)
    requires |closed| > Asked(c)
  {
    var start := |closed| - Asked(c);
    exists i: nat, j: nat :: start - LookbackCandles(c) <= i < start <= j + 1 && j < |closed| && Dropped(c, closed[i].high, closed[j].low)
  }

  /** An RSI of the last candles, the confirmation's and four more, is low enough. */
  ghost predicate SomeLowRsi(closed: seq<Candle>, c: StrategyConfig) {
    c.rsiMax.Some? ==>
      exists i: nat :: |closed| - Asked(c) - 4 <= i < |closed| && Rsi(Closes(closed), RSI_PERIOD, i).Some?
        && Rsi(Closes(closed), RSI_PERIOD, i).value <= c.rsiMax.value
  }

  predicate Bounced(closed: seq<Candle>, c: StrategyConfig) {
    && |closed| > Asked(c)
    && (forall i :: |closed| - Asked(c) <= i < |closed| ==> closed[i].close > closed[i].open)
    && (c.confirmRule == CloseAbovePreviousHigh ==> closed[|closed| - 1].close > closed[|closed| - 2].high)
  }

  predicate Enough(closed: seq<Candle>, c: StrategyConfig, requireDip: bool) {
    && |closed| > Asked(c)
    && (requireDip ==> |closed| > LookbackCandles(c) + Asked(c) && (c.rsiMax.Some? ==> |closed| >= Asked(c) + 46))
  }

  lemma CountIsAsked(c: StrategyConfig)
    ensures ConfirmationCount(c) == Asked(c) >= 1
  {
  }

  lemma EnoughIs(closed: seq<Candle>, c: StrategyConfig, requireDip: bool)
    ensures |closed| >= (if requireDip then RequiredCandles(c) else ConfirmationCount(c) + 1) <==> Enough(closed, c, requireDip)
  {
    CountIsAsked(c);
    hide ConfirmationCount, LookbackCandles, Asked;
  }

  lemma BouncedIs(closed: seq<Candle>, c: StrategyConfig)
    ensures ConfirmationMet(closed, c).Confirmed? <==> Bounced(closed, c)
    ensures ConfirmationMet(closed, c).NotEnoughCandles? <==> |closed| <= Asked(c)
    ensures !ConfirmationMet(closed, c).WaitingForDrop? && !ConfirmationMet(closed, c).WaitingForRsi?
  {
    CountIsAsked(c);
    hide ConfirmationCount, Asked;
    if |closed| > Asked(c) {
      var recent := closed[|closed| - Asked(c)..];
      assert forall i :: |closed| - Asked(c) <= i < |closed| ==> closed[i] == recent[i - (|closed| - Asked(c))];
    }
  }

  lemma PercentIs(c: StrategyConfig, high: real, low: real)
    ensures high > 0.0 && DropPercent(high, low) >= c.dipPercent <==> Dropped(c, high, low)
  {
    if high > 0.0 {
      var drop := (high - low) / high;
      QuotientTimes(high - low, high);
      CompareProducts(c.dipPercent, drop * 100.0, high);
      Swap(drop, 100.0, high);
    }
  }

  ghost predicate PairDropped(w: seq<Candle>, b: seq<Candle>, c: Config) {
    exists i: nat, j: nat :: i < |w| && j < |b| && Dropped(c, w[i].high, b[j].low)
  }

  lemma PairIs(closed: seq<Candle>, c: StrategyConfig)
    requires |closed| > ConfirmationCount(c) && forall i :: 0 <= i < |closed| ==> closed[i].low >= 0.0
    ensures Drop(closed, c) >= c.dipPercent <==> PairDropped(DipWindow(closed, c), BounceWindow(closed, c), c)
  {
    DropMeansSomePairDropped(closed, c, c.dipPercent);
    hide ConfirmationCount, LookbackCandles, Drop, DipWindow, BounceWindow, DropPercent, Dropped;
    var w, b := DipWindow(closed, c), BounceWindow(closed, c);
    if Drop(closed, c) >= c.dipPercent {
      var i, j :| 0 <= i < |w| && 0 <= j < |b| && w[i].high > 0.0 && DropPercent(w[i].high, b[j].low) >= c.dipPercent;
      PercentIs(c, w[i].high, b[j].low);
    }
    if PairDropped(w, b, c) {
      var i: nat, j: nat :| i < |w| && j < |b| && Dropped(c, w[i].high, b[j].low);
      PercentIs(c, w[i].high, b[j].low);
    }
  }

  ghost predicate DroppedFrom(closed: seq<Candle>, from: nat, start: nat, c: Config)
    requires from <= start <= |closed|
  {
    exists i: nat, j: nat :: from <= i < start <= j + 1 && j < |closed| && Dropped(c, closed[i].high, closed[j].low)
  }

  lemma PairsInSlices(closed: seq<Candle>, from: nat, start: nat, c: Config)
    requires from <= start <= |closed| && start > 0
    ensures PairDropped(closed[from..start], closed[start - 1..], c) <==> DroppedFrom(closed, from, start, c)
  {
    hide Dropped;
    var w, b := closed[from..start], closed[start - 1..];
    if PairDropped(w, b, c) {
      var i: nat, j: nat :| i < |w| && j < |b| && Dropped(c, w[i].high, b[j].low);
      var m: nat, n: nat := from + i, start - 1 + j;
      assert closed[m] == w[i] && closed[n] == b[j];
    }
    if DroppedFrom(closed, from, start, c) {
      var m: nat, n: nat :| from <= m < start <= n + 1 && n < |closed| && Dropped(c, closed[m].high, closed[n].low);
      var i: nat, j: nat := m - from, n - (start - 1);
      assert closed[m] == w[i] && closed[n] == b[j];
    }
  }

  lemma PairsByIndex(closed: seq<Candle>, c: StrategyConfig)
    requires |closed| > Asked(c) == ConfirmationCount(c)
    ensures PairDropped(DipWindow(closed, c), BounceWindow(closed, c), c) <==> SomeDrop(closed, c)
  {
    hide ConfirmationCount, LookbackCandles, Asked, Dropped, PairDropped;
    var start: nat := |closed| - Asked(c);
    var from: nat := if start > LookbackCandles(c) then start - LookbackCandles(c) else 0;
    PairsInSlices(closed, from, start, c);
    assert DipWindow(closed, c) == closed[from..start] && BounceWindow(closed, c) == closed[start - 1..];
    assert DroppedFrom(closed, from, start, c) <==> SomeDrop(closed, c);
  }

  lemma LowRsiIs(closed: seq<Candle>, c: StrategyConfig)
    requires c.rsiMax.Some?
    ensures RecentRsi(closed, c).Some? && RecentRsi(closed, c).value <= c.rsiMax.value <==> SomeLowRsi(closed, c)
  {
    CountIsAsked(c);
    hide ConfirmationCount, Asked, Rsi;
  }

  /**
   The rule says yes if and only if there are candles enough, some candle of the bounce lies the wanted percentage or
   more below one of the look-back (when the dip is asked for), some recent RSI is low enough (when one is set), and
   the last candles are green, the last one above the previous high where that is asked for. Otherwise it names the
   first of these that fails.
   */
  lemma ConfirmedExactly(closed: seq<Candle>, c: StrategyConfig, requireDip: bool)
    requires forall i :: 0 <= i < |closed| ==> closed[i].low >= 0.0
    ensures Evaluate(closed, c, requireDip).Confirmed? <==>
            Enough(closed, c, requireDip) && (requireDip ==> SomeDrop(closed, c)) && SomeLowRsi(closed, c) && Bounced(closed, c)
    ensures Evaluate(closed, c, requireDip).NotEnoughCandles? <==> !Enough(closed, c, requireDip)
    ensures Evaluate(closed, c, requireDip).WaitingForDrop? <==> Enough(closed, c, requireDip) && requireDip && !SomeDrop(closed, c)
    ensures Evaluate(closed, c, requireDip).WaitingForRsi? <==>
            Enough(closed, c, requireDip) && (requireDip ==> SomeDrop(closed, c)) && !SomeLowRsi(closed, c)
  {
    CountIsAsked(c);
    EnoughIs(closed, c, requireDip);
    BouncedIs(closed, c);
    if c.rsiMax.Some? { LowRsiIs(closed, c); }
    if |closed| > Asked(c) {
      PairIs(closed, c);
      PairsByIndex(closed, c);
    }
    hide ConfirmationCount, LookbackCandles, Asked, Drop, SomeDrop, SomeLowRsi, RecentRsi, DipWindow, BounceWindow, Bounced, ConfirmationMet, RequiredCandles;
  }

  /** Smoothing moves an average one period-th of the way to the new sample. */
  lemma SmoothMoves(average: real, sample: real, period: nat)
    requires period > 0 && average >= 0.0 && sample >= 0.0
    ensures (Smooth(average, sample, period) - average) * period as real == sample - average
  {
    var n := period as real;
    QuotientTimes(average * (n - 1.0) + sample, n);
    Distribute(Smooth(average, sample, period), average, n);
  }
}
