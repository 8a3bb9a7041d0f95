/**
 Recovery of a paper position: what a recovery buy and the final sale leave on
 the row, and when the stored target is still that of the basket.
 */
module PaperRecovery {
  import opened Reals
  import Recovery
  import opened PaperTrading
  import opened PaperLaws
  import opened PaperRows
  import opened PaperDecisions
  import opened PaperReopening

  /** In recovery there is an anchor, and outside it no target of the basket. */
  predicate RecoveryInv(p: Position) {
    && (p.recoveryMode ==> p.recoveryAnchorPrice.Some? && p.recoveryAnchorPrice.value > 0.0 && p.recoveryTakeProfitPrice.Some?)
    && (!p.recoveryMode ==> p.recoveryTakeProfitPrice.None? && (p.open ==> p.recoveryDcaCount == 0))
  }

  /** In recovery the stored target is the basket's average and the take profit more. */
  predicate TargetCurrent(s: Strategy, p: Position) {
    p.recoveryMode ==>
      && p.recoveryTakeProfitPrice.Some?
      && p.recoveryTakeProfitPrice.value * BasketQuantity(p) == BasketCost(p) * (1.0 + s.recovery.takeProfitPercent / 100.0)
  }

  /** What a recovery buy leaves: no target of the parent, the basket's target, and the trigger of the next leg if one is left. */
  predicate RecoveryRow(s: Terms, p: Position)
    requires p.recoveryAnchorPrice.Some?
  {
    && p.recoveryMode && p.takeProfitPrice.None? && TargetCurrent(s, p)
    && if s.recovery.enabled && p.recoveryDcaCount < s.recovery.maxOrders && BasketCost(p) < s.plan.riskBudgetQuote && p.recoveryAnchorPrice.value > 0.0
       then p.nextDcaPrice == Some(Recovery.StepBelow(p.recoveryAnchorPrice.value, s.recovery.steps[p.recoveryDcaCount]))
       else p.nextDcaPrice.None?
  }

  /* ---- Buying ---- */

  lemma {:induction false} OpenNonNegative(subs: seq<Sub>)
    requires forall i :: 0 <= i < |subs| ==> subs[i].quantity >= 0.0 && subs[i].cost >= 0.0
    ensures OpenQuantity(subs) >= 0.0 && OpenCost(subs) >= 0.0
  {
    if subs != [] { OpenNonNegative(subs[..|subs| - 1]); }
  }

  lemma GlobalTargetIs(s: Terms, cost: real, coins: real)
    requires cost > 0.0 && coins > 0.0
    ensures GlobalTakeProfit(s, cost, coins).Some?
    ensures GlobalTakeProfit(s, cost, coins).value * coins == cost * (1.0 + s.recovery.takeProfitPercent / 100.0)
  {
    QuotientPositive(cost, coins);
    AverageUp(cost, coins, s.recovery.takeProfitPercent);
  }

  lemma NextTriggerIs(s: Terms, p: Position, anchor: real)
    ensures var next := Leg(s, p.recoveryDcaCount, anchor, Remaining(s, p));
            if s.recovery.enabled && p.recoveryDcaCount < s.recovery.maxOrders && BasketCost(p) < s.plan.riskBudgetQuote && anchor > 0.0
            then next.Leg? && next.triggerPrice == Recovery.StepBelow(anchor, s.recovery.steps[p.recoveryDcaCount])
            else !next.Leg?
  {
    hide BasketCost, Recovery.NextLeg, Recovery.StepBelow, Recovery.Multiple;
    Recovery.NextLegIs(s.recovery, p.recoveryDcaCount, anchor, s.plan.baseOrderQuote, Remaining(s, p));
  }

  lemma BoughtRow(s: Terms, p: Position, price: real, anchor: real, quote: real)
    requires Limits(s, p) && price > 0.0 && quote > 0.0
    ensures var q := RecoveryBought(s, p, price, anchor, quote);
            && q.recoveryAnchorPrice == Some(anchor) && RecoveryRow(s, q) && q.recoveryTakeProfitPrice.Some?
            && q.recoveryDcaCount == p.recoveryDcaCount + 1 && q.subs == p.subs && q.dcaCount == p.dcaCount && q.open == p.open
  {
    BoughtPositive(quote, price);
    OpenNonNegative(p.subs);
    hide OpenQuantity, OpenCost, Bought, GlobalTakeProfit, Leg, Remaining, SubsInOrder, Recovery.StepBelow;
    var quantity := Bought(quote, price);
    GlobalTargetIs(s, p.cost + quote + OpenCost(p.subs), p.quantity + quantity + OpenQuantity(p.subs));
    var q := RecoveryBought(s, p, price, anchor, quote);
    NextTriggerIs(s, q, anchor);
    RemainingIs(s, p, q, anchor, quote, price);
  }

  /** The budget that the next leg is sized with is the one left after the buy. */
  lemma RemainingIs(s: Terms, p: Position, q: Position, anchor: real, quote: real, price: real)
    requires price > 0.0 && q == RecoveryBought(s, p, price, anchor, quote)
    ensures q.nextDcaPrice == (var next := Leg(s, q.recoveryDcaCount, anchor, Remaining(s, q)); if next.Leg? then Some(next.triggerPrice) else None)
  {
    hide OpenCost, Bought, GlobalTakeProfit, Leg;
  }

  /** A recovery buy is made by a tick, from the anchor of the row: the stored one, or the first leg's entry. */
  lemma OnlyTicksRecover(s: Terms, p: Position, r: Request)
    requires Serve(s, p, r).action.RecoveryDca?
    ensures r.Price? && r.price > 0.0
    ensures var q := if p.recoveryMode then p else CloseEligible(s, p, r.price);
            var anchor := if p.recoveryMode then RecoveryAnchorNow(s, p) else OrZero(RecoveryAnchor(s, q));
            var leg := Leg(s, q.recoveryDcaCount, anchor, Remaining(s, q));
            && (!p.recoveryMode ==> FirstLegDue(s, q, r.price) && RecoveryAnchor(s, q).Some?)
            && leg.Leg? && leg.quoteAmount > 0.0
            && Serve(s, p, r).position == RecoveryBought(s, q, r.price, anchor, leg.quoteAmount)
  {
    hide CloseEligible, RecoveryBought, BasketQuantity, BasketCost, Remaining, TakesProfit, DcaDue, Value, EmptiedSubs, RecoveryAnchor, DcaLevel, DcaBought,
      GlobalTakeProfit;
  }

  /** A recovery buy counts one leg, keeps the anchor or takes the first leg's entry for it, and leaves the row of a recovery. */
  lemma RecoveryBuysSetTheRow(s: Terms, p: Position, r: Request)
    requires Inv(s, p) && RecoveryInv(p) && Serve(s, p, r).action.RecoveryDca?
    ensures var t := Serve(s, p, r).position;
            && t.recoveryAnchorPrice.Some? && RecoveryRow(s, t) && RecoveryInv(t) && t.recoveryDcaCount == p.recoveryDcaCount + 1
            && (p.recoveryMode ==> t.recoveryAnchorPrice == p.recoveryAnchorPrice)
            && (!p.recoveryMode ==> exists i: nat :: IsAnchor(s, p, i) && t.recoveryAnchorPrice.value == p.subs[i].entryPrice > 0.0)
  {
    OnlyTicksRecover(s, p, r);
    var q := if p.recoveryMode then p else CloseEligible(s, p, r.price);
    CloseEligibleInv(s, p, r.price);
    var anchor := if p.recoveryMode then RecoveryAnchorNow(s, p) else OrZero(RecoveryAnchor(s, q));
    var leg := Leg(s, q.recoveryDcaCount, anchor, Remaining(s, q));
    BoughtRow(s, q, r.price, anchor, leg.quoteAmount);
    if !p.recoveryMode {
      FirstDueExactly(s, q, r.price);
      var i: nat :| IsAnchor(s, q, i) && RecoveryDue(s, q, 0, q.subs[i].entryPrice, r.price);
      AnchorIsFirst(q.subs, s.plan.independentFromLevel);
      SameAnchor(s, p, r.price, i);
      assert RecoveryAnchor(s, q).value == q.subs[i].entryPrice;
    }
    hide Inv, Limits, CloseEligible, RecoveryBought, Serve, RecoveryRow, Leg, Remaining, FirstLegDue, FirstRecoveryDue, RecoveryDue;
  }

  lemma SameAnchor(s: Terms, p: Position, price: real, i: nat)
    requires IsAnchor(s, CloseEligible(s, p, price), i)
    ensures IsAnchor(s, p, i) && p.subs[i].entryPrice == CloseEligible(s, p, price).subs[i].entryPrice
  {
    hide Average, Up, SubSales, EligiblePnl, AllOpenEligible;
  }

  /* ---- The final sale ---- */

  /** The sale of the basket closes the position, takes every price off the row, and empties the legs that were open, each with its result. */
  predicate BasketEmptied(p: Position, t: Position, price: real) {
    && !t.open && !t.recoveryMode && t.quantity == 0.0 && t.cost == 0.0
    && t.takeProfitPrice.None? && t.nextDcaPrice.None? && t.recoveryTakeProfitPrice.None?
    && |t.subs| == |p.subs|
    && forall i :: 0 <= i < |p.subs| ==>
         if p.subs[i].open
         then
           && !t.subs[i].open && t.subs[i].quantity == 0.0 && t.subs[i].cost == 0.0 && t.subs[i].entryPrice == 0.0
           && t.subs[i].realized - p.subs[i].realized == p.subs[i].quantity * price - p.subs[i].cost
         else t.subs[i] == p.subs[i]
  }

  lemma RecoverySaleEmpties(s: Terms, p: Position, r: Request)
    requires Serve(s, p, r).action.RecoveryTakeProfit?
    ensures r.Price? && BasketEmptied(p, Serve(s, p, r).position, r.price)
  {
    hide BasketQuantity, BasketCost, RecoveryTarget, RecoveryAnchorNow, RecoveryAnchor, RecoveryBought, Leg, Remaining, FirstLegDue, DcaLevel, DcaBought, TakesProfit;
  }

  /* ---- Every run ---- */

  /** Requests by hand do not touch what recovery stores. */
  lemma ByHandKeepsRecovery(s: Terms, p: Position, r: Request)
    requires !r.Price? && p.open
    ensures var t := Serve(s, p, r).position;
            && t.recoveryMode == p.recoveryMode && t.recoveryAnchorPrice == p.recoveryAnchorPrice
            && t.recoveryTakeProfitPrice == p.recoveryTakeProfitPrice && t.recoveryDcaCount == p.recoveryDcaCount
  {
    hide Value, DcaLevel, NextTrigger, Average, Up, Bought;
  }

  /** A tick that neither starts, extends nor ends a recovery does not either. */
  lemma OtherTicksKeepRecovery(s: Terms, p: Position, r: Request)
    requires r.Price? && !Serve(s, p, r).action.RecoveryDca? && !Serve(s, p, r).action.RecoveryTakeProfit?
    ensures var t := Serve(s, p, r).position;
            && t.recoveryMode == p.recoveryMode && t.recoveryAnchorPrice == p.recoveryAnchorPrice
            && t.recoveryTakeProfitPrice == p.recoveryTakeProfitPrice && t.recoveryDcaCount == p.recoveryDcaCount && (t.open ==> p.open)
            && (p.recoveryMode ==> t == p)
  {
    hide BasketQuantity, BasketCost, RecoveryTarget, RecoveryAnchorNow, RecoveryAnchor, RecoveryBought, Leg, Remaining, FirstLegDue, DcaLevel,
      TakesProfit, Average, Up, Value, SubSales, ClosedSubs, EligiblePnl, NextTrigger, Bought;
  }

  lemma ServeRecovery(s: Terms, p: Position, r: Request)
    requires Inv(s, p) && RecoveryInv(p)
    ensures RecoveryInv(Serve(s, p, r).position)
  {
    hide Inv;
    if !p.open {
      ClosedIsFinal(s, p, r);
    } else if !r.Price? {
      ByHandKeepsRecovery(s, p, r);
    } else if Serve(s, p, r).action.RecoveryDca? {
      RecoveryBuysSetTheRow(s, p, r);
    } else if Serve(s, p, r).action.RecoveryTakeProfit? {
      RecoverySaleEmpties(s, p, r);
    } else {
      OtherTicksKeepRecovery(s, p, r);
    }
    hide Serve;
  }

  lemma CrossMultiply(target: real, cost: real, coins: real, cost': real, coins': real, factor: real)
    requires coins > 0.0 && factor > 0.0 && target * coins == cost * factor
    ensures target * coins' == cost' * factor <==> cost' * coins == cost * coins'
  {
    calc {
      target * coins' * coins;
      { Swap(target, coins', coins); }
      target * coins * coins';
      cost * factor * coins';
      { Swap(cost, factor, coins'); }
      cost * coins' * factor;
    }
    Swap(cost', factor, coins);
    if target * coins' == cost' * factor { CancelFactor(cost' * coins, cost * coins', factor); }
    if cost' * coins == cost * coins' { CancelFactor(target * coins', cost' * factor, coins); }
  }

  /** A request by hand, in recovery, that leaves a basket of another average. */
  predicate ChangesAverage(s: Terms, p: Position, r: Request) {
    var t := Serve(s, p, r).position;
    p.recoveryMode && !r.Price? && BasketCost(t) * BasketQuantity(p) != BasketCost(p) * BasketQuantity(t)
  }

  lemma ByHandKeepsTargetExactly(s: Terms, p: Position, r: Request)
    requires Inv(s, p) && RowInv(s, p) && RecoveryInv(p) && TargetCurrent(s, p) && p.open && !r.Price?
    ensures TargetCurrent(s, Serve(s, p, r).position) <==> !ChangesAverage(s, p, r)
  {
    hide Serve, Inv, RowInv, BasketCost, BasketQuantity;
    var t := Serve(s, p, r).position;
    ByHandKeepsRecovery(s, p, r);
    if p.recoveryMode {
      HeldPositive(s, p);
      CrossMultiply(p.recoveryTakeProfitPrice.value, BasketCost(p), BasketQuantity(p), BasketCost(t), BasketQuantity(t),
                    1.0 + s.recovery.takeProfitPercent / 100.0);
    }
  }

  lemma TicksKeepTarget(s: Terms, p: Position, r: Request)
    requires Inv(s, p) && RecoveryInv(p) && TargetCurrent(s, p) && r.Price?
    ensures TargetCurrent(s, Serve(s, p, r).position)
  {
    hide Serve, Inv, BasketCost, BasketQuantity;
    if Serve(s, p, r).action.RecoveryDca? {
      RecoveryBuysSetTheRow(s, p, r);
    } else if Serve(s, p, r).action.RecoveryTakeProfit? {
      RecoverySaleEmpties(s, p, r);
    } else {
      OtherTicksKeepRecovery(s, p, r);
    }
  }

  /** A request keeps the stored target that of the basket if and only if it is no such request. */
  lemma TargetKeptExactly(s: Terms, p: Position, r: Request)
    requires Inv(s, p) && RowInv(s, p) && RecoveryInv(p) && TargetCurrent(s, p)
    ensures TargetCurrent(s, Serve(s, p, r).position) <==> !ChangesAverage(s, p, r)
  {
    hide Serve, Inv, RowInv, RecoveryInv, TargetCurrent;
    if !p.open {
      ClosedIsFinal(s, p, r);
    } else if r.Price? {
      TicksKeepTarget(s, p, r);
    } else {
      ByHandKeepsTargetExactly(s, p, r);
    }
  }

  lemma HeldPositive(s: Terms, p: Position)
    requires Inv(s, p) && RowInv(s, p) && p.open
    ensures BasketQuantity(p) > 0.0
  {
    if exists i :: 0 <= i < |p.subs| && p.subs[i].open {
      var i: nat :| i < |p.subs| && p.subs[i].open;
      assert LegAtItsPrice(s, p.subs[i]);
      LegCounts(p.subs, i);
    }
    OpenNonNegative(p.subs);
    hide OpenQuantity, LegAtItsPrice, Conserved;
  }

  lemma {:induction false} LegCounts(subs: seq<Sub>, i: nat)
    requires i < |subs| && subs[i].open && forall j :: 0 <= j < |subs| ==> subs[j].quantity >= 0.0 && subs[j].cost >= 0.0
    ensures OpenQuantity(subs) >= subs[i].quantity
  {
    if i < |subs| - 1 { LegCounts(subs[..|subs| - 1], i); } else { OpenNonNegative(subs[..i]); }
  }

  ghost predicate CurrentThroughout(s: Terms, p: Position, requests: seq<Request>) {
    TargetCurrent(s, Run(s, p, requests)) && (requests != [] ==> CurrentThroughout(s, p, requests[..|requests| - 1]))
  }

  ghost predicate AverageChanged(s: Terms, p: Position, requests: seq<Request>) {
    requests != [] &&
    var before, r := requests[..|requests| - 1], requests[|requests| - 1];
    AverageChanged(s, p, before) || ChangesAverage(s, Run(s, p, before), r)
  }

  /** Over every run the stored target stays that of the basket throughout if and only if no request by hand changes the average in recovery. */
  lemma {:induction false} TargetFollowsExactly(s: Terms, price: real, requests: seq<Request>)
    requires StoredTerms(s) && price > 0.0
    ensures OpenPosition(s, price).Some?
    ensures var p := OpenPosition(s, price).value;
            && RecoveryInv(Run(s, p, requests))
            && (CurrentThroughout(s, p, requests) <==> !AverageChanged(s, p, requests))
  {
    OpenInv(s, price);
    var p := OpenPosition(s, price).value;
    assert RecoveryInv(p) && TargetCurrent(s, p);
    hide Inv, OpenPosition, Serve, RowInv, RecoveryInv, TargetCurrent, ChangesAverage;
    if requests != [] {
      var before, r := requests[..|requests| - 1], requests[|requests| - 1];
      TargetFollowsExactly(s, price, before);
      RunInv(s, price, before);
      RowsSay(s, price, before);
      ServeRecovery(s, Run(s, p, before), r);
      if CurrentThroughout(s, p, before) {
        assert TargetCurrent(s, Run(s, p, before));
        TargetKeptExactly(s, Run(s, p, before), r);
      }
    }
  }

  /* ---- A target left behind ---- */

  const IN_RECOVERY: seq<Request> := [Price(80.0), Price(40.0)]

  /** The parent of 0.1 has grown by a recovery buy of 10 at 40; the leg bought at 80 is open beside it. */
  predicate Recovering(p: Position) {
    p.open && p.recoveryMode && p.quantity == 0.35 && p.cost == 20.0 && p.subs == [FIRST] && p.recoveryTakeProfitPrice.Some?
  }

  lemma BuysRecoveryLeg(p: Position)
    requires Looks(p, 0.1, 10.0, 1, Some(78.4), Some(101.5), [FIRST])
    ensures Recovering(Serve(TWO_LEGS, p, Price(40.0)).position)
  {
    CostAppend([], FIRST);
    assert [] + [FIRST] == p.subs && OpenCost([]) == 0.0;
    assert CloseEligible(TWO_LEGS, p, 40.0) == p;
    assert BasketCost(p) == 20.0 && Remaining(TWO_LEGS, p) == 80.0;
    assert AnchorEntry(p.subs, 2) == 80.0 && RecoveryAnchor(TWO_LEGS, p) == Some(80.0);
    LegTriggersAt76(80.0);
    hide Remaining, BasketCost, OpenCost, OpenQuantity, AnchorEntry, RecoveryAnchor, CloseEligible, Leg;
    assert Serve(TWO_LEGS, p, Price(40.0)) == ExecuteRecoveryDca(TWO_LEGS, p, 40.0, 80.0);
    BoughtHere(p);
  }

  lemma BoughtHere(p: Position)
    requires Looks(p, 0.1, 10.0, 1, Some(78.4), Some(101.5), [FIRST])
    ensures Recovering(RecoveryBought(TWO_LEGS, p, 40.0, 80.0, 10.0))
  {
    CostAppend([], FIRST);
    assert [] + [FIRST] == p.subs && OpenCost([]) == 0.0 && OpenQuantity(p.subs) == 0.125 by { assert p.subs[..0] == []; }
    hide Leg, OpenCost, OpenQuantity;
    GlobalTargetIs(TWO_LEGS, 20.0 + OpenCost(p.subs), 0.35 + OpenQuantity(p.subs));
  }

  lemma ClosingLeavesTheLeg(p: Position)
    requires Recovering(p) && TargetCurrent(TWO_LEGS, p)
    ensures var t := Serve(TWO_LEGS, p, ClosePosition(40.0)).position;
            && ChangesAverage(TWO_LEGS, p, ClosePosition(40.0))
            && t.open && t.recoveryMode && BasketQuantity(t) == 0.125 && BasketCost(t) == 10.0
            && t.recoveryTakeProfitPrice.Some? && t.recoveryTakeProfitPrice.value * 0.125 < 10.0
  {
    assert p.subs[0].open;
    assert OpenQuantity(p.subs) == 0.125 && OpenCost(p.subs) == 10.0 by { assert p.subs[..0] == []; }
    hide OpenQuantity, OpenCost;
  }

  /**
   A run from the opening after which the parent, closed by hand in recovery, leaves a leg whose stored target lies
   below its cost: the next tick at that price sells it at a loss.
   */
  lemma ByHandStrandsTheTarget()
    ensures OpenPosition(TWO_LEGS, 100.0).Some?
    ensures var t := Serve(TWO_LEGS, Run(TWO_LEGS, OpenPosition(TWO_LEGS, 100.0).value, IN_RECOVERY), ClosePosition(40.0)).position;
            && t.open && t.recoveryMode && t.recoveryTakeProfitPrice.Some?
            && t.recoveryTakeProfitPrice.value * BasketQuantity(t) < BasketCost(t)
  {
    TwoLegsValid();
    OpensAt100();
    var p := OpenPosition(TWO_LEGS, 100.0).value;
    TargetFollowsExactly(TWO_LEGS, 100.0, IN_RECOVERY);
    hide OpenPosition, Serve, Looks, Inv, BasketQuantity, BasketCost, Recovering, TargetCurrent;
    assert IN_RECOVERY[..1][..0] == [] && Run(TWO_LEGS, p, []) == p;
    BuysFirstLeg(p);
    BuysRecoveryLeg(Run(TWO_LEGS, p, IN_RECOVERY[..1]));
    assert !AverageChanged(TWO_LEGS, p, IN_RECOVERY[..1]);
    assert !AverageChanged(TWO_LEGS, p, IN_RECOVERY);
    ClosingLeavesTheLeg(Run(TWO_LEGS, p, IN_RECOVERY));
  }
}
