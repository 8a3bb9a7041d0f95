/**
 What the columns of a paper position say. Over every run an open position
 holds something, a leg's target stands above its own price and the parent's
 above its average; the target of recovery follows the basket through every
 tick, but not through every request made by hand.
 */
module PaperRows {
  import opened Reals
  import RiskBudget
  import Recovery
  import opened PaperTrading
  import opened PaperLaws

  /* ---- The legs ---- */

  /** An open leg is for its cost at its own price, and its target is above that by its percentage. */
  predicate LegAtItsPrice(s: Strategy, sub: Sub) {
    sub.open ==>
      && sub.quantity > 0.0 && sub.entryPrice > 0.0 && sub.quantity * sub.entryPrice == sub.cost && sub.realized == 0.0
      && 100.0 * sub.takeProfitPrice == sub.entryPrice * (100.0 + s.subTakeProfitPercent)
  }

  predicate LegsAtTheirPrices(s: Strategy, p: Position) {
    forall i :: 0 <= i < |p.subs| ==> LegAtItsPrice(s, p.subs[i])
  }

  /* ---- The parent ---- */

  /** Outside recovery the parent's target is above its average by its percentage; a sold-out parent has none, or one at zero. */
  predicate ParentTargetCurrent(s: Strategy, p: Position) {
    !p.recoveryMode ==>
      if p.quantity > 0.0
      then p.takeProfitPrice.Some? && p.takeProfitPrice.value * p.quantity == p.cost * (1.0 + s.plan.takeProfitPercent / 100.0)
      else p.takeProfitPrice.None? || p.takeProfitPrice.value == 0.0
  }

  predicate HoldsSomething(p: Position) {
    p.quantity > 0.0 || exists i :: 0 <= i < |p.subs| && p.subs[i].open
  }

  predicate RowInv(s: Terms, p: Position) {
    Limits(s, p) && LegsAtTheirPrices(s, p) && ParentTargetCurrent(s, p) && (p.open ==> HoldsSomething(p))
  }

  lemma UpIs(price: real, percent: real)
    ensures 100.0 * Up(price, percent) == price * (100.0 + percent)
    ensures Up(0.0, percent) == 0.0
  {
    Associate(price, 1.0 + percent / 100.0, 100.0);
  }

  lemma AverageUp(cost: real, quantity: real, percent: real)
    requires quantity > 0.0
    ensures Up(Average(cost, quantity), percent) * quantity == cost * (1.0 + percent / 100.0)
  {
    QuotientTimes(cost, quantity);
    Swap(cost / quantity, 1.0 + percent / 100.0, quantity);
  }

  lemma TargetAbove(s: Terms, cost: real, quantity: real)
    requires quantity >= 0.0
    ensures var target := Up(Average(cost, quantity), s.plan.takeProfitPercent);
            if quantity > 0.0 then target * quantity == cost * (1.0 + s.plan.takeProfitPercent / 100.0) else target == 0.0
  {
    if quantity > 0.0 { AverageUp(cost, quantity, s.plan.takeProfitPercent); } else { UpIs(0.0, s.plan.takeProfitPercent); }
  }

  /* ---- What keeps them ---- */

  lemma CloseEligibleRow(s: Terms, p: Position, price: real)
    requires Inv(s, p) && RowInv(s, p)
    ensures RowInv(s, CloseEligible(s, p, price))
  {
    CloseEligibleInv(s, p, price);
    TargetAbove(s, p.cost, p.quantity);
    hide Limits, Conserved, Average, Up, SubSales, EligiblePnl;
    var q := CloseEligible(s, p, price);
    if SomeEligible(p, price) && q.open && !(p.quantity > DUST) {
      var i :| 0 <= i < |p.subs| && p.subs[i].open && !Eligible(p.subs[i], price);
      assert q.subs[i].open;
    }
  }

  lemma ExecuteCloseRow(s: Terms, p: Position, price: real)
    requires Inv(s, p) && RowInv(s, p)
    ensures RowInv(s, ExecuteClose(p, price).position)
  {
    ExecuteCloseInv(s, p, price);
    hide Limits, Conserved, Value;
  }

  lemma RecoveryCloseRow(s: Terms, p: Position, price: real)
    requires Inv(s, p) && RowInv(s, p)
    ensures RowInv(s, ExecuteRecoveryClose(s, p, price).position)
  {
    RecoveryCloseInv(s, p, price);
    hide Limits, Conserved, Value, BasketQuantity, BasketCost;
  }

  lemma DcaRow(s: Terms, p: Position, price: real)
    requires Inv(s, p) && RowInv(s, p) && price > 0.0
    ensures RowInv(s, ExecuteDca(s, p, price).position)
  {
    hide Conserved, SubsInOrder, LegsAtTheirPrices, ParentTargetCurrent, HoldsSomething, DcaBought, Bought;
    ExecuteDcaInv(s, p, price);
    if DcaLevel(s, p).Some? {
      var allocation := DcaLevel(s, p).value;
      BoughtPositive(allocation.quoteAmount, price);
      BoughtFor(allocation.quoteAmount, price);
      if allocation.independent { LegBoughtRow(s, p, price, allocation); } else { ParentBoughtRow(s, p, price, allocation); }
    }
    hide DcaLevel;
  }

  lemma BoughtFor(quote: real, price: real)
    requires price > 0.0
    ensures Bought(quote, price) * price == quote
  {
    QuotientTimes(quote, price);
  }

  lemma LegBoughtRow(s: Terms, p: Position, price: real, allocation: RiskBudget.PlannedLevel)
    requires RowInv(s, p) && price > 0.0 && allocation.independent
    requires Bought(allocation.quoteAmount, price) > 0.0 && Bought(allocation.quoteAmount, price) * price == allocation.quoteAmount
    ensures var q := DcaBought(s, p, price, allocation);
            LegsAtTheirPrices(s, q) && ParentTargetCurrent(s, q) && HoldsSomething(q)
  {
    hide SubsInOrder, BasketCost, Average, Up, Bought, NextTrigger;
    UpIs(price, s.subTakeProfitPercent);
    TargetAbove(s, p.cost, p.quantity);
    var q := DcaBought(s, p, price, allocation);
    assert ParentTargetCurrent(s, q);
    hide ParentTargetCurrent;
    assert q.subs[|p.subs|].open && LegAtItsPrice(s, q.subs[|p.subs|]);
    forall i | 0 <= i < |p.subs| ensures LegAtItsPrice(s, q.subs[i]) { assert LegAtItsPrice(s, p.subs[i]); }
  }

  lemma ParentBoughtRow(s: Terms, p: Position, price: real, allocation: RiskBudget.PlannedLevel)
    requires RowInv(s, p) && price > 0.0 && !allocation.independent && Bought(allocation.quoteAmount, price) > 0.0
    ensures var q := DcaBought(s, p, price, allocation);
            LegsAtTheirPrices(s, q) && ParentTargetCurrent(s, q) && HoldsSomething(q)
  {
    hide SubsInOrder, BasketCost, Average, Up, Bought, NextTrigger, LegAtItsPrice;
    TargetAbove(s, p.cost + allocation.quoteAmount, p.quantity + Bought(allocation.quoteAmount, price));
  }

  lemma RecoveryDcaRow(s: Terms, p: Position, price: real, anchor: real)
    requires Inv(s, p) && RowInv(s, p) && price > 0.0
    ensures RowInv(s, ExecuteRecoveryDca(s, p, price, anchor).position)
  {
    ExecuteRecoveryDcaInv(s, p, price, anchor);
    var leg := Leg(s, p.recoveryDcaCount, anchor, Remaining(s, p));
    if leg.Leg? { BoughtPositive(leg.quoteAmount, price); }
    hide Conserved, SubsInOrder, Leg, Remaining, BasketCost, BasketQuantity, GlobalTakeProfit, Bought;
  }

  lemma TickRow(s: Terms, p: Position, price: real)
    requires Inv(s, p) && RowInv(s, p)
    ensures RowInv(s, ProcessPrice(s, p, price).position)
  {
    hide Inv, RowInv, ExecuteClose, ExecuteDca, ExecuteRecoveryDca, ExecuteRecoveryClose, CloseEligible, RecoveryTarget, RecoveryAnchorNow,
      TakesProfit, DcaDue, RecoveryAnchor, Leg, Remaining;
    if price > 0.0 && p.open {
      if p.recoveryMode {
        RecoveryCloseRow(s, p, price);
        RecoveryDcaRow(s, p, price, RecoveryAnchorNow(s, p));
      } else {
        CloseEligibleInv(s, p, price);
        CloseEligibleRow(s, p, price);
        var q := CloseEligible(s, p, price);
        ExecuteCloseRow(s, q, price);
        if FirstLegDue(s, q, price) && RecoveryAnchor(s, q).Some? { RecoveryDcaRow(s, q, price, RecoveryAnchor(s, q).value); }
        DcaRow(s, q, price);
      }
    }
  }

  lemma ServeRow(s: Terms, p: Position, r: Request)
    requires Inv(s, p) && RowInv(s, p)
    ensures RowInv(s, Serve(s, p, r).position)
  {
    hide Inv, RowInv, ProcessPrice, ExecuteDca, ExecuteClose;
    match r
    case Price(price) => TickRow(s, p, price);
    case AddDca(price) => if price > 0.0 { DcaRow(s, p, price); }
    case ClosePosition(price) => ExecuteCloseRow(s, p, price);
  }

  lemma OpenRow(s: Terms, price: real)
    requires StoredTerms(s) && price > 0.0
    ensures OpenPosition(s, price).Some? && RowInv(s, OpenPosition(s, price).value)
  {
    OpenInv(s, price);
    OpenAmount(s);
    var quote := Plan(s)[0].quoteAmount;
    BoughtPositive(quote, price);
    BoughtFor(quote, price);
    TargetOf(price, Bought(quote, price), quote, 1.0 + s.plan.takeProfitPercent / 100.0);
    hide Plan, StoredTerms, NextTrigger, Bought, Conserved, SubsInOrder;
  }

  lemma TargetOf(price: real, quantity: real, quote: real, factor: real)
    requires quantity * price == quote
    ensures price * factor * quantity == quote * factor
  {
    Swap(price, factor, quantity);
  }

  /**
   After any sequence of ticks, manual buys and manual closes: an open position holds something, every open leg is
   for its cost at its own price with its target above that, and outside recovery the parent's target is above its average.
   */
  lemma {:induction false} RowsSay(s: Terms, price: real, requests: seq<Request>)
    requires StoredTerms(s) && price > 0.0
    ensures OpenPosition(s, price).Some?
    ensures RowInv(s, Run(s, OpenPosition(s, price).value, requests))
  {
    OpenRow(s, price);
    hide Inv, RowInv, OpenPosition, Serve;
    if requests != [] {
      var before := requests[..|requests| - 1];
      RowsSay(s, price, before);
      RunInv(s, price, before);
      ServeRow(s, Run(s, OpenPosition(s, price).value, before), requests[|requests| - 1]);
    }
  }

  /** So what it sells at the parent's target outside recovery is sold above its cost. */
  lemma TargetIsAboveCost(s: Terms, p: Position)
    requires RowInv(s, p) && !p.recoveryMode && p.quantity > 0.0 && p.cost > 0.0
    ensures p.takeProfitPrice.Some? && p.takeProfitPrice.value * p.quantity > p.cost
  {
    ProductPositive(p.cost, s.plan.takeProfitPercent / 100.0);
    hide Limits, LegsAtTheirPrices, HoldsSomething;
  }

  /** The basket that recovery is sized against holds the open legs and the parent, as the position counts them. */
  lemma {:induction false} BasketIsOpenLegs(subs: seq<Sub>)
    ensures Recovery.OpenQuantity(Holdings(subs)) == OpenQuantity(subs)
    ensures Recovery.OpenCost(Holdings(subs)) == OpenCost(subs)
  {
    if subs != [] { BasketIsOpenLegs(subs[..|subs| - 1]); }
  }

  function Holdings(subs: seq<Sub>): seq<Recovery.Holding> {
    if subs == [] then []
    else Holdings(subs[..|subs| - 1]) + [Recovery.Holding(subs[|subs| - 1].open, subs[|subs| - 1].quantity, subs[|subs| - 1].cost)]
  }

  /** A closed position is served nothing any more. */
  lemma ClosedIsFinal(s: Terms, p: Position, r: Request)
    requires !p.open
    ensures Serve(s, p, r) == Outcome(Refused, p)
  {
  }

  /** Selling the parent takes both its prices off the row, and leaves the position open exactly while a leg is. */
  lemma ParentSaleClearsTheRow(s: Terms, p: Position, r: Request)
    requires Serve(s, p, r).action.TakeProfit?
    ensures var t := Serve(s, p, r).position;
            && t.quantity == 0.0 && t.cost == 0.0 && t.takeProfitPrice.None? && t.nextDcaPrice.None?
            && (t.open <==> exists i :: 0 <= i < |t.subs| && t.subs[i].open)
  {
    hide CloseEligible, DcaBought, DcaLevel, RecoveryBought, Leg, Remaining, RecoveryTarget, RecoveryAnchorNow, RecoveryAnchor, BasketQuantity,
      BasketCost, TakesProfit, DcaDue, Value, EmptiedSubs, FirstLegDue;
  }

  /* ---- Buying a level ---- */

  /** The next trigger after a ladder buy: the following level's percentage below the price just paid. */
  predicate NextLevelBelow(s: Terms, p: Position, price: real) {
    if p.dcaCount + 1 < |Plan(s)|
    then
      var percent := if p.dcaCount + 2 >= s.plan.independentFromLevel then s.subTriggerPercent else s.plan.dcaStepPercent;
      p.nextDcaPrice.Some? && 100.0 * p.nextDcaPrice.value == price * (100.0 - percent)
    else p.nextDcaPrice.None?
  }

  lemma DownIs(price: real, percent: real)
    ensures 100.0 * Down(price, percent) == price * (100.0 - percent)
  {
    Associate(price, 1.0 - percent / 100.0, 100.0);
  }

  lemma TriggerIs(s: Terms, p: Position, index: nat, price: real)
    requires index == p.dcaCount + 1 && p.nextDcaPrice == NextTrigger(s, index, price)
    ensures NextLevelBelow(s, p, price)
  {
    hide Plan, Down;
    if index < |Plan(s)| {
      PlanLevel(s, index);
      DownIs(price, s.subTriggerPercent);
      DownIs(price, s.plan.dcaStepPercent);
    }
  }

  lemma OpeningSetsTheTrigger(s: Terms, price: real)
    requires StoredTerms(s) && price > 0.0
    ensures OpenPosition(s, price).Some? && NextLevelBelow(s, OpenPosition(s, price).value, price)
  {
    OpenInv(s, price);
    TriggerIs(s, OpenPosition(s, price).value, 1, price);
    hide Plan, StoredTerms, Inv;
  }

  /** Every ladder buy takes the next level of the plan and set the trigger of the one after it. */
  lemma LadderBuysSetTheTrigger(s: Terms, p: Position, r: Request)
    requires Serve(s, p, r).action.Dca?
    ensures var t := Serve(s, p, r).position;
            && t.dcaCount == p.dcaCount + 1 <= s.plan.maxDcaOrders
            && NextLevelBelow(s, t, match r case Price(x) => x case AddDca(x) => x case ClosePosition(x) => x)
  {
    var price := match r case Price(x) => x case AddDca(x) => x case ClosePosition(x) => x;
    OnlyDcaIsDca(s, p, r, price);
    var q := if r.Price? then CloseEligible(s, p, price) else p;
    assert q.dcaCount == p.dcaCount && DcaLevel(s, q).Some?;
    PlanLevel(s, q.dcaCount + 1);
    var t := DcaBought(s, q, price, DcaLevel(s, q).value);
    assert t.nextDcaPrice == NextTrigger(s, q.dcaCount + 2, price) && t.dcaCount == q.dcaCount + 1;
    TriggerIs(s, t, q.dcaCount + 2, price);
    hide *;
  }

  lemma OnlyDcaIsDca(s: Terms, p: Position, r: Request, price: real)
    requires Serve(s, p, r).action.Dca? && price == (match r case Price(x) => x case AddDca(x) => x case ClosePosition(x) => x)
    ensures var q := if r.Price? then CloseEligible(s, p, price) else p;
            price > 0.0 && DcaLevel(s, q).Some? && Serve(s, p, r).position == DcaBought(s, q, price, DcaLevel(s, q).value)
  {
    hide CloseEligible, DcaBought, DcaLevel, RecoveryBought, Leg, Remaining, RecoveryTarget, RecoveryAnchorNow, RecoveryAnchor, BasketQuantity,
      BasketCost, TakesProfit, DcaDue, Value, EmptiedSubs;
  }
}
