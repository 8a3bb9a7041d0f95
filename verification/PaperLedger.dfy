/** The paper position's rows, updated in place transaction by transaction. */
module PaperLedger {
  import opened Reals
  import RiskBudget
  import opened PaperTrading

  /** Goes through the independent legs once: the rows afterwards, the sell orders, and the profit of those sold. */
  method SellEligible(subs: seq<Sub>, price: real) returns (closed: seq<Sub>, sales: seq<Order>, pnl: real)
    ensures closed == ClosedSubs(subs, price) && sales == SubSales(subs, price) && pnl == EligiblePnl(subs, price)
  {
    closed, sales, pnl := [], [], 0.0;
    for i := 0 to |subs|
      invariant closed == ClosedSubs(subs[..i], price)
      invariant sales == SubSales(subs[..i], price)
      invariant pnl == EligiblePnl(subs[..i], price)
    {
      SaleStep(subs, i, price);
      hide ClosedSubs, SubSales, EligiblePnl, Value;
      var sub := subs[i];
      if sub.open && price >= sub.takeProfitPrice {
        var proceeds := Value(sub.quantity, price);
        sales := sales + [Order(Sell, sub.level, sub.quantity, proceeds)];
        closed := closed + [sub.(open := false, realized := proceeds - sub.cost)];
        pnl := pnl + (proceeds - sub.cost);
      } else {
        closed := closed + [sub];
      }
    }
    assert subs[..|subs|] == subs;
  }

  /** Empties the row of every open leg. */
  method EmptyOpen(subs: seq<Sub>, price: real) returns (emptied: seq<Sub>)
    ensures emptied == EmptiedSubs(subs, price)
  {
    emptied := [];
    for i := 0 to |subs|
      invariant emptied == EmptiedSubs(subs[..i], price)
    {
      EmptyStep(subs, i, price);
      hide EmptiedSubs, Value;
      var sub := subs[i];
      if sub.open {
        var pnl := Value(sub.quantity, price) - sub.cost;
        emptied := emptied + [sub.(open := false, quantity := 0.0, cost := 0.0, entryPrice := 0.0, realized := sub.realized + pnl)];
      } else {
        emptied := emptied + [sub];
      }
    }
    assert subs[..|subs|] == subs;
  }

  class PaperAccount {
    const terms: Terms
    var position: Position

    constructor (terms: Terms, start: Position)
      ensures this.terms == terms && position == start
    {
      this.terms := terms;
      position := start;
    }

    /** Sells every open independent leg whose target is reached, one order and one row at a time. */
    method CloseEligibleSubPositions(price: real)
      modifies this`position
      ensures position == CloseEligible(terms, old(position), price)
    {
      if !SomeEligible(position, price) { return; }
      hide Value, AllOpenEligible, SomeEligible, Eligible, SubSales, ClosedSubs, EligiblePnl;
      var closed := position.quantity <= DUST && AllOpenEligible(position, price);
      var subs, sales, pnl := SellEligible(position.subs, price);
      var takeProfitPrice := if position.quantity > 0.0
        then Some(Up(Average(position.cost, position.quantity), terms.plan.takeProfitPercent)) else None;
      position := position.(subs := subs, orders := position.orders + sales, realized := position.realized + pnl,
                            takeProfitPrice := takeProfitPrice, open := !closed);
    }

    /** Sells the parent; the position stays open while independent legs are. */
    method Close(price: real) returns (done: bool)
      modifies this`position
      ensures Outcome(if done then TakeProfit else Refused, position) == ExecuteClose(old(position), price)
    {
      if position.quantity <= 0.0 { return false; }
      var proceeds := Value(position.quantity, price);
      var realizedPnl := position.realized + proceeds - position.cost;
      var hasOpenIndependent := HasOpenSub(position);
      var order := Order(Sell, position.dcaCount + 2, position.quantity, proceeds);
      position := position.(orders := position.orders + [order]);
      position := position.(open := hasOpenIndependent, quantity := 0.0, cost := 0.0, realized := realizedPnl,
                            nextDcaPrice := None, takeProfitPrice := None);
      return true;
    }

    /** Sells parent and independent legs together and empties every open leg's row. */
    method CloseBasket(price: real) returns (done: bool)
      modifies this`position
      ensures Outcome(if done then RecoveryTakeProfit else Refused, position) == ExecuteRecoveryClose(terms, old(position), price)
    {
      var quantity, cost := BasketQuantity(position), BasketCost(position);
      if quantity <= 0.0 { return false; }
      var proceeds := Value(quantity, price);
      var realizedPnl := position.realized + proceeds - cost;
      var order := Order(Sell, terms.plan.maxDcaOrders + position.recoveryDcaCount + 2, quantity, proceeds);
      var subs := EmptyOpen(position.subs, price);
      position := position.(orders := position.orders + [order], subs := subs);
      position := position.(open := false, quantity := 0.0, cost := 0.0, realized := realizedPnl, recoveryMode := false,
                            recoveryTakeProfitPrice := None, nextDcaPrice := None, takeProfitPrice := None);
      return true;
    }

    /** Buys the next planned level, into the parent or as a new independent leg. */
    method AddLevel(price: real) returns (done: bool)
      requires price > 0.0
      modifies this`position
      ensures Outcome(if done then Dca else Refused, position) == ExecuteDca(terms, old(position), price)
    {
      var index := position.dcaCount + 1;
      if index >= |Plan(terms)| { return false; }
      var allocation := Plan(terms)[index];
      if !RiskBudget.WithinBudget(allocation.quoteAmount, BasketCost(position), terms.plan.riskBudgetQuote) { return false; }
      var quantity := Bought(allocation.quoteAmount, price);
      var level := position.dcaCount + 2;
      var next := NextTrigger(terms, index + 1, price);
      position := position.(orders := position.orders + [Order(Buy, level, quantity, allocation.quoteAmount)]);
      if allocation.independent {
        var sub := Sub(level, true, quantity, allocation.quoteAmount, price, Up(price, terms.subTakeProfitPercent), 0.0);
        position := position.(subs := position.subs + [sub]);
      } else {
        position := position.(quantity := position.quantity + quantity, cost := position.cost + allocation.quoteAmount);
      }
      var parentTarget := Up(Average(position.cost, position.quantity), terms.plan.takeProfitPercent);
      var target := if allocation.independent && position.takeProfitPrice.Some? then position.takeProfitPrice else Some(parentTarget);
      position := position.(dcaCount := position.dcaCount + 1, nextDcaPrice := next, takeProfitPrice := target);
      return true;
    }

    /** Buys the next recovery leg into the parent and puts the position into recovery mode. */
    method AddRecoveryLeg(price: real, anchor: real) returns (done: bool)
      requires price > 0.0
      modifies this`position
      ensures Outcome(if done then RecoveryDca else Refused, position) == ExecuteRecoveryDca(terms, old(position), price, anchor)
    {
      hide GlobalTakeProfit, Bought, Remaining, BasketCost, BasketQuantity;
      var leg := Leg(terms, position.recoveryDcaCount, anchor, Remaining(terms, position));
      if !leg.Leg? { return false; }
      if !RiskBudget.WithinBudget(leg.quoteAmount, BasketCost(position), terms.plan.riskBudgetQuote) { return false; }
      hide Leg;
      var quantity := Bought(leg.quoteAmount, price);
      var order := Order(Buy, terms.plan.maxDcaOrders + position.recoveryDcaCount + 2, quantity, leg.quoteAmount);
      position := position.(orders := position.orders + [order], quantity := position.quantity + quantity,
                            cost := position.cost + leg.quoteAmount, recoveryMode := true,
                            recoveryDcaCount := position.recoveryDcaCount + 1, recoveryAnchorPrice := Some(anchor),
                            takeProfitPrice := None);
      var next := Leg(terms, position.recoveryDcaCount, anchor, Remaining(terms, position));
      var target := GlobalTakeProfit(terms, BasketCost(position), BasketQuantity(position));
      position := position.(recoveryTakeProfitPrice := target, nextDcaPrice := if next.Leg? then Some(next.triggerPrice) else None);
      return true;
    }

    method Tick(price: real) returns (action: Action)
      modifies this`position
      ensures Outcome(action, position) == ProcessPrice(terms, old(position), price)
    {
      hide CloseEligible, ExecuteClose, ExecuteDca, ExecuteRecoveryDca, ExecuteRecoveryClose, RecoveryTarget, RecoveryAnchorNow,
        RecoveryAnchor, Leg, Remaining;
      if price <= 0.0 || !position.open { return Refused; }
      if position.recoveryMode {
        action := TickInRecovery(price);
        return;
      }
      CloseEligibleSubPositions(price);
      if TakesProfit(position, price) {
        var done := Close(price);
        return if done then TakeProfit else Refused;
      }
      if FirstLegDue(terms, position, price) {
        var done := AddRecoveryLeg(price, RecoveryAnchor(terms, position).value);
        return if done then RecoveryDca else Refused;
      }
      if DcaDue(position, price) {
        var done := AddLevel(price);
        return if done then Dca else Refused;
      }
      return Hold;
    }

    method TickInRecovery(price: real) returns (action: Action)
      requires price > 0.0
      modifies this`position
      ensures Outcome(action, position) == ProcessRecovery(terms, old(position), price)
    {
      hide ExecuteRecoveryDca, ExecuteRecoveryClose, RecoveryTarget, RecoveryAnchorNow, Leg, Remaining;
      var target := RecoveryTarget(terms, position);
      if target > 0.0 && price >= target {
        var done := CloseBasket(price);
        return if done then RecoveryTakeProfit else Refused;
      }
      var anchor := RecoveryAnchorNow(terms, position);
      var leg := Leg(terms, position.recoveryDcaCount, anchor, Remaining(terms, position));
      if leg.InvalidInput? { return Refused; }
      if leg.Leg? && price <= leg.triggerPrice {
        var done := AddRecoveryLeg(price, anchor);
        return if done then RecoveryDca else Refused;
      }
      return Hold;
    }
  }

  lemma SaleStep(subs: seq<Sub>, i: nat, price: real)
    requires i < |subs|
    ensures ClosedSubs(subs[..i + 1], price) == ClosedSubs(subs[..i], price) + [ClosedSub(subs[i], price)]
    ensures SubSales(subs[..i + 1], price)
         == SubSales(subs[..i], price) + (if Eligible(subs[i], price) then [SubSale(subs[i], price)] else [])
    ensures EligiblePnl(subs[..i + 1], price)
         == EligiblePnl(subs[..i], price) + (if Eligible(subs[i], price) then Pnl(subs[i], price) else 0.0)
  {
    assert subs[..i + 1][..i] == subs[..i];
  }

  lemma EmptyStep(subs: seq<Sub>, i: nat, price: real)
    requires i < |subs|
    ensures EmptiedSubs(subs[..i + 1], price) == EmptiedSubs(subs[..i], price) + [EmptiedSub(subs[i], price)]
  {
    assert subs[..i + 1][..i] == subs[..i];
  }
}
