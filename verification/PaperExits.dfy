/**
 Closed paper positions hold nothing, with one exception: a tick that closes the
 last independent leg of a sold-out parent goes on to the buying rules.
 */
module PaperExits {
  import opened Reals
  import RiskBudget
  import opened PaperTrading

  predicate Buys(action: Action) {
    action.Dca? || action.RecoveryDca?
  }

  predicate HoldsNothing(p: Position) {
    p.quantity <= DUST && !HasOpenSub(p)
  }

  /** The branch that closes the whole position along with its independent legs. */
  predicate LastLegsClose(p: Position, price: real) {
    !p.recoveryMode && SomeEligible(p, price) && p.quantity <= DUST && AllOpenEligible(p, price)
  }

  /** A recovery leg that is due, and passes the guards of the purchase. */
  predicate RecoveryBuyDue(s: Terms, p: Position, price: real) {
    FirstLegDue(s, p, price) &&
    var leg := Leg(s, p.recoveryDcaCount, RecoveryAnchor(s, p).value, Remaining(s, p));
    leg.Leg? && RiskBudget.WithinBudget(leg.quoteAmount, BasketCost(p), s.plan.riskBudgetQuote)
  }

  predicate LadderBuyDue(s: Terms, p: Position, price: real) {
    !FirstLegDue(s, p, price) && DcaDue(p, price) && DcaLevel(s, p).Some?
  }

  lemma BuysKeepStatus(s: Terms, p: Position, price: real, anchor: real)
    requires price > 0.0
    ensures ExecuteDca(s, p, price).position.open == p.open
    ensures ExecuteRecoveryDca(s, p, price, anchor).position.open == p.open
    ensures Buys(ExecuteDca(s, p, price).action) <==> DcaLevel(s, p).Some?
    ensures Buys(ExecuteRecoveryDca(s, p, price, anchor).action) <==>
            (Leg(s, p.recoveryDcaCount, anchor, Remaining(s, p)).Leg? &&
             RiskBudget.WithinBudget(Leg(s, p.recoveryDcaCount, anchor, Remaining(s, p)).quoteAmount, BasketCost(p), s.plan.riskBudgetQuote))
  {
    hide Leg, Remaining, BasketCost, NextTrigger, Average, Up, Bought, GlobalTakeProfit, BasketQuantity, DcaLevel;
  }

  lemma ExitsDoNotBuy(s: Terms, p: Position, price: real)
    ensures !Buys(ExecuteClose(p, price).action) && !Buys(ExecuteRecoveryClose(s, p, price).action)
  {
    hide Value, BasketQuantity, BasketCost, EmptiedSubs, HasOpenSub;
  }

  /**
   A tick on an open position buys into a position it has just closed exactly when it closes the last
   independent legs of a sold-out parent and, on the row that leaves, a buying rule is due.
   */
  lemma TickBuysIntoClosedExactly(s: Terms, p: Position, price: real)
    requires p.open && price > 0.0
    ensures var after := ProcessPrice(s, p, price); var q := CloseEligible(s, p, price);
            (Buys(after.action) && !after.position.open) <==>
            (LastLegsClose(p, price) && !TakesProfit(q, price) && (RecoveryBuyDue(s, q, price) || LadderBuyDue(s, q, price)))
  {
    hide ExecuteClose, ExecuteDca, ExecuteRecoveryDca, ExecuteRecoveryClose, RecoveryTarget, RecoveryAnchorNow, SomeEligible,
      AllOpenEligible, Leg, Remaining, BasketCost, DcaLevel, Average, Up, EligiblePnl, ClosedSubs, SubSales, RecoveryAnchor;
    var q := CloseEligible(s, p, price);
    assert q.open <==> !(SomeEligible(p, price) && p.quantity <= DUST && AllOpenEligible(p, price));
    ExitsDoNotBuy(s, p, price);
    ExitsDoNotBuy(s, q, price);
    BuysKeepStatus(s, p, price, RecoveryAnchorNow(s, p));
    BuysKeepStatus(s, q, price, if RecoveryAnchor(s, q).Some? then RecoveryAnchor(s, q).value else 0.0);
    hide CloseEligible;
  }

  /** In every other case a request that closes a position leaves nothing in it. */
  lemma ClosingLeavesNothing(s: Terms, p: Position, r: Request)
    requires p.open && !Serve(s, p, r).position.open && !Buys(Serve(s, p, r).action)
    ensures HoldsNothing(Serve(s, p, r).position)
  {
    hide Value, BasketQuantity, BasketCost, RecoveryTarget, RecoveryAnchorNow, RecoveryAnchor, Leg, Remaining, DcaLevel, Average, Up,
      EligiblePnl, SubSales, NextTrigger, Bought, GlobalTakeProfit, DcaBought, RecoveryBought, FirstLegDue;
    var price := match r case Price(x) => x case AddDca(x) => x case ClosePosition(x) => x;
    if r.Price? && price > 0.0 && !p.recoveryMode {
      var q := CloseEligible(s, p, price);
      if !q.open { ClosedLegsHoldNothing(s, p, price); }
    }
  }

  lemma ClosedLegsHoldNothing(s: Terms, p: Position, price: real)
    requires p.open && !CloseEligible(s, p, price).open
    ensures HoldsNothing(CloseEligible(s, p, price))
  {
    hide Average, Up, EligiblePnl, SubSales;
  }
}
