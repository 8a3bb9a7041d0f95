/**
 When a paper tick sells and buys: the branches of `PaperTrading` against the
 conditions themselves, on the legs as they stand, with averages compared
 without dividing.
 */
module PaperDecisions {
  import opened Reals
  import RiskBudget
  import Recovery
  import opened PaperTrading

  predicate LegReached(sub: Sub, price: real) {
    sub.open && price >= sub.takeProfitPrice
  }

  predicate SomeLegReached(p: Position, price: real) {
    exists i :: 0 <= i < |p.subs| && LegReached(p.subs[i], price)
  }

  /** The parent's target: its own, or afresh above its average when the tick has just sold a leg. */
  predicate ParentReached(s: Terms, p: Position, price: real) {
    if SomeLegReached(p, price)
    then p.quantity > 0.0 && price * p.quantity >= p.cost * (1.0 + s.plan.takeProfitPercent / 100.0)
    else p.takeProfitPrice.Some? && price >= p.takeProfitPrice.value
  }

  /** The target of the whole basket: the stored one, or so many percent above its average. */
  predicate BasketReached(s: Terms, p: Position, price: real) {
    match p.recoveryTakeProfitPrice
    case Some(target) => target > 0.0 && price >= target
    case None => BasketQuantity(p) > 0.0 && BasketCost(p) > 0.0
                 && price * BasketQuantity(p) >= BasketCost(p) * (1.0 + s.recovery.takeProfitPercent / 100.0)
  }

  /** What has become of leg i: sold at the price if it had reached its target, and as it was otherwise. */
  predicate LegServed(sub: Sub, after: Sub, price: real) {
    if LegReached(sub, price) then after == sub.(open := false, realized := sub.quantity * price - sub.cost) else after == sub
  }

  predicate LegsServed(p: Position, q: Position, price: real) {
    |p.subs| <= |q.subs| && forall i :: 0 <= i < |p.subs| ==> LegServed(p.subs[i], q.subs[i], price)
  }

  lemma ReachedIsEligible(p: Position, price: real)
    ensures SomeLegReached(p, price) <==> SomeEligible(p, price)
  {
    assert forall i :: 0 <= i < |p.subs| ==> (LegReached(p.subs[i], price) <==> Eligible(p.subs[i], price));
  }

  lemma LegsAreServed(s: Terms, p: Position, price: real)
    ensures LegsServed(p, CloseEligible(s, p, price), price) && |CloseEligible(s, p, price).subs| == |p.subs|
  {
    hide Average, Up, SubSales, EligiblePnl, AllOpenEligible;
    ReachedIsEligible(p, price);
    if !SomeEligible(p, price) {
      forall i | 0 <= i < |p.subs| ensures LegServed(p.subs[i], p.subs[i], price) { assert !Eligible(p.subs[i], price); }
    }
  }

  /** After the legs the parent is due exactly when its target, as it stands then, is reached. */
  lemma TargetThen(s: Terms, p: Position, price: real)
    ensures TakesProfit(CloseEligible(s, p, price), price) <==> ParentReached(s, p, price)
    ensures var q := CloseEligible(s, p, price); q.quantity == p.quantity && q.cost == p.cost && q.nextDcaPrice == p.nextDcaPrice
  {
    hide SubSales, EligiblePnl, AllOpenEligible, SomeEligible, SomeLegReached, ClosedSubs;
    ReachedIsEligible(p, price);
    if p.quantity > 0.0 { AboveAverage(p.cost, p.quantity, s.plan.takeProfitPercent, price); }
    hide Up, Average;
  }

  lemma AboveAverage(cost: real, quantity: real, percent: real, price: real)
    requires quantity > 0.0
    ensures price >= Up(Average(cost, quantity), percent) <==> price * quantity >= cost * (1.0 + percent / 100.0)
  {
    ScaledQuotient(price, cost, quantity, 1.0 + percent / 100.0);
  }

  /* ---- A tick outside recovery ---- */

  /** A purchase adds a leg or adds to the parent; the legs that were there stay. */
  lemma BuysKeepLegs(s: Terms, p: Position, price: real, anchor: real)
    requires price > 0.0
    ensures p.subs <= ExecuteDca(s, p, price).position.subs && p.subs == ExecuteRecoveryDca(s, p, price, anchor).position.subs
    ensures !ExecuteDca(s, p, price).action.TakeProfit? && !ExecuteRecoveryDca(s, p, price, anchor).action.TakeProfit?
  {
    hide Leg, Remaining, BasketCost, NextTrigger, Average, Up, Bought, GlobalTakeProfit, BasketQuantity, DcaLevel;
  }

  lemma CloseSells(p: Position, price: real)
    ensures var o := ExecuteClose(p, price);
            && (o.action.TakeProfit? <==> p.quantity > 0.0) && o.position.subs == p.subs
            && (o.action.TakeProfit? ==> o.position.quantity == 0.0 && o.position.cost == 0.0
                                         && o.position.realized == p.realized + p.quantity * price - p.cost)
  {
  }

  /**
   Outside recovery a tick sells every leg that has reached its target, and no other; and the parent, if it holds
   anything, exactly when its target is reached.
   */
  lemma NormalTickSellsExactly(s: Terms, p: Position, price: real)
    requires p.open && price > 0.0 && !p.recoveryMode
    ensures var t := ProcessPrice(s, p, price);
            && LegsServed(p, t.position, price)
            && (t.action.TakeProfit? <==> p.quantity > 0.0 && ParentReached(s, p, price))
            && (t.action.TakeProfit? ==> t.position.quantity == 0.0 && t.position.cost == 0.0)
  {
    hide CloseEligible, ExecuteClose, ExecuteDca, ExecuteRecoveryDca, TakesProfit, ParentReached, FirstLegDue, DcaDue, RecoveryAnchor, LegServed;
    var q := CloseEligible(s, p, price);
    LegsAreServed(s, p, price);
    TargetThen(s, p, price);
    CloseSells(q, price);
    BuysKeepLegs(s, q, price, if RecoveryAnchor(s, q).Some? then RecoveryAnchor(s, q).value else 0.0);
    assert FirstLegDue(s, q, price) ==> RecoveryAnchor(s, q).Some? by { DueHasAnchor(s, q, price); }
  }

  lemma DueHasAnchor(s: Terms, p: Position, price: real)
    ensures FirstLegDue(s, p, price) ==> RecoveryAnchor(s, p).Some?
  {
  }

  /** Leg i is the first, open or not, at the level where independent legs start. */
  predicate IsAnchor(s: Terms, p: Position, i: nat) {
    && i < |p.subs| && p.subs[i].level == s.plan.independentFromLevel
    && forall j :: 0 <= j < i ==> p.subs[j].level != s.plan.independentFromLevel
  }

  /** The recovery order after `count` others is left and affordable, and the price has fallen its step below the anchor. */
  predicate RecoveryDue(s: Terms, p: Position, count: nat, anchor: real, price: real) {
    && s.recovery.enabled && count < s.recovery.maxOrders && BasketCost(p) < s.plan.riskBudgetQuote && anchor > 0.0
    && price <= Recovery.StepBelow(anchor, s.recovery.steps[count])
  }

  /** The first recovery order is due outside recovery. */
  ghost predicate FirstRecoveryDue(s: Terms, p: Position, price: real) {
    p.dcaCount + 1 >= s.plan.independentFromLevel
    && exists i: nat :: IsAnchor(s, p, i) && RecoveryDue(s, p, 0, p.subs[i].entryPrice, price)
  }

  predicate LadderDue(p: Position, price: real) {
    p.nextDcaPrice.Some? && price <= p.nextDcaPrice.value
  }

  lemma {:induction false} NoAnchor(subs: seq<Sub>, level: nat)
    requires forall i :: 0 <= i < |subs| ==> subs[i].level != level
    ensures AnchorEntry(subs, level) == 0.0
  {
    if subs != [] { NoAnchor(subs[1..], level); }
  }

  lemma {:induction false} AnchorAt(subs: seq<Sub>, level: nat, i: nat)
    requires i < |subs| && subs[i].level == level && forall j :: 0 <= j < i ==> subs[j].level != level
    ensures AnchorEntry(subs, level) == subs[i].entryPrice
    decreases i
  {
    if i > 0 { AnchorAt(subs[1..], level, i - 1); }
  }

  lemma AnchorIsFirst(subs: seq<Sub>, level: nat)
    ensures (forall i :: 0 <= i < |subs| ==> subs[i].level != level) ==> AnchorEntry(subs, level) == 0.0
    ensures forall i: nat :: i < |subs| && subs[i].level == level && (forall j :: 0 <= j < i ==> subs[j].level != level) ==>
              AnchorEntry(subs, level) == subs[i].entryPrice
  {
    hide AnchorEntry;
    if forall i :: 0 <= i < |subs| ==> subs[i].level != level { NoAnchor(subs, level); }
    forall i: nat | i < |subs| && subs[i].level == level && (forall j :: 0 <= j < i ==> subs[j].level != level)
      ensures AnchorEntry(subs, level) == subs[i].entryPrice
    {
      AnchorAt(subs, level, i);
    }
  }

  lemma {:induction false} FirstAt(subs: seq<Sub>, level: nat, n: nat) returns (i: nat)
    requires n < |subs| && subs[n].level == level
    ensures i < |subs| && subs[i].level == level && forall j :: 0 <= j < i ==> subs[j].level != level
  {
    if m: nat :| m < n && subs[m].level == level { i := FirstAt(subs, level, m); } else { i := n; }
  }

  lemma FirstDueExactly(s: Terms, p: Position, price: real)
    ensures FirstLegDue(s, p, price) <==> FirstRecoveryDue(s, p, price)
  {
    var level := s.plan.independentFromLevel;
    AnchorIsFirst(p.subs, level);
    hide AnchorEntry, BasketCost, Recovery.NextLeg, Recovery.StepBelow, Recovery.Multiple;
    assert Remaining(s, p) == if BasketCost(p) < s.plan.riskBudgetQuote then s.plan.riskBudgetQuote - BasketCost(p) else 0.0;
    hide Remaining;
    if exists n: nat :: n < |p.subs| && p.subs[n].level == level {
      var n: nat :| n < |p.subs| && p.subs[n].level == level;
      var i := FirstAt(p.subs, level, n);
      assert IsAnchor(s, p, i);
      assert AnchorEntry(p.subs, level) == p.subs[i].entryPrice;
    }
    Recovery.NextLegIs(s.recovery, 0, AnchorEntry(p.subs, level), s.plan.baseOrderQuote, Remaining(s, p));
  }

  /** What a tick outside recovery buys when it does not sell the parent, on the row that the sold legs leave. */
  lemma NormalTickBuysExactly(s: Terms, p: Position, price: real)
    requires p.open && price > 0.0 && !p.recoveryMode && !ParentReached(s, p, price)
    ensures var t, q := ProcessPrice(s, p, price), CloseEligible(s, p, price);
            if FirstRecoveryDue(s, q, price) then t.action.RecoveryDca? || t.action.Refused?
            else if LadderDue(q, price) then t == ExecuteDca(s, q, price)
            else t == Outcome(Hold, q)
  {
    hide CloseEligible, ExecuteClose, ExecuteDca, ParentReached, TakesProfit, FirstLegDue, FirstRecoveryDue, Leg, Remaining, BasketCost, RecoveryAnchor;
    TargetThen(s, p, price);
    FirstDueExactly(s, CloseEligible(s, p, price), price);
    DueHasAnchor(s, CloseEligible(s, p, price), price);
  }

  /* ---- A tick in recovery ---- */

  lemma TargetIsReached(s: Terms, p: Position, price: real)
    ensures RecoveryTarget(s, p) > 0.0 && price >= RecoveryTarget(s, p) <==> BasketReached(s, p, price)
  {
    if p.recoveryTakeProfitPrice.None? {
      var cost, coins, factor := BasketCost(p), BasketQuantity(p), 1.0 + s.recovery.takeProfitPercent / 100.0;
      hide BasketCost, BasketQuantity;
      if coins > 0.0 {
        QuotientTimes(cost, coins);
        CompareProducts(cost / coins, 0.0, coins);
        if cost > 0.0 {
          ProductPositive(cost / coins, factor);
          ScaledQuotient(price, cost, coins, factor);
        }
      }
    }
  }

  lemma RecoveryCloseSells(s: Terms, p: Position, price: real)
    ensures var o := ExecuteRecoveryClose(s, p, price);
            && (o.action.RecoveryTakeProfit? <==> BasketQuantity(p) > 0.0)
            && (o.action.RecoveryTakeProfit? ==>
                  && !o.position.open && !o.position.recoveryMode && o.position.quantity == 0.0 && !HasOpenSub(o.position)
                  && o.position.realized == p.realized + BasketQuantity(p) * price - BasketCost(p))
  {
    hide BasketQuantity, BasketCost;
  }

  /** In recovery a tick sells the whole basket, if it holds anything, exactly when the basket's target is reached. */
  lemma RecoveryTickSellsExactly(s: Terms, p: Position, price: real)
    requires p.open && price > 0.0 && p.recoveryMode
    ensures var t := ProcessPrice(s, p, price);
            && (t.action.RecoveryTakeProfit? <==> BasketQuantity(p) > 0.0 && BasketReached(s, p, price))
            && (t.action.RecoveryTakeProfit? ==>
                  && !t.position.open && t.position.quantity == 0.0 && !HasOpenSub(t.position)
                  && t.position.realized == p.realized + BasketQuantity(p) * price - BasketCost(p))
  {
    hide ExecuteRecoveryClose, ExecuteRecoveryDca, RecoveryTarget, BasketReached, BasketQuantity, BasketCost, Leg, Remaining, RecoveryAnchorNow;
    TargetIsReached(s, p, price);
    RecoveryCloseSells(s, p, price);
    RecoveryBuyIsNoSale(s, p, price, RecoveryAnchorNow(s, p));
  }

  lemma RecoveryBuyIsNoSale(s: Terms, p: Position, price: real, anchor: real)
    requires price > 0.0
    ensures !ExecuteRecoveryDca(s, p, price, anchor).action.RecoveryTakeProfit?
  {
    hide Leg, Remaining, BasketCost, RecoveryBought;
  }

  /** Otherwise it buys the next recovery order exactly when that is due and its amount passes the budget's guard. */
  lemma RecoveryTickBuysExactly(s: Terms, p: Position, price: real)
    requires p.open && price > 0.0 && p.recoveryMode && !BasketReached(s, p, price) && p.recoveryAnchorPrice.Some?
    ensures var t, count, anchor := ProcessPrice(s, p, price), p.recoveryDcaCount, p.recoveryAnchorPrice.value;
            t.action.RecoveryDca? <==> RecoveryDue(s, p, count, anchor, price)
  {
    hide BasketReached, RecoveryTarget, BasketCost, Recovery.NextLeg, Recovery.StepBelow, RecoveryBought;
    TargetIsReached(s, p, price);
    assert Remaining(s, p) == if BasketCost(p) < s.plan.riskBudgetQuote then s.plan.riskBudgetQuote - BasketCost(p) else 0.0;
    hide Remaining;
    var count := p.recoveryDcaCount;
    Recovery.NextLegIs(s.recovery, count, p.recoveryAnchorPrice.value, s.plan.baseOrderQuote, Remaining(s, p));
    if count < s.recovery.maxOrders { ProductPositive(s.plan.baseOrderQuote, s.recovery.multipliers[count]); }
  }

  /* ---- Requests by hand ---- */

  /** At no price nothing is served. */
  lemma NothingWithoutAPrice(s: Terms, p: Position, r: Request)
    requires (match r case Price(x) => x case AddDca(x) => x case ClosePosition(x) => x) <= 0.0
    ensures Serve(s, p, r) == Outcome(Refused, p)
  {
  }

  /** A level is bought by hand at or below its trigger, while the plan has one that fits the budget. */
  lemma AddDcaExactly(s: Terms, p: Position, price: real)
    ensures Serve(s, p, AddDca(price)).action.Dca? <==>
            && p.open && price > 0.0 && (p.nextDcaPrice.None? || price <= p.nextDcaPrice.value)
            && p.dcaCount + 1 < |Plan(s)| && Plan(s)[p.dcaCount + 1].quoteAmount > 0.0
            && BasketCost(p) + Plan(s)[p.dcaCount + 1].quoteAmount <= s.plan.riskBudgetQuote + RiskBudget.EPSILON
    ensures !Serve(s, p, AddDca(price)).action.Dca? ==> Serve(s, p, AddDca(price)) == Outcome(Refused, p)
  {
    hide Plan, BasketCost, DcaBought;
  }

  /** The parent is closed by hand whenever it holds anything. */
  lemma CloseExactly(s: Terms, p: Position, price: real)
    ensures Serve(s, p, ClosePosition(price)).action.TakeProfit? <==> p.open && price > 0.0 && p.quantity > 0.0
    ensures !Serve(s, p, ClosePosition(price)).action.TakeProfit? ==> Serve(s, p, ClosePosition(price)) == Outcome(Refused, p)
  {
    hide Value, HasOpenSub;
  }
}
