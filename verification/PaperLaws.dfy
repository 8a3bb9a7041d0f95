/** What every run of ticks and requests on a paper position keeps. */
module PaperLaws {
  import opened Reals
  import RiskBudget
  import opened PaperTrading

  /* ---- Conservation ---- */

  function FlowOf(o: Order): real {
    if o.side.Sell? then o.quote else -o.quote
  }

  /** Sells less buys, over the order log. */
  function NetFlow(orders: seq<Order>): real {
    if orders == [] then 0.0 else NetFlow(orders[..|orders| - 1]) + FlowOf(orders[|orders| - 1])
  }

  lemma FlowAppend(orders: seq<Order>, o: Order)
    ensures NetFlow(orders + [o]) == NetFlow(orders) + FlowOf(o)
  {
    assert (orders + [o])[..|orders|] == orders;
  }

  lemma {:induction false} FlowConcat(a: seq<Order>, b: seq<Order>)
    ensures NetFlow(a + b) == NetFlow(a) + NetFlow(b)
  {
    if b == [] {
      assert a + b == a;
    } else {
      FlowConcat(a, b[..|b| - 1]);
      assert (a + b)[..|a + b| - 1] == a + b[..|b| - 1];
    }
  }

  lemma CostAppend(subs: seq<Sub>, sub: Sub)
    ensures OpenCost(subs + [sub]) == OpenCost(subs) + (if sub.open then sub.cost else 0.0)
  {
    assert (subs + [sub])[..|subs|] == subs;
  }

  /** Realised profit = sells - buys + the cost of everything still open. */
  predicate Conserved(p: Position) {
    p.realized == NetFlow(p.orders) + BasketCost(p)
  }

  /** What eligible legs are sold for is their profit plus the cost that leaves the basket. */
  lemma {:induction false} SalesBalance(subs: seq<Sub>, price: real)
    ensures NetFlow(SubSales(subs, price)) + OpenCost(ClosedSubs(subs, price)) == EligiblePnl(subs, price) + OpenCost(subs)
  {
    hide Value;
    if subs != [] {
      var init, last := subs[..|subs| - 1], subs[|subs| - 1];
      SalesBalance(init, price);
      CostAppend(ClosedSubs(init, price), ClosedSub(last, price));
      if Eligible(last, price) {
        FlowAppend(SubSales(init, price), SubSale(last, price));
      } else {
        assert SubSales(subs, price) == SubSales(init, price) + [];
        assert SubSales(init, price) + [] == SubSales(init, price);
      }
    }
  }

  lemma {:induction false} EmptiedCost(subs: seq<Sub>, price: real)
    ensures OpenCost(EmptiedSubs(subs, price)) == 0.0
  {
    if subs != [] {
      EmptiedCost(subs[..|subs| - 1], price);
      CostAppend(EmptiedSubs(subs[..|subs| - 1], price), EmptiedSub(subs[|subs| - 1], price));
    }
  }

  lemma CloseEligibleConserves(s: Terms, p: Position, price: real)
    requires Conserved(p)
    ensures Conserved(CloseEligible(s, p, price))
  {
    hide Average, Up, NetFlow, OpenCost, SubSales, ClosedSubs, EligiblePnl, SomeEligible, AllOpenEligible;
    SalesBalance(p.subs, price);
    FlowConcat(p.orders, SubSales(p.subs, price));
  }

  lemma ExecuteCloseConserves(p: Position, price: real)
    requires Conserved(p)
    ensures Conserved(ExecuteClose(p, price).position)
  {
    hide Value, NetFlow, OpenCost, HasOpenSub;
    FlowAppend(p.orders, Order(Sell, p.dcaCount + 2, p.quantity, Value(p.quantity, price)));
  }

  lemma RecoveryCloseConserves(s: Terms, p: Position, price: real)
    requires Conserved(p)
    ensures Conserved(ExecuteRecoveryClose(s, p, price).position)
  {
    hide Value, NetFlow, OpenCost, OpenQuantity, EmptiedSubs;
    var proceeds := Value(BasketQuantity(p), price);
    FlowAppend(p.orders, Order(Sell, s.plan.maxDcaOrders + p.recoveryDcaCount + 2, BasketQuantity(p), proceeds));
    EmptiedCost(p.subs, price);
  }

  /** The basket after a buy costs exactly the amount more, whichever leg it goes to. */
  lemma DcaBoughtBasket(s: Terms, p: Position, price: real, allocation: RiskBudget.PlannedLevel)
    requires price > 0.0
    ensures BasketCost(DcaBought(s, p, price, allocation)) == BasketCost(p) + allocation.quoteAmount
    ensures NetFlow(DcaBought(s, p, price, allocation).orders) == NetFlow(p.orders) - allocation.quoteAmount
  {
    hide Average, Up, NetFlow, OpenCost, NextTrigger, Bought;
    var quote, level := allocation.quoteAmount, p.dcaCount + 2;
    CostAppend(p.subs, Sub(level, true, Bought(quote, price), quote, price, Up(price, s.subTakeProfitPercent), 0.0));
    FlowAppend(p.orders, Order(Buy, level, Bought(quote, price), quote));
  }

  lemma RecoveryBoughtBasket(s: Terms, p: Position, price: real, anchor: real, quote: real)
    requires price > 0.0
    ensures BasketCost(RecoveryBought(s, p, price, anchor, quote)) == BasketCost(p) + quote
    ensures NetFlow(RecoveryBought(s, p, price, anchor, quote).orders) == NetFlow(p.orders) - quote
  {
    hide Average, Up, NetFlow, OpenCost, Bought, Leg, GlobalTakeProfit, BasketQuantity, Remaining;
    FlowAppend(p.orders, Order(Buy, s.plan.maxDcaOrders + p.recoveryDcaCount + 2, Bought(quote, price), quote));
  }

  /* ---- Limits ---- */

  predicate SubSound(sub: Sub) {
    sub.quantity >= 0.0 && sub.cost >= 0.0
  }

  /** Levels of independent legs are distinct and were taken in order, so the next one is free. */
  predicate SubsInOrder(subs: seq<Sub>, next: nat) {
    && (forall i :: 0 <= i < |subs| ==> SubSound(subs[i]) && subs[i].level < next)
    && (forall i, j :: 0 <= i < j < |subs| ==> subs[i].level < subs[j].level)
  }

  predicate Limits(s: Terms, p: Position) {
    && p.quantity >= 0.0 && p.cost >= 0.0
    && SubsInOrder(p.subs, p.dcaCount + 2)
    && p.dcaCount <= s.plan.maxDcaOrders
    && p.recoveryDcaCount <= s.recovery.maxOrders
    && BasketCost(p) <= s.plan.riskBudgetQuote + RiskBudget.EPSILON
  }

  predicate Inv(s: Terms, p: Position) {
    Conserved(p) && Limits(s, p)
  }

  lemma {:induction false} OpenCostBounds(subs: seq<Sub>, price: real)
    requires forall i :: 0 <= i < |subs| ==> SubSound(subs[i])
    ensures 0.0 <= OpenCost(ClosedSubs(subs, price)) <= OpenCost(subs)
  {
    if subs != [] {
      var init, last := subs[..|subs| - 1], subs[|subs| - 1];
      OpenCostBounds(init, price);
      CostAppend(ClosedSubs(init, price), ClosedSub(last, price));
    }
  }

  lemma CloseEligibleInv(s: Terms, p: Position, price: real)
    requires Inv(s, p)
    ensures Inv(s, CloseEligible(s, p, price))
  {
    hide Conserved, Average, Up, NetFlow, OpenCost, SubSales, EligiblePnl, SomeEligible, AllOpenEligible, Value;
    CloseEligibleConserves(s, p, price);
    OpenCostBounds(p.subs, price);
  }

  lemma ExecuteCloseInv(s: Terms, p: Position, price: real)
    requires Inv(s, p)
    ensures Inv(s, ExecuteClose(p, price).position)
  {
    hide Conserved, Value, NetFlow, OpenCost, HasOpenSub;
    ExecuteCloseConserves(p, price);
  }

  lemma RecoveryCloseInv(s: Terms, p: Position, price: real)
    requires Inv(s, p)
    ensures Inv(s, ExecuteRecoveryClose(s, p, price).position)
  {
    hide Conserved, Value, NetFlow, OpenCost, OpenQuantity;
    RecoveryCloseConserves(s, p, price);
    EmptiedCost(p.subs, price);
  }

  lemma BoughtPositive(quote: real, price: real)
    requires quote > 0.0 && price > 0.0
    ensures Bought(quote, price) > 0.0
  {
    QuotientPositive(quote, price);
  }

  lemma PlanLevel(s: Terms, index: nat)
    requires index < |Plan(s)|
    ensures index <= s.plan.maxDcaOrders && Plan(s)[index].level == index + 1
    ensures Plan(s)[index].independent <==> index + 1 >= s.plan.independentFromLevel
  {
    RiskBudget.PlannedLevelsAreAmounts(s.plan, 1, index);
  }

  lemma ExecuteDcaInv(s: Terms, p: Position, price: real)
    requires Inv(s, p) && price > 0.0
    ensures Inv(s, ExecuteDca(s, p, price).position)
  {
    hide Average, Up, NetFlow, OpenCost, NextTrigger, Bought, Plan;
    if DcaLevel(s, p).Some? {
      var allocation := DcaLevel(s, p).value;
      PlanLevel(s, p.dcaCount + 1);
      DcaBoughtBasket(s, p, price, allocation);
      BoughtPositive(allocation.quoteAmount, price);
    }
  }

  lemma ExecuteRecoveryDcaInv(s: Terms, p: Position, price: real, anchor: real)
    requires Inv(s, p) && price > 0.0
    ensures Inv(s, ExecuteRecoveryDca(s, p, price, anchor).position)
  {
    hide Average, Up, NetFlow, OpenCost, Bought, GlobalTakeProfit, BasketQuantity, BasketCost;
    var leg := Leg(s, p.recoveryDcaCount, anchor, Remaining(s, p));
    assert leg.Leg? ==> p.recoveryDcaCount < s.recovery.maxOrders;
    hide Leg;
    if leg.Leg? && RiskBudget.WithinBudget(leg.quoteAmount, BasketCost(p), s.plan.riskBudgetQuote) {
      RecoveryBoughtBasket(s, p, price, anchor, leg.quoteAmount);
      BoughtPositive(leg.quoteAmount, price);
    }
  }

  lemma ProcessPriceInv(s: Terms, p: Position, price: real)
    requires Inv(s, p)
    ensures Inv(s, ProcessPrice(s, p, price).position)
  {
    hide Inv, ExecuteClose, ExecuteDca, ExecuteRecoveryDca, ExecuteRecoveryClose, CloseEligible, RecoveryTarget, RecoveryAnchorNow,
      TakesProfit, DcaDue, RecoveryAnchor, Leg, Remaining;
    if price > 0.0 && p.open {
      if p.recoveryMode {
        RecoveryCloseInv(s, p, price);
        ExecuteRecoveryDcaInv(s, p, price, RecoveryAnchorNow(s, p));
      } else {
        CloseEligibleInv(s, p, price);
        var q := CloseEligible(s, p, price);
        ExecuteCloseInv(s, q, price);
        if FirstLegDue(s, q, price) && RecoveryAnchor(s, q).Some? { ExecuteRecoveryDcaInv(s, q, price, RecoveryAnchor(s, q).value); }
        ExecuteDcaInv(s, q, price);
      }
    }
  }

  lemma ServeInv(s: Terms, p: Position, r: Request)
    requires Inv(s, p)
    ensures Inv(s, Serve(s, p, r).position)
  {
    hide Inv, ProcessPrice, ExecuteDca, ExecuteClose;
    match r
    case Price(price) => ProcessPriceInv(s, p, price);
    case AddDca(price) => if price > 0.0 { ExecuteDcaInv(s, p, price); }
    case ClosePosition(price) => ExecuteCloseInv(s, p, price);
  }

  /* ---- Every run ---- */

  /** Budget and base order are stored with eight decimals. */
  predicate StoredTerms(s: Terms) {
    RiskBudget.EightDecimals(s.plan.riskBudgetQuote) && RiskBudget.EightDecimals(s.plan.baseOrderQuote)
  }

  lemma OpenAmount(s: Terms)
    requires StoredTerms(s)
    ensures Plan(s) != []
    ensures Plan(s)[0].quoteAmount == Min(s.plan.baseOrderQuote, s.plan.riskBudgetQuote)
  {
    RiskBudget.PlanStep(s.plan, 1);
    assert RiskBudget.Amount(s.plan, 1) == Min(s.plan.baseOrderQuote, s.plan.riskBudgetQuote);
    RiskBudget.RoundsExactly(s.plan.riskBudgetQuote);
    RiskBudget.RoundsExactly(s.plan.baseOrderQuote);
  }

  lemma OpenInv(s: Terms, price: real)
    requires StoredTerms(s) && price > 0.0
    ensures OpenPosition(s, price).Some? && Inv(s, OpenPosition(s, price).value)
  {
    OpenAmount(s);
    hide Plan, StoredTerms, NextTrigger, Up, Bought;
    var quote := Plan(s)[0].quoteAmount;
    BoughtPositive(quote, price);
    FlowAppend([], Order(Buy, 1, Bought(quote, price), quote));
    assert [] + [Order(Buy, 1, Bought(quote, price), quote)] == [Order(Buy, 1, Bought(quote, price), quote)];
  }

  /**
   After any sequence of ticks, manual buys and manual closes: realised profit equals sells less buys
   plus what is still open, the basket stays within the risk budget, and neither counter passes its limit.
   */
  lemma {:induction false} RunInv(s: Terms, price: real, requests: seq<Request>)
    requires StoredTerms(s) && price > 0.0
    ensures OpenPosition(s, price).Some?
    ensures Inv(s, Run(s, OpenPosition(s, price).value, requests))
  {
    OpenInv(s, price);
    hide Inv, OpenPosition, Serve;
    if requests != [] {
      RunInv(s, price, requests[..|requests| - 1]);
      ServeInv(s, Run(s, OpenPosition(s, price).value, requests[..|requests| - 1]), requests[|requests| - 1]);
    }
  }
}
