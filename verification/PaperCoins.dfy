/**
 The coins of a paper position. `PaperLaws` balances its money; here the coins
 of the open legs are those bought less those sold, order by order, and every
 order is for its quantity at the price of the request that made it.
 */
module PaperCoins {
  import opened Reals
  import opened PaperTrading

  function CoinsOf(o: Order): real {
    if o.side.Buy? then o.quantity else -o.quantity
  }

  /** Coins bought less coins sold, over the order log. */
  function NetCoins(orders: seq<Order>): real {
    if orders == [] then 0.0 else NetCoins(orders[..|orders| - 1]) + CoinsOf(orders[|orders| - 1])
  }

  lemma CoinsAppend(orders: seq<Order>, o: Order)
    ensures NetCoins(orders + [o]) == NetCoins(orders) + CoinsOf(o)
  {
    assert (orders + [o])[..|orders|] == orders;
  }

  lemma {:induction false} CoinsConcat(a: seq<Order>, b: seq<Order>)
    ensures NetCoins(a + b) == NetCoins(a) + NetCoins(b)
  {
    if b == [] {
      assert a + b == a;
    } else {
      CoinsConcat(a, b[..|b| - 1]);
      assert (a + b)[..|a + b| - 1] == a + b[..|b| - 1];
    }
  }

  lemma QuantityAppend(subs: seq<Sub>, sub: Sub)
    ensures OpenQuantity(subs + [sub]) == OpenQuantity(subs) + (if sub.open then sub.quantity else 0.0)
  {
    assert (subs + [sub])[..|subs|] == subs;
  }

  /** The open legs hold what was bought and not sold. */
  predicate CoinsHeld(p: Position) {
    p.quantity + OpenQuantity(p.subs) == NetCoins(p.orders)
  }

  /** From a place in the log on, every order is for its quantity at the price. */
  predicate PricedFrom(orders: seq<Order>, from: nat, price: real) {
    forall i :: from <= i < |orders| ==> orders[i].quote == orders[i].quantity * price
  }

  /** What a request does: the coins stay in step, and the log grows by orders at its price. */
  predicate Traded(p: Position, q: Position, price: real) {
    (CoinsHeld(p) ==> CoinsHeld(q)) && p.orders <= q.orders && PricedFrom(q.orders, |p.orders|, price)
  }

  lemma Untraded(p: Position, price: real)
    ensures Traded(p, p, price)
  {
  }

  lemma TradedTwice(p: Position, q: Position, r: Position, price: real)
    requires Traded(p, q, price) && Traded(q, r, price)
    ensures Traded(p, r, price)
  {
    hide CoinsHeld;
    forall i | |p.orders| <= i < |r.orders| ensures r.orders[i].quote == r.orders[i].quantity * price {
      if i < |q.orders| { assert r.orders[i] == q.orders[i]; }
    }
  }

  lemma OneOrder(p: Position, q: Position, o: Order, price: real)
    requires q.orders == p.orders + [o] && o.quote == o.quantity * price
    requires q.quantity + OpenQuantity(q.subs) == p.quantity + OpenQuantity(p.subs) + CoinsOf(o)
    ensures Traded(p, q, price)
  {
    hide OpenQuantity;
    CoinsAppend(p.orders, o);
  }

  lemma BoughtFor(quote: real, price: real)
    requires price > 0.0
    ensures Bought(quote, price) * price == quote
  {
    QuotientTimes(quote, price);
  }

  /* ---- Sales ---- */

  lemma ValueIs(quantity: real, price: real)
    ensures Value(quantity, price) == quantity * price
  {
  }

  /** Eligible legs are sold whole. */
  lemma {:induction false} SalesAreTheirLegs(subs: seq<Sub>, price: real)
    ensures OpenQuantity(ClosedSubs(subs, price)) == OpenQuantity(subs) + NetCoins(SubSales(subs, price))
  {
    hide Value;
    if subs != [] {
      var init, last := subs[..|subs| - 1], subs[|subs| - 1];
      SalesAreTheirLegs(init, price);
      QuantityAppend(ClosedSubs(init, price), ClosedSub(last, price));
      if Eligible(last, price) {
        CoinsAppend(SubSales(init, price), SubSale(last, price));
      } else {
        assert SubSales(init, price) + [] == SubSales(init, price);
      }
    }
  }

  lemma {:induction false} SalesArePriced(subs: seq<Sub>, price: real)
    ensures PricedFrom(SubSales(subs, price), 0, price)
  {
    hide Value;
    if subs != [] {
      SalesArePriced(subs[..|subs| - 1], price);
      ValueIs(subs[|subs| - 1].quantity, price);
    }
  }

  lemma {:induction false} EmptiedHoldNothing(subs: seq<Sub>, price: real)
    ensures OpenQuantity(EmptiedSubs(subs, price)) == 0.0
  {
    if subs != [] {
      EmptiedHoldNothing(subs[..|subs| - 1], price);
      QuantityAppend(EmptiedSubs(subs[..|subs| - 1], price), EmptiedSub(subs[|subs| - 1], price));
    }
  }

  lemma CloseEligibleTrades(s: Terms, p: Position, price: real)
    ensures Traded(p, CloseEligible(s, p, price), price)
  {
    hide Average, Up, NetCoins, OpenQuantity, SubSales, ClosedSubs, EligiblePnl, SomeEligible, AllOpenEligible;
    SalesAreTheirLegs(p.subs, price);
    SalesArePriced(p.subs, price);
    CoinsConcat(p.orders, SubSales(p.subs, price));
    var q := CloseEligible(s, p, price);
    forall i | |p.orders| <= i < |q.orders| ensures q.orders[i].quote == q.orders[i].quantity * price {
      assert q.orders[i] == SubSales(p.subs, price)[i - |p.orders|];
    }
  }

  lemma ExecuteCloseTrades(p: Position, price: real)
    ensures Traded(p, ExecuteClose(p, price).position, price)
  {
    hide NetCoins, OpenQuantity, HasOpenSub, CoinsHeld, PricedFrom, Value;
    ValueIs(p.quantity, price);
    if p.quantity > 0.0 {
      OneOrder(p, ExecuteClose(p, price).position, Order(Sell, p.dcaCount + 2, p.quantity, Value(p.quantity, price)), price);
    } else {
      Untraded(p, price);
    }
  }

  lemma RecoveryCloseTrades(s: Terms, p: Position, price: real)
    ensures Traded(p, ExecuteRecoveryClose(s, p, price).position, price)
  {
    hide NetCoins, OpenQuantity, EmptiedSubs, CoinsHeld, PricedFrom, Value, BasketCost;
    ValueIs(BasketQuantity(p), price);
    EmptiedHoldNothing(p.subs, price);
    if BasketQuantity(p) > 0.0 {
      var o := Order(Sell, s.plan.maxDcaOrders + p.recoveryDcaCount + 2, BasketQuantity(p), Value(BasketQuantity(p), price));
      OneOrder(p, ExecuteRecoveryClose(s, p, price).position, o, price);
    } else {
      Untraded(p, price);
    }
  }

  /* ---- Purchases ---- */

  lemma DcaTrades(s: Terms, p: Position, price: real)
    requires price > 0.0
    ensures Traded(p, ExecuteDca(s, p, price).position, price)
  {
    hide NetCoins, OpenQuantity, CoinsHeld, PricedFrom, Average, Up, NextTrigger, Bought, Plan;
    if DcaLevel(s, p).Some? {
      var allocation := DcaLevel(s, p).value;
      var quote, level := allocation.quoteAmount, p.dcaCount + 2;
      BoughtFor(quote, price);
      QuantityAppend(p.subs, Sub(level, true, Bought(quote, price), quote, price, Up(price, s.subTakeProfitPercent), 0.0));
      OneOrder(p, DcaBought(s, p, price, allocation), Order(Buy, level, Bought(quote, price), quote), price);
    } else {
      Untraded(p, price);
    }
  }

  lemma RecoveryDcaTrades(s: Terms, p: Position, price: real, anchor: real)
    requires price > 0.0
    ensures Traded(p, ExecuteRecoveryDca(s, p, price, anchor).position, price)
  {
    hide NetCoins, OpenQuantity, CoinsHeld, PricedFrom, Bought, GlobalTakeProfit, BasketQuantity, BasketCost, Remaining, Leg;
    var leg := Leg(s, p.recoveryDcaCount, anchor, Remaining(s, p));
    Untraded(p, price);
    if leg.Leg? {
      BoughtFor(leg.quoteAmount, price);
      OneOrder(p, RecoveryBought(s, p, price, anchor, leg.quoteAmount),
               Order(Buy, s.plan.maxDcaOrders + p.recoveryDcaCount + 2, Bought(leg.quoteAmount, price), leg.quoteAmount), price);
    }
  }

  /* ---- Requests and runs ---- */

  lemma ProcessPriceTrades(s: Terms, p: Position, price: real)
    ensures Traded(p, ProcessPrice(s, p, price).position, price)
  {
    hide Traded, ExecuteClose, ExecuteDca, ExecuteRecoveryDca, ExecuteRecoveryClose, CloseEligible, RecoveryTarget, RecoveryAnchorNow,
      TakesProfit, DcaDue, RecoveryAnchor, Leg, Remaining;
    Untraded(p, price);
    if price > 0.0 && p.open {
      if p.recoveryMode {
        RecoveryCloseTrades(s, p, price);
        RecoveryDcaTrades(s, p, price, RecoveryAnchorNow(s, p));
      } else {
        CloseEligibleTrades(s, p, price);
        var q := CloseEligible(s, p, price);
        Untraded(q, price);
        ExecuteCloseTrades(q, price);
        if RecoveryAnchor(s, q).Some? { RecoveryDcaTrades(s, q, price, RecoveryAnchor(s, q).value); }
        DcaTrades(s, q, price);
        TradedTwice(p, q, ProcessPrice(s, p, price).position, price);
      }
    }
  }

  lemma ServeTrades(s: Terms, p: Position, r: Request)
    ensures Traded(p, Serve(s, p, r).position, r.price)
  {
    hide Traded, ProcessPrice, ExecuteDca, ExecuteClose;
    Untraded(p, r.price);
    match r
    case Price(price) => ProcessPriceTrades(s, p, price);
    case AddDca(price) => if price > 0.0 { DcaTrades(s, p, price); }
    case ClosePosition(price) => ExecuteCloseTrades(p, price);
  }

  lemma OpenHoldsCoins(s: Terms, price: real)
    requires OpenPosition(s, price).Some?
    ensures var p := OpenPosition(s, price).value; CoinsHeld(p) && PricedFrom(p.orders, 0, price) && |p.orders| == 1
  {
    hide Plan, NextTrigger, Up, Bought;
    var o := OpenPosition(s, price).value.orders[0];
    CoinsAppend([], o);
    assert [] + [o] == [o];
    BoughtFor(Plan(s)[0].quoteAmount, price);
  }

  /** After any sequence of ticks, manual buys and manual closes the open legs hold the coins bought less the coins sold. */
  lemma {:induction false} RunHoldsItsCoins(s: Terms, price: real, requests: seq<Request>)
    requires OpenPosition(s, price).Some?
    ensures CoinsHeld(Run(s, OpenPosition(s, price).value, requests))
  {
    if requests == [] {
      OpenHoldsCoins(s, price);
    } else {
      var before := requests[..|requests| - 1];
      RunHoldsItsCoins(s, price, before);
      hide OpenPosition, Serve, CoinsHeld, PricedFrom;
      ServeTrades(s, Run(s, OpenPosition(s, price).value, before), requests[|requests| - 1]);
    }
  }

  /** The opening order is at the opening price, and the orders that a request adds are at its price; none ever changes. */
  lemma OrdersAreAtTheirPrices(s: Terms, price: real, requests: seq<Request>, n: nat)
    requires OpenPosition(s, price).Some? && n < |requests|
    ensures var p, q := Run(s, OpenPosition(s, price).value, requests[..n]), Run(s, OpenPosition(s, price).value, requests[..n + 1]);
            && PricedFrom(OpenPosition(s, price).value.orders, 0, price)
            && p.orders <= q.orders && PricedFrom(q.orders, |p.orders|, requests[n].price)
  {
    OpenHoldsCoins(s, price);
    hide OpenPosition, Serve;
    assert requests[..n + 1][..n] == requests[..n];
    ServeTrades(s, Run(s, OpenPosition(s, price).value, requests[..n]), requests[n]);
  }
}
