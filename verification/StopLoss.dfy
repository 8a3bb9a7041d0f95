/**
 The stop-loss sells a basket one leg per tick, and asks again before every
 leg whether what is left is still below its own stop price. Exactly when no
 remainder was bought at a lower average than the whole does that never matter.
 */
module StopLoss {
  import opened Reals
  import Fills = FillAccounting
  import opened StrategyRunner

  /** c / q <= d / r, without dividing. */
  predicate NoDearer(c: real, q: real, d: real, r: real) {
    c * r <= d * q
  }

  predicate LegsPositive(p: Position) {
    && (forall i :: 0 <= i < |p.legs| ==> p.legs[i].quantity > 0.0 && p.legs[i].cost > 0.0)
    && p.quantity >= 0.0 && p.cost >= 0.0 && (p.quantity > 0.0 <==> p.cost > 0.0)
  }

  /* ---- One remainder ---- */

  /** The stop condition without a division. */
  lemma StopHitIs(cost: real, quantity: real, percent: real, price: real)
    requires quantity > 0.0 && cost > 0.0
    ensures StopHit(cost, quantity, percent, price) <==> price * quantity <= cost * (1.0 - percent / 100.0)
  {
    QuotientPositive(cost, quantity);
    ScaledQuotient(price, cost, quantity, 1.0 - percent / 100.0);
  }

  /** A part with no lower average than the whole is below its stop wherever the whole is below its own. */
  lemma PartIsHit(cost: real, quantity: real, part: real, coins: real, percent: real, price: real)
    requires cost > 0.0 && quantity > 0.0 && part > 0.0 && coins > 0.0
    requires NoDearer(cost, quantity, part, coins) && StopHit(cost, quantity, percent, price) && percent <= 100.0
    ensures StopHit(part, coins, percent, price)
  {
    var f := 1.0 - percent / 100.0;
    StopHitIs(cost, quantity, percent, price);
    StopHitIs(part, coins, percent, price);
    hide StopHit;
    // price * quantity <= cost * f and cost * coins <= part * quantity
    ProductMonotone(price * quantity, cost * f, coins);
    ProductMonotone(cost * coins, part * quantity, f);
    Swap(price, quantity, coins);
    Swap(cost, f, coins);
    Swap(part, quantity, f);
    CompareProducts(price * coins, part * f, quantity);
  }

  /** The stop price itself. */
  function StopPrice(cost: real, quantity: real, percent: real): real
    requires quantity > 0.0
  {
    cost / quantity * (1.0 - percent / 100.0)
  }

  lemma StopPriceHits(cost: real, quantity: real, percent: real)
    requires cost > 0.0 && quantity > 0.0 && percent < 100.0
    ensures StopPrice(cost, quantity, percent) > 0.0 && StopHit(cost, quantity, percent, StopPrice(cost, quantity, percent))
  {
    QuotientPositive(cost, quantity);
    ProductPositive(cost / quantity, 1.0 - percent / 100.0);
  }

  /** A part that is hit at the whole's stop price has no lower average. */
  lemma HitPartIsNoCheaper(cost: real, quantity: real, part: real, coins: real, percent: real)
    requires cost > 0.0 && quantity > 0.0 && part > 0.0 && coins > 0.0 && percent < 100.0
    requires StopHit(part, coins, percent, StopPrice(cost, quantity, percent))
    ensures NoDearer(cost, quantity, part, coins)
  {
    var f, average := 1.0 - percent / 100.0, cost / quantity;
    StopHitIs(part, coins, percent, average * f);
    hide StopHit;
    QuotientTimes(cost, quantity);
    Swap(average, f, coins);
    CompareProducts(average * coins, part, f);
    ProductMonotone(average * coins, part, quantity);
    Swap(average, coins, quantity);
  }

  /* ---- All remainders ---- */

  /** What is left when the legs above the first k have been sold. */
  function Remainder(p: Position, k: nat): Position
    requires k <= |p.legs|
  {
    p.(legs := p.legs[..k])
  }

  /** No remainder was bought at a lower average than the whole basket. */
  predicate NoneCheaper(p: Position) {
    forall k :: 0 <= k <= |p.legs| && BasketQuantity(Remainder(p, k)) > 0.0 ==>
      NoDearer(BasketCost(p), BasketQuantity(p), BasketCost(Remainder(p, k)), BasketQuantity(Remainder(p, k)))
  }

  predicate RemaindersHit(s: Terms, p: Position, price: real) {
    forall k :: 0 <= k <= |p.legs| && BasketQuantity(Remainder(p, k)) > 0.0 ==> StopLossHit(s, Remainder(p, k), price)
  }

  ghost predicate StopHolds(s: Terms, p: Position) {
    forall price: real :: price > 0.0 && StopLossHit(s, p, price) ==> RemaindersHit(s, p, price)
  }

  lemma {:induction false} LegsHold(legs: seq<Leg>)
    requires forall i :: 0 <= i < |legs| ==> legs[i].quantity > 0.0 && legs[i].cost > 0.0
    ensures LegsQuantity(legs) >= 0.0 && LegsCost(legs) >= 0.0
    ensures legs != [] ==> LegsQuantity(legs) > 0.0 && LegsCost(legs) > 0.0
  {
    if legs != [] { LegsHold(legs[..|legs| - 1]); }
  }

  /** Whatever is held has cost something. */
  lemma RemainderPositive(p: Position, k: nat)
    requires LegsPositive(p) && k <= |p.legs|
    ensures LegsPositive(Remainder(p, k))
    ensures BasketQuantity(Remainder(p, k)) >= 0.0
    ensures BasketQuantity(Remainder(p, k)) > 0.0 <==> BasketCost(Remainder(p, k)) > 0.0
  {
    LegsHold(p.legs[..k]);
  }

  /**
   A stop that is hit stays hit for every remainder, at whatever price it is hit, if and only if no
   remainder was bought at a lower average than the whole.
   */
  lemma StopHoldsExactly(s: Terms, p: Position)
    requires LegsPositive(p) && BasketQuantity(p) > 0.0
    requires s.stopLossPercent.Some? && 0.0 < s.stopLossPercent.value < 100.0
    ensures StopHolds(s, p) <==> NoneCheaper(p)
  {
    var percent := s.stopLossPercent.value;
    WholeIsPositive(p);
    if NoneCheaper(p) {
      forall price: real | price > 0.0 && StopLossHit(s, p, price) ensures RemaindersHit(s, p, price) {
        NoneCheaperIsHit(s, p, price);
      }
    }
    if StopHolds(s, p) {
      var price := StopPrice(BasketCost(p), BasketQuantity(p), percent);
      StopPriceHits(BasketCost(p), BasketQuantity(p), percent);
      assert RemaindersHit(s, p, price);
      forall k | 0 <= k <= |p.legs| && BasketQuantity(Remainder(p, k)) > 0.0
        ensures NoDearer(BasketCost(p), BasketQuantity(p), BasketCost(Remainder(p, k)), BasketQuantity(Remainder(p, k)))
      {
        RemainderPositive(p, k);
        assert StopLossHit(s, Remainder(p, k), price);
        hide NoDearer, StopHit, BasketCost, BasketQuantity, Remainder, LegsPositive, StopPrice;
        HitPartIsNoCheaper(BasketCost(p), BasketQuantity(p), BasketCost(Remainder(p, k)), BasketQuantity(Remainder(p, k)), percent);
      }
    }
  }

  lemma WholeIsPositive(p: Position)
    requires LegsPositive(p) && BasketQuantity(p) > 0.0
    ensures BasketCost(p) > 0.0
  {
    RemainderPositive(p, |p.legs|);
    assert p.legs[..|p.legs|] == p.legs;
  }

  lemma NoneCheaperIsHit(s: Terms, p: Position, price: real)
    requires LegsPositive(p) && NoneCheaper(p) && price > 0.0 && StopLossHit(s, p, price)
    ensures RemaindersHit(s, p, price)
  {
    WholeIsPositive(p);
    PercentBelowHundred(BasketCost(p), BasketQuantity(p), s.stopLossPercent.value, price);
    forall k | 0 <= k <= |p.legs| && BasketQuantity(Remainder(p, k)) > 0.0 ensures StopLossHit(s, Remainder(p, k), price) {
      RemainderPositive(p, k);
      hide NoDearer, StopHit, BasketCost, BasketQuantity, Remainder, LegsPositive;
      PartIsHit(BasketCost(p), BasketQuantity(p), BasketCost(Remainder(p, k)), BasketQuantity(Remainder(p, k)), s.stopLossPercent.value, price);
    }
  }

  /** No positive price is a hundred percent below an average. */
  lemma PercentBelowHundred(cost: real, quantity: real, percent: real, price: real)
    requires cost > 0.0 && quantity > 0.0 && price > 0.0 && StopHit(cost, quantity, percent, price)
    ensures percent < 100.0
  {
    StopHitIs(cost, quantity, percent, price);
    hide StopHit;
    ProductPositive(price, quantity);
    if percent >= 100.0 { ProductMonotone(1.0 - percent / 100.0, 0.0, cost); }
  }

  /* ---- Falling prices ---- */

  /** Each leg cost no more per coin than the one below it, and the lowest no more than the parent. */
  predicate Descending(p: Position) {
    && LegsPositive(p)
    && (forall i :: 0 < i < |p.legs| ==> NoDearer(p.legs[i].cost, p.legs[i].quantity, p.legs[i - 1].cost, p.legs[i - 1].quantity))
    && (p.legs != [] && p.quantity > 0.0 ==> NoDearer(p.legs[0].cost, p.legs[0].quantity, p.cost, p.quantity))
  }

  lemma NoDearerThrough(c: real, q: real, d: real, r: real, e: real, t: real)
    requires NoDearer(c, q, d, r) && NoDearer(d, r, e, t) && q >= 0.0 && r > 0.0 && t >= 0.0
    ensures NoDearer(c, q, e, t)
  {
    ProductMonotone(c * r, d * q, t);
    ProductMonotone(d * t, e * r, q);
    Swap(c, r, t);
    Swap(d, q, t);
    Swap(e, r, q);
    CompareProducts(c * t, e * q, r);
  }

  lemma SamePrice(c: real, q: real)
    ensures NoDearer(c, q, c, q)
  {
  }

  /** Two parts that are each no dearer are no dearer together, on either side. */
  lemma NoDearerSum(c: real, q: real, d: real, r: real, e: real, t: real)
    requires NoDearer(c, q, d, r) && NoDearer(c, q, e, t)
    ensures NoDearer(c, q, d + e, r + t)
  {
    Distribute(r, t, c);
    Distribute(d, e, q);
  }

  lemma SumNoDearer(c: real, q: real, d: real, r: real, e: real, t: real)
    requires NoDearer(c, q, e, t) && NoDearer(d, r, e, t)
    ensures NoDearer(c + d, q + r, e, t)
  {
    Distribute(c, d, t);
    Distribute(q, r, e);
  }

  lemma {:induction false} UpperIsCheaper(p: Position, i: nat, k: nat)
    requires Descending(p) && i <= k < |p.legs|
    ensures NoDearer(p.legs[k].cost, p.legs[k].quantity, p.legs[i].cost, p.legs[i].quantity)
    decreases k - i
  {
    hide NoDearer;
    var top := p.legs[k];
    if i == k {
      SamePrice(top.cost, top.quantity);
    } else {
      UpperIsCheaper(p, i + 1, k);
      NoDearerThrough(top.cost, top.quantity, p.legs[i + 1].cost, p.legs[i + 1].quantity, p.legs[i].cost, p.legs[i].quantity);
    }
  }

  lemma LegsOfPrefix(legs: seq<Leg>, j: nat)
    requires 0 < j <= |legs|
    ensures LegsCost(legs[..j]) == LegsCost(legs[..j - 1]) + legs[j - 1].cost
    ensures LegsQuantity(legs[..j]) == LegsQuantity(legs[..j - 1]) + legs[j - 1].quantity
  {
    assert legs[..j][..j - 1] == legs[..j - 1];
  }

  lemma {:induction false} UpperAgainstRest(p: Position, k: nat, j: nat)
    requires Descending(p) && j <= k < |p.legs|
    ensures NoDearer(p.legs[k].cost, p.legs[k].quantity, BasketCost(Remainder(p, j)), BasketQuantity(Remainder(p, j)))
    decreases j
  {
    var top := p.legs[k];
    if j == 0 {
      UpperIsCheaper(p, 0, k);
      if p.quantity > 0.0 {
        NoDearerThrough(top.cost, top.quantity, p.legs[0].cost, p.legs[0].quantity, p.cost, p.quantity);
      }
    } else {
      UpperAgainstRest(p, k, j - 1);
      UpperIsCheaper(p, j - 1, k);
      LegsOfPrefix(p.legs, j);
      hide NoDearer, LegsCost, LegsQuantity;
      NoDearerSum(top.cost, top.quantity, BasketCost(Remainder(p, j - 1)), BasketQuantity(Remainder(p, j - 1)),
                  p.legs[j - 1].cost, p.legs[j - 1].quantity);
    }
  }

  lemma {:induction false} MoreIsNoDearer(p: Position, k: nat, m: nat)
    requires Descending(p) && k <= m <= |p.legs|
    ensures NoDearer(BasketCost(Remainder(p, m)), BasketQuantity(Remainder(p, m)), BasketCost(Remainder(p, k)), BasketQuantity(Remainder(p, k)))
    decreases m
  {
    var c, q := BasketCost(Remainder(p, k)), BasketQuantity(Remainder(p, k));
    if m == k {
      SamePrice(c, q);
    } else {
      MoreIsNoDearer(p, k, m - 1);
      UpperAgainstRest(p, m - 1, k);
      LegsOfPrefix(p.legs, m);
      hide NoDearer, LegsCost, LegsQuantity;
      SumNoDearer(BasketCost(Remainder(p, m - 1)), BasketQuantity(Remainder(p, m - 1)), p.legs[m - 1].cost, p.legs[m - 1].quantity, c, q);
    }
  }

  /** A ladder bought at falling prices satisfies the condition, whatever the quantities. */
  lemma FallingPricesHold(p: Position)
    requires Descending(p)
    ensures NoneCheaper(p)
  {
    forall k | 0 <= k <= |p.legs|
      ensures NoDearer(BasketCost(p), BasketQuantity(p), BasketCost(Remainder(p, k)), BasketQuantity(Remainder(p, k)))
    {
      MoreIsNoDearer(p, k, |p.legs|);
      assert p.legs[..|p.legs|] == p.legs;
      hide NoDearer, Descending;
    }
  }

  /* ---- Tick by tick ---- */

  /** The position once the next leg of a stop-loss has been sold in full. */
  function AfterSale(p: Position): Position {
    if p.legs != [] then p.(legs := p.legs[..|p.legs| - 1]) else p.(quantity := 0.0, cost := 0.0)
  }

  /** The position after n ticks, each of whose sells is filled in full. */
  function AfterSales(p: Position, n: nat): Position
    decreases n
  {
    if n == 0 then p else AfterSales(AfterSale(p), n - 1)
  }

  /** One leg per tick from the top, then the parent, then nothing. */
  lemma {:induction false} OneLegPerTick(p: Position, n: nat)
    ensures AfterSales(p, n) == if n <= |p.legs| then Remainder(p, |p.legs| - n) else p.(legs := [], quantity := 0.0, cost := 0.0)
    decreases n
  {
    if n > 0 {
      OneLegPerTick(AfterSale(p), n - 1);
    }
  }

  /** With something left, the tick sells: the top leg, or the parent when no leg is left. */
  lemma StopLossSells(s: Terms, p: Position, m: Market)
    requires LegsPositive(p) && m.price > 0.0 && StopLossHit(s, p, m.price)
    ensures Decide(s, Some(p), m)
         == if p.legs != [] then SellAll(Fills.IndependentExit, p.legs[|p.legs| - 1].level, p.legs[|p.legs| - 1].quantity)
            else SellAll(Fills.ParentExit, 0, p.quantity)
  {
    assert BasketQuantity(p) > 0.0;
    hide StopHit, LegsCost;
  }

  /** Every tick on what is left still finds the stop hit, and sells. */
  ghost predicate SellsThrough(s: Terms, p: Position, m: Market) {
    forall n: nat :: BasketQuantity(AfterSales(p, n)) > 0.0 ==>
      StopLossHit(s, AfterSales(p, n), m.price) && Decide(s, Some(AfterSales(p, n)), m).SellAll?
  }

  lemma SellsThroughExactly(s: Terms, p: Position, m: Market)
    requires LegsPositive(p) && m.price > 0.0
    ensures SellsThrough(s, p, m) <==> RemaindersHit(s, p, m.price)
    ensures BasketQuantity(AfterSales(p, |p.legs| + 1)) == 0.0
  {
    hide Decide, StopLossHit, LegsPositive, BasketQuantity, AfterSales;
    if RemaindersHit(s, p, m.price) {
      forall n: nat | BasketQuantity(AfterSales(p, n)) > 0.0
        ensures StopLossHit(s, AfterSales(p, n), m.price) && Decide(s, Some(AfterSales(p, n)), m).SellAll?
      {
        OneLegPerTick(p, n);
        NothingIsEmpty(p);
        RemainderPositive(p, |p.legs| - n);
        StopLossSells(s, Remainder(p, |p.legs| - n), m);
      }
    }
    if SellsThrough(s, p, m) {
      forall k | 0 <= k <= |p.legs| && BasketQuantity(Remainder(p, k)) > 0.0 ensures StopLossHit(s, Remainder(p, k), m.price) {
        OneLegPerTick(p, |p.legs| - k);
      }
    }
    OneLegPerTick(p, |p.legs| + 1);
    NothingIsEmpty(p);
  }

  lemma NothingIsEmpty(p: Position)
    ensures BasketQuantity(p.(legs := [], quantity := 0.0, cost := 0.0)) == 0.0
  {
  }

  /**
   A triggered stop-loss sells the whole basket at an unchanged price, one leg per tick, whatever the
   price at which it triggers, if and only if no remainder was bought at a lower average than the whole.
   */
  lemma StopLossSellsEverything(s: Terms, p: Position)
    requires LegsPositive(p) && BasketQuantity(p) > 0.0
    requires s.stopLossPercent.Some? && 0.0 < s.stopLossPercent.value < 100.0
    ensures (forall m: Market :: m.price > 0.0 && StopLossHit(s, p, m.price) ==> SellsThrough(s, p, m)) <==> NoneCheaper(p)
  {
    StopHoldsExactly(s, p);
    hide StopLossHit, LegsPositive, NoneCheaper, BasketQuantity, SellsThrough, RemaindersHit;
    if StopHolds(s, p) {
      forall m: Market | m.price > 0.0 && StopLossHit(s, p, m.price) ensures SellsThrough(s, p, m) {
        SellsThroughExactly(s, p, m);
      }
    } else {
      var price: real :| price > 0.0 && StopLossHit(s, p, price) && !RemaindersHit(s, p, price);
      SellsThroughExactly(s, p, Market(price, false, false));
    }
  }
}
