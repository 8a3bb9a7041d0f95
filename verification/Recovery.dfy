/** Recovery legs: extra buys below the first independent level, and the basket they are sized against. */
module Recovery {
  import opened Reals

  datatype Config = Config(
    enabled: bool,
    maxOrders: nat,
    steps: seq<real>,
    multipliers: seq<real>,
    takeProfitPercent: real)

  /** What normalizeConfig lets through. */
  predicate Normal(c: Config) {
    && c.maxOrders <= 20 && c.maxOrders <= |c.steps| && c.maxOrders <= |c.multipliers|
    && (forall i :: 0 <= i < |c.steps| ==> c.steps[i] > 0.0)
    && (forall i :: 0 < i < |c.steps| ==> c.steps[i - 1] < c.steps[i])
    && (forall i :: 0 <= i < |c.multipliers| ==> c.multipliers[i] > 0.0)
    && c.takeProfitPercent > 0.0
  }

  /** A leg, none left, or the error the source throws. */
  datatype NextLegResult =
    | Leg(recoveryLevel: nat, triggerPrice: real, requestedQuote: real, quoteAmount: real)
    | NoLeg
    | InvalidInput

  function NextLeg(c: Config, recoveryCount: nat, anchorPrice: real, baseOrderQuote: real, remainingBudget: real): (r: NextLegResult)
    requires Normal(c)
    ensures r.Leg? ==> 0.0 < r.quoteAmount <= remainingBudget && r.quoteAmount <= r.requestedQuote
    ensures r.Leg? ==> recoveryCount < c.maxOrders && r.recoveryLevel == recoveryCount + 1
    ensures r.Leg? ==> r.triggerPrice < anchorPrice
    ensures r.InvalidInput? ==> anchorPrice <= 0.0 || baseOrderQuote <= 0.0
  {
    if !c.enabled || recoveryCount >= c.maxOrders || remainingBudget <= 0.0 then NoLeg
    else if anchorPrice <= 0.0 || baseOrderQuote <= 0.0 then InvalidInput
    else
      var requested := baseOrderQuote * c.multipliers[recoveryCount];
      ProductPositive(baseOrderQuote, c.multipliers[recoveryCount]);
      ProductPositive(anchorPrice, c.steps[recoveryCount] / 100.0);
      Leg(recoveryCount + 1, anchorPrice * (1.0 - c.steps[recoveryCount] / 100.0), requested, Min(requested, remainingBudget))
  }

  function StepBelow(price: real, percent: real): real {
    price * (1.0 - percent / 100.0)
  }

  function Multiple(base: real, factor: real): real {
    base * factor
  }

  /** Which leg is next, and what it asks for, with the base order that a plan guarantees. */
  lemma NextLegIs(c: Config, count: nat, anchor: real, base: real, remaining: real)
    requires Normal(c) && base > 0.0
    ensures NextLeg(c, count, anchor, base, remaining)
         == if !c.enabled || count >= c.maxOrders || remaining <= 0.0 then NoLeg
            else if anchor <= 0.0 then InvalidInput
            else Leg(count + 1, StepBelow(anchor, c.steps[count]), Multiple(base, c.multipliers[count]),
                              Min(Multiple(base, c.multipliers[count]), remaining))
  {
    if count < c.maxOrders { ProductPositive(base, c.multipliers[count]); }
  }

  /** Legs trigger ever lower: a price that reaches one leg has reached every earlier one. */
  lemma LegsDescend(c: Config, i: nat, j: nat, anchor: real, base: real, remainingI: real, remainingJ: real)
    requires Normal(c) && i < j
    requires NextLeg(c, i, anchor, base, remainingI).Leg? && NextLeg(c, j, anchor, base, remainingJ).Leg?
    ensures NextLeg(c, j, anchor, base, remainingJ).triggerPrice < NextLeg(c, i, anchor, base, remainingI).triggerPrice
  {
    StepsIncrease(c, i, j);
    FartherIsLower(anchor, c.steps[i], c.steps[j]);
  }

  lemma FartherIsLower(anchor: real, near: real, far: real)
    requires anchor > 0.0 && near < far
    ensures anchor * (1.0 - far / 100.0) < anchor * (1.0 - near / 100.0)
  {
    var high, low := 1.0 - near / 100.0, 1.0 - far / 100.0;
    ProductPositive(high - low, anchor);
    Distribute(high, low, anchor);
  }

  lemma {:induction false} StepsIncrease(c: Config, i: nat, j: nat)
    requires Normal(c) && i < j < |c.steps|
    ensures c.steps[i] < c.steps[j]
  {
    if i + 1 < j { StepsIncrease(c, i, j - 1); }
  }

  /* ---- Basket totals ---- */

  datatype Holding = Holding(open: bool, quantity: real, costQuote: real)
  datatype Basket = Basket(quantity: real, costQuote: real)

  function OpenQuantity(subs: seq<Holding>): real {
    if subs == [] then 0.0
    else OpenQuantity(subs[..|subs| - 1]) + (if subs[|subs| - 1].open then subs[|subs| - 1].quantity else 0.0)
  }

  function OpenCost(subs: seq<Holding>): real {
    if subs == [] then 0.0
    else OpenCost(subs[..|subs| - 1]) + (if subs[|subs| - 1].open then subs[|subs| - 1].costQuote else 0.0)
  }

  method BasketTotals(parentQuantity: real, parentCost: real, subs: seq<Holding>) returns (b: Basket)
    ensures b == Basket(parentQuantity + OpenQuantity(subs), parentCost + OpenCost(subs))
  {
    var quantity, costQuote := parentQuantity, parentCost;
    for i := 0 to |subs|
      invariant quantity == parentQuantity + OpenQuantity(subs[..i])
      invariant costQuote == parentCost + OpenCost(subs[..i])
    {
      assert subs[..i + 1][..i] == subs[..i];
      if subs[i].open {
        quantity := quantity + subs[i].quantity;
        costQuote := costQuote + subs[i].costQuote;
      }
    }
    assert subs[..|subs|] == subs;
    b := Basket(quantity, costQuote);
  }

  /** The price at which the whole basket is sold; none for an empty basket. */
  function GlobalTakeProfit(c: Config, b: Basket): Option<real> {
    if b.quantity > 0.0 && b.costQuote / b.quantity > 0.0
    then Some(b.costQuote / b.quantity * (1.0 + c.takeProfitPercent / 100.0))
    else None
  }
}
