/**
 Paper trading: the strategy as one position row that every price tick and
 every user request moves on. A request that the source refuses with an
 exception leaves the row as the last committed transaction left it.
 */
module PaperTrading {
  import opened Reals
  import RiskBudget
  import Recovery

  datatype Strategy = Strategy(plan: RiskBudget.PlanInput, recovery: Recovery.Config, subTriggerPercent: real, subTakeProfitPercent: real)

  /** What the plan and the recovery service accept. */
  type Terms = s: Strategy | RiskBudget.Validates(s.plan) && Recovery.Normal(s.recovery) witness EXAMPLE

  const EXAMPLE := Strategy(RiskBudget.PlanInput(100.0, 10.0, 1, 2.0, 1.0, [], 1.5, 2), Recovery.Config(true, 1, [5.0], [1.0], 1.5), 2.0, 1.5)

  const DUST: real := 0.000000000001

  datatype Sub = Sub(level: nat, open: bool, quantity: real, cost: real, entryPrice: real, takeProfitPrice: real, realized: real)

  datatype Side = Buy | Sell

  datatype Order = Order(side: Side, level: nat, quantity: real, quote: real)

  datatype Position = Position(
    open: bool,
    quantity: real,
    cost: real,
    realized: real,
    dcaCount: nat,
    nextDcaPrice: Option<real>,
    takeProfitPrice: Option<real>,
    recoveryMode: bool,
    recoveryDcaCount: nat,
    recoveryAnchorPrice: Option<real>,
    recoveryTakeProfitPrice: Option<real>,
    subs: seq<Sub>,
    orders: seq<Order>)

  datatype Action = TakeProfit | RecoveryTakeProfit | RecoveryDca | Dca | Hold | Refused

  datatype Outcome = Outcome(action: Action, position: Position)

  function Up(price: real, percent: real): real {
    price * (1.0 + percent / 100.0)
  }

  function Down(price: real, percent: real): real {
    price * (1.0 - percent / 100.0)
  }

  function Value(quantity: real, price: real): real {
    quantity * price
  }

  function Bought(quote: real, price: real): real
    requires price > 0.0
  {
    quote / price
  }

  function Average(cost: real, quantity: real): real {
    if quantity > 0.0 then cost / quantity else 0.0
  }

  /* ---- The basket ---- */

  function OpenQuantity(subs: seq<Sub>): real {
    if subs == [] then 0.0
    else OpenQuantity(subs[..|subs| - 1]) + (if subs[|subs| - 1].open then subs[|subs| - 1].quantity else 0.0)
  }

  function OpenCost(subs: seq<Sub>): real {
    if subs == [] then 0.0
    else OpenCost(subs[..|subs| - 1]) + (if subs[|subs| - 1].open then subs[|subs| - 1].cost else 0.0)
  }

  function BasketCost(p: Position): real {
    p.cost + OpenCost(p.subs)
  }

  function BasketQuantity(p: Position): real {
    p.quantity + OpenQuantity(p.subs)
  }

  function Remaining(s: Strategy, p: Position): real {
    Max(s.plan.riskBudgetQuote - BasketCost(p), 0.0)
  }

  function GlobalTakeProfit(s: Strategy, cost: real, quantity: real): Option<real> {
    Recovery.GlobalTakeProfit(s.recovery, Recovery.Basket(quantity, cost))
  }

  predicate HasOpenSub(p: Position) {
    exists i :: 0 <= i < |p.subs| && p.subs[i].open
  }

  /* ---- Opening ---- */

  function Plan(s: Terms): (levels: seq<RiskBudget.PlannedLevel>) {
    RiskBudget.PlannedLevels(s.plan, 1)
  }

  /** The trigger of the planned level with this index, if there is one. */
  function NextTrigger(s: Terms, index: nat, price: real): Option<real> {
    if index >= |Plan(s)| then None
    else Some(Down(price, if Plan(s)[index].independent then s.subTriggerPercent else s.plan.dcaStepPercent))
  }

  /** The first level of the plan, bought at the market. */
  function OpenPosition(s: Terms, price: real): Option<Position> {
    if price <= 0.0 || Plan(s) == [] then None
    else
      var quote := Plan(s)[0].quoteAmount;
      var quantity := Bought(quote, price);
      Some(Position(true, quantity, quote, 0.0, 0, NextTrigger(s, 1, price), Some(Up(price, s.plan.takeProfitPercent)),
                    false, 0, None, None, [], [Order(Buy, 1, quantity, quote)]))
  }

  /* ---- Buying ---- */

  /** The next planned level, when the plan has one and the guard lets its amount through. */
  function DcaLevel(s: Terms, p: Position): Option<RiskBudget.PlannedLevel> {
    var index := p.dcaCount + 1;
    if index >= |Plan(s)| || !RiskBudget.WithinBudget(Plan(s)[index].quoteAmount, BasketCost(p), s.plan.riskBudgetQuote)
    then None else Some(Plan(s)[index])
  }

  function DcaBought(s: Terms, p: Position, price: real, allocation: RiskBudget.PlannedLevel): Position
    requires price > 0.0
  {
    var quote, level := allocation.quoteAmount, p.dcaCount + 2;
    var quantity := Bought(quote, price);
    var order := Order(Buy, level, quantity, quote);
    if allocation.independent then
      p.(subs := p.subs + [Sub(level, true, quantity, quote, price, Up(price, s.subTakeProfitPercent), 0.0)],
         orders := p.orders + [order], dcaCount := p.dcaCount + 1, nextDcaPrice := NextTrigger(s, p.dcaCount + 2, price),
         takeProfitPrice := if p.takeProfitPrice.Some? then p.takeProfitPrice
                            else Some(Up(Average(p.cost, p.quantity), s.plan.takeProfitPercent)))
    else
      p.(quantity := p.quantity + quantity, cost := p.cost + quote,
         orders := p.orders + [order], dcaCount := p.dcaCount + 1, nextDcaPrice := NextTrigger(s, p.dcaCount + 2, price),
         takeProfitPrice := Some(Up(Average(p.cost + quote, p.quantity + quantity), s.plan.takeProfitPercent)))
  }

  function ExecuteDca(s: Terms, p: Position, price: real): Outcome
    requires price > 0.0
  {
    match DcaLevel(s, p)
    case None => Outcome(Refused, p)
    case Some(allocation) => Outcome(Dca, DcaBought(s, p, price, allocation))
  }

  /** The recovery leg after `count` earlier ones; its guard is part of the leg. */
  function Leg(s: Terms, count: nat, anchor: real, remaining: real): Recovery.NextLegResult {
    Recovery.NextLeg(s.recovery, count, anchor, s.plan.baseOrderQuote, remaining)
  }

  function RecoveryBought(s: Terms, p: Position, price: real, anchor: real, quote: real): Position
    requires price > 0.0
  {
    var quantity := Bought(quote, price);
    var bought := p.(quantity := p.quantity + quantity, cost := p.cost + quote,
                     orders := p.orders + [Order(Buy, s.plan.maxDcaOrders + p.recoveryDcaCount + 2, quantity, quote)],
                     recoveryMode := true, recoveryDcaCount := p.recoveryDcaCount + 1, recoveryAnchorPrice := Some(anchor),
                     takeProfitPrice := None);
    var next := Leg(s, bought.recoveryDcaCount, anchor, Remaining(s, bought));
    bought.(recoveryTakeProfitPrice := GlobalTakeProfit(s, BasketCost(bought), BasketQuantity(bought)),
            nextDcaPrice := if next.Leg? then Some(next.triggerPrice) else None)
  }

  function ExecuteRecoveryDca(s: Terms, p: Position, price: real, anchor: real): Outcome
    requires price > 0.0
  {
    match Leg(s, p.recoveryDcaCount, anchor, Remaining(s, p))
    case Leg(level, trigger, requested, quote) =>
      if RiskBudget.WithinBudget(quote, BasketCost(p), s.plan.riskBudgetQuote)
      then Outcome(RecoveryDca, RecoveryBought(s, p, price, anchor, quote)) else Outcome(Refused, p)
    case _ => Outcome(Refused, p)
  }

  /* ---- Selling ---- */

  predicate Eligible(sub: Sub, price: real) {
    sub.open && price >= sub.takeProfitPrice
  }

  predicate SomeEligible(p: Position, price: real) {
    exists i :: 0 <= i < |p.subs| && Eligible(p.subs[i], price)
  }

  predicate AllOpenEligible(p: Position, price: real) {
    forall i :: 0 <= i < |p.subs| && p.subs[i].open ==> Eligible(p.subs[i], price)
  }

  function Pnl(sub: Sub, price: real): real {
    Value(sub.quantity, price) - sub.cost
  }

  /** An independent leg closed on its own keeps its quantity, cost and entry price as a record. */
  function ClosedSub(sub: Sub, price: real): Sub {
    if Eligible(sub, price) then sub.(open := false, realized := Pnl(sub, price)) else sub
  }

  function ClosedSubs(subs: seq<Sub>, price: real): (closed: seq<Sub>)
    ensures |closed| == |subs|
    ensures forall i :: 0 <= i < |subs| ==> closed[i] == ClosedSub(subs[i], price)
  {
    if subs == [] then [] else ClosedSubs(subs[..|subs| - 1], price) + [ClosedSub(subs[|subs| - 1], price)]
  }

  function SubSale(sub: Sub, price: real): Order {
    Order(Sell, sub.level, sub.quantity, Value(sub.quantity, price))
  }

  function SubSales(subs: seq<Sub>, price: real): seq<Order> {
    if subs == [] then []
    else SubSales(subs[..|subs| - 1], price) + (if Eligible(subs[|subs| - 1], price) then [SubSale(subs[|subs| - 1], price)] else [])
  }

  function EligiblePnl(subs: seq<Sub>, price: real): real {
    if subs == [] then 0.0
    else EligiblePnl(subs[..|subs| - 1], price) + (if Eligible(subs[|subs| - 1], price) then Pnl(subs[|subs| - 1], price) else 0.0)
  }

  function CloseEligible(s: Terms, p: Position, price: real): Position {
    if !SomeEligible(p, price) then p
    else
      p.(subs := ClosedSubs(p.subs, price),
         orders := p.orders + SubSales(p.subs, price),
         realized := p.realized + EligiblePnl(p.subs, price),
         takeProfitPrice := if p.quantity > 0.0 then Some(Up(Average(p.cost, p.quantity), s.plan.takeProfitPercent)) else None,
         open := !(p.quantity <= DUST && AllOpenEligible(p, price)))
  }

  function ExecuteClose(p: Position, price: real): Outcome {
    if p.quantity <= 0.0 then Outcome(Refused, p)
    else
      Outcome(TakeProfit,
        p.(open := HasOpenSub(p), quantity := 0.0, cost := 0.0,
           realized := p.realized + Value(p.quantity, price) - p.cost,
           nextDcaPrice := None, takeProfitPrice := None,
           orders := p.orders + [Order(Sell, p.dcaCount + 2, p.quantity, Value(p.quantity, price))]))
  }

  function EmptiedSub(sub: Sub, price: real): Sub {
    if sub.open then sub.(open := false, quantity := 0.0, cost := 0.0, entryPrice := 0.0, realized := sub.realized + Pnl(sub, price))
    else sub
  }

  function EmptiedSubs(subs: seq<Sub>, price: real): (emptied: seq<Sub>)
    ensures |emptied| == |subs|
    ensures forall i :: 0 <= i < |subs| ==> emptied[i] == EmptiedSub(subs[i], price)
  {
    if subs == [] then [] else EmptiedSubs(subs[..|subs| - 1], price) + [EmptiedSub(subs[|subs| - 1], price)]
  }

  function ExecuteRecoveryClose(s: Terms, p: Position, price: real): Outcome {
    if BasketQuantity(p) <= 0.0 then Outcome(Refused, p)
    else
      var proceeds := Value(BasketQuantity(p), price);
      Outcome(RecoveryTakeProfit,
        p.(open := false, quantity := 0.0, cost := 0.0, realized := p.realized + proceeds - BasketCost(p),
           recoveryMode := false, recoveryTakeProfitPrice := None, nextDcaPrice := None, takeProfitPrice := None,
           subs := EmptiedSubs(p.subs, price),
           orders := p.orders + [Order(Sell, s.plan.maxDcaOrders + p.recoveryDcaCount + 2, BasketQuantity(p), proceeds)]))
  }

  /* ---- A tick ---- */

  /** The first sub-position of the level where independent legs start, open or not. */
  function AnchorEntry(subs: seq<Sub>, level: nat): real {
    if subs == [] then 0.0 else if subs[0].level == level then subs[0].entryPrice else AnchorEntry(subs[1..], level)
  }

  function RecoveryAnchor(s: Terms, p: Position): Option<real> {
    var entry := AnchorEntry(p.subs, s.plan.independentFromLevel);
    if s.recovery.enabled && s.recovery.maxOrders > 0 && p.dcaCount + 1 >= s.plan.independentFromLevel && entry > 0.0
    then Some(entry) else None
  }

  /** Whether the first recovery leg is due. */
  predicate FirstLegDue(s: Terms, p: Position, price: real) {
    RecoveryAnchor(s, p).Some? &&
    var leg := Leg(s, 0, RecoveryAnchor(s, p).value, Remaining(s, p));
    leg.Leg? && price <= leg.triggerPrice
  }

  predicate TakesProfit(p: Position, price: real) {
    p.takeProfitPrice.Some? && price >= p.takeProfitPrice.value
  }

  predicate DcaDue(p: Position, price: real) {
    p.nextDcaPrice.Some? && price <= p.nextDcaPrice.value
  }

  /** What follows once eligible independent legs are closed, on the row that transaction left. */
  function AfterExits(s: Terms, p: Position, price: real): Outcome
    requires price > 0.0
  {
    if TakesProfit(p, price) then ExecuteClose(p, price)
    else if FirstLegDue(s, p, price) then ExecuteRecoveryDca(s, p, price, RecoveryAnchor(s, p).value)
    else if DcaDue(p, price) then ExecuteDca(s, p, price)
    else Outcome(Hold, p)
  }

  function OrZero(x: Option<real>): real {
    if x.Some? then x.value else 0.0
  }

  function RecoveryTarget(s: Terms, p: Position): real {
    if p.recoveryTakeProfitPrice.Some? then p.recoveryTakeProfitPrice.value
    else OrZero(GlobalTakeProfit(s, BasketCost(p), BasketQuantity(p)))
  }

  function RecoveryAnchorNow(s: Terms, p: Position): real {
    if p.recoveryAnchorPrice.Some? then p.recoveryAnchorPrice.value else OrZero(RecoveryAnchor(s, p))
  }

  function ProcessRecovery(s: Terms, p: Position, price: real): Outcome
    requires price > 0.0
  {
    if RecoveryTarget(s, p) > 0.0 && price >= RecoveryTarget(s, p) then ExecuteRecoveryClose(s, p, price)
    else
      var leg := Leg(s, p.recoveryDcaCount, RecoveryAnchorNow(s, p), Remaining(s, p));
      if leg.InvalidInput? then Outcome(Refused, p)
      else if leg.Leg? && price <= leg.triggerPrice then ExecuteRecoveryDca(s, p, price, RecoveryAnchorNow(s, p))
      else Outcome(Hold, p)
  }

  function ProcessPrice(s: Terms, p: Position, price: real): Outcome {
    if price <= 0.0 || !p.open then Outcome(Refused, p)
    else if p.recoveryMode then ProcessRecovery(s, p, price)
    else AfterExits(s, CloseEligible(s, p, price), price)
  }

  /* ---- Requests and runs ---- */

  datatype Request = Price(price: real) | AddDca(price: real) | ClosePosition(price: real)

  function Serve(s: Terms, p: Position, r: Request): Outcome {
    match r
    case Price(price) => ProcessPrice(s, p, price)
    case AddDca(price) =>
      if price <= 0.0 || !p.open || (p.nextDcaPrice.Some? && price > p.nextDcaPrice.value) then Outcome(Refused, p)
      else ExecuteDca(s, p, price)
    case ClosePosition(price) =>
      if price <= 0.0 || !p.open then Outcome(Refused, p) else ExecuteClose(p, price)
  }

  function Run(s: Terms, p: Position, requests: seq<Request>): Position {
    if requests == [] then p else Serve(s, Run(s, p, requests[..|requests| - 1]), requests[|requests| - 1]).position
  }
}
