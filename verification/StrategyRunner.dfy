/** One tick of the live runner: the cascade that decides on at most one order when nothing is pending. */
module StrategyRunner {
  import opened Reals
  import Fills = FillAccounting
  import Recovery
  import RiskBudget

  /** An open independent sub-position, as the tick reads it. */
  datatype Leg = Leg(level: nat, quantity: real, cost: real, entryPrice: real, takeProfitPrice: real)

  /** The open position; `legs` are the open sub-positions in order of level. */
  datatype Position = Position(
    quantity: real, cost: real, dcaCount: nat, nextDcaPrice: Option<real>, takeProfitPrice: Option<real>,
    recoveryMode: bool, recoveryDcaCount: nat, recoveryAnchorPrice: Option<real>, recoveryTakeProfitPrice: Option<real>,
    legs: seq<Leg>)

  datatype Strategy = Strategy(plan: RiskBudget.PlanInput, recovery: Recovery.Config, dipEntry: bool,
                               dcaRequiresConfirmation: bool, stopLossPercent: Option<real>)

  type Terms = s: Strategy | RiskBudget.Validates(s.plan) && Recovery.Normal(s.recovery) witness EXAMPLE

  const EXAMPLE := Strategy(RiskBudget.PlanInput(100.0, 10.0, 1, 2.0, 1.0, [], 1.5, 2), Recovery.Config(true, 1, [5.0], [1.0], 1.5),
                            false, false, None)

  /** What the tick sees of the market: a price, and whether the entry rule confirms with and without a dip. */
  datatype Market = Market(price: real, dipSignal: bool, bounceSignal: bool)

  datatype Decision =
    | Hold
    | Failed
    | BuyQuote(action: Fills.Action, level: nat, quote: real)
    | SellAll(action: Fills.Action, level: nat, quantity: real)

  /* ---- The basket ---- */

  function LegsQuantity(legs: seq<Leg>): real {
    if legs == [] then 0.0 else LegsQuantity(legs[..|legs| - 1]) + legs[|legs| - 1].quantity
  }

  function LegsCost(legs: seq<Leg>): real {
    if legs == [] then 0.0 else LegsCost(legs[..|legs| - 1]) + legs[|legs| - 1].cost
  }

  function BasketQuantity(p: Position): real {
    p.quantity + LegsQuantity(p.legs)
  }

  function BasketCost(p: Position): real {
    p.cost + LegsCost(p.legs)
  }

  function Remaining(s: Terms, p: Position): real {
    Max(s.plan.riskBudgetQuote - BasketCost(p), 0.0)
  }

  /* ---- Exits ---- */

  /** The holding leg of the highest level: the last one that holds anything. */
  function HighestLeg(legs: seq<Leg>): (leg: Option<Leg>)
    ensures leg.Some? ==> leg.value in legs && leg.value.quantity > 0.0
    ensures leg.None? ==> forall i :: 0 <= i < |legs| ==> legs[i].quantity <= 0.0
  {
    if legs == [] then None
    else if legs[|legs| - 1].quantity > 0.0 then Some(legs[|legs| - 1])
    else HighestLeg(legs[..|legs| - 1])
  }

  /** Sells one leg of the basket: the independent ones from the top, then the parent; None when nothing is held. */
  function SellNext(p: Position): Option<Decision> {
    var leg := HighestLeg(p.legs);
    if leg.Some? then Some(SellAll(Fills.IndependentExit, leg.value.level, leg.value.quantity))
    else if p.quantity > 0.0 then Some(SellAll(Fills.ParentExit, 0, p.quantity))
    else None
  }

  /** Price at or below the basket's average less the stop-loss percentage. */
  predicate StopHit(cost: real, quantity: real, percent: real, price: real) {
    quantity > 0.0 && cost / quantity > 0.0 && price <= cost / quantity * (1.0 - percent / 100.0)
  }

  predicate StopLossHit(s: Terms, p: Position, price: real) {
    s.stopLossPercent.Some? && s.stopLossPercent.value > 0.0 &&
    StopHit(BasketCost(p), BasketQuantity(p), s.stopLossPercent.value, price)
  }

  /** The first leg whose own target is reached. */
  function LegAtTarget(legs: seq<Leg>, price: real): (leg: Option<Leg>)
    ensures leg.Some? ==> leg.value in legs && leg.value.quantity > 0.0 && price >= leg.value.takeProfitPrice > 0.0
  {
    if legs == [] then None
    else if legs[0].quantity > 0.0 && legs[0].takeProfitPrice > 0.0 && price >= legs[0].takeProfitPrice then Some(legs[0])
    else LegAtTarget(legs[1..], price)
  }

  predicate ParentAtTarget(p: Position, price: real) {
    p.quantity > 0.0 && p.takeProfitPrice.Some? && p.takeProfitPrice.value > 0.0 && price >= p.takeProfitPrice.value
  }

  function GlobalTarget(s: Terms, p: Position): real {
    if p.recoveryTakeProfitPrice.Some? then p.recoveryTakeProfitPrice.value
    else
      var target := Recovery.GlobalTakeProfit(s.recovery, Recovery.Basket(BasketQuantity(p), BasketCost(p)));
      if target.Some? then target.value else 0.0
  }

  /* ---- Entries ---- */

  function OrZero(x: Option<real>): real {
    if x.Some? then x.value else 0.0
  }

  /** A buy waits while a confirmation is wanted and missing. */
  function Confirmed(s: Terms, m: Market, buy: Decision): Decision {
    if s.dcaRequiresConfirmation && !m.bounceSignal then Hold else buy
  }

  /** The recovery leg after `count` earlier ones, if its trigger is reached; None when it is not, or there is none. */
  function RecoveryDecision(s: Terms, p: Position, count: nat, anchor: real, m: Market): Option<Decision> {
    match Recovery.NextLeg(s.recovery, count, anchor, s.plan.baseOrderQuote, Remaining(s, p))
    case InvalidInput => Some(Failed)
    case NoLeg => None
    case Leg(level, trigger, requested, quote) =>
      if m.price <= trigger then Some(Confirmed(s, m, BuyQuote(Fills.RecoveryEntry, s.plan.maxDcaOrders + level + 1, quote))) else None
  }

  function AnchorLeg(legs: seq<Leg>, level: nat): (leg: Option<Leg>)
    ensures leg.Some? ==> leg.value in legs && leg.value.level == level
  {
    if legs == [] then None else if legs[0].level == level then Some(legs[0]) else AnchorLeg(legs[1..], level)
  }

  function LadderDecision(s: Terms, p: Position, m: Market): Decision {
    var level := p.dcaCount + 2;
    var quote := RiskBudget.RunnerDcaQuote(s.plan, p.dcaCount, BasketCost(p));
    if p.dcaCount >= s.plan.maxDcaOrders then Hold
    else if OrZero(p.nextDcaPrice) <= 0.0 || m.price > OrZero(p.nextDcaPrice) then Hold
    else if quote <= 0.0 then Hold
    else Confirmed(s, m, BuyQuote(if level >= s.plan.independentFromLevel then Fills.IndependentEntry else Fills.DcaEntry, level, quote))
  }

  function RecoveryTick(s: Terms, p: Position, m: Market): Decision {
    var exit := SellNext(p);
    if GlobalTarget(s, p) > 0.0 && m.price >= GlobalTarget(s, p) && exit.Some? then exit.value
    else
      var buy := RecoveryDecision(s, p, p.recoveryDcaCount, OrZero(p.recoveryAnchorPrice), m);
      if buy.Some? then buy.value else Hold
  }

  function NormalTick(s: Terms, p: Position, m: Market): Decision {
    var leg := LegAtTarget(p.legs, m.price);
    if leg.Some? then SellAll(Fills.IndependentExit, leg.value.level, leg.value.quantity)
    else if ParentAtTarget(p, m.price) then SellAll(Fills.ParentExit, p.dcaCount + 1, p.quantity)
    else
      var anchor := AnchorLeg(p.legs, s.plan.independentFromLevel);
      var recovery := if anchor.Some? then RecoveryDecision(s, p, 0, anchor.value.entryPrice, m) else None;
      if recovery.Some? then recovery.value else LadderDecision(s, p, m)
  }

  /** What a tick decides once nothing is pending; None is a strategy without an open position. */
  function Decide(s: Terms, position: Option<Position>, m: Market): Decision {
    if m.price <= 0.0 then Failed
    else match position
      case None =>
        if s.dipEntry && !m.dipSignal then Hold
        else BuyQuote(Fills.InitialEntry, 1, RiskBudget.RunnerEntryQuote(s.plan))
      case Some(p) =>
        if StopLossHit(s, p, m.price) && SellNext(p).Some? then SellNext(p).value
        else if p.recoveryMode then RecoveryTick(s, p, m) else NormalTick(s, p, m)
  }

  /* ---- What decisions mean for the account ---- */

  /** The rows behind the position that a tick reads. */
  predicate Reads(p: Position, a: Fills.Account) {
    && a.open && p.quantity == a.parent.quantity && p.cost == a.parent.cost && p.dcaCount == a.dcaCount
    && (forall i :: 0 <= i < |p.legs| ==>
          p.legs[i].level in a.subs && a.subs[p.legs[i].level].open && p.legs[i].level > 0
          && p.legs[i].quantity == a.subs[p.legs[i].level].leg.quantity && p.legs[i].cost == a.subs[p.legs[i].level].leg.cost)
  }

  predicate WholeLeg(p: Position, d: Decision) {
    d.SellAll? && d.quantity > 0.0 &&
    if d.action.IndependentExit? then exists i :: 0 <= i < |p.legs| && p.legs[i].level == d.level && p.legs[i].quantity == d.quantity
    else d.action.ParentExit? && d.quantity == p.quantity
  }

  lemma SellNextIsWhole(p: Position)
    ensures SellNext(p).Some? ==> WholeLeg(p, SellNext(p).value)
  {
    var leg := HighestLeg(p.legs);
    if leg.Some? {
      var i :| 0 <= i < |p.legs| && p.legs[i] == leg.value;
    }
  }

  /** A sell is always one whole leg of the basket. */
  lemma SellsWholeLegs(s: Terms, p: Position, m: Market)
    requires Decide(s, Some(p), m).SellAll?
    ensures WholeLeg(p, Decide(s, Some(p), m))
  {
    hide StopLossHit, GlobalTarget, Remaining, BasketCost, BasketQuantity, SellNext, WholeLeg;
    SellNextIsWhole(p);
    var leg := LegAtTarget(p.legs, m.price);
    if leg.Some? {
      LegIsWhole(p, leg.value);
    }
    ParentIsWhole(p);
  }

  lemma LegIsWhole(p: Position, leg: Leg)
    requires leg in p.legs && leg.quantity > 0.0
    ensures WholeLeg(p, SellAll(Fills.IndependentExit, leg.level, leg.quantity))
  {
    var i :| 0 <= i < |p.legs| && p.legs[i] == leg;
  }

  lemma ParentIsWhole(p: Position)
    ensures p.quantity > 0.0 ==> WholeLeg(p, SellAll(Fills.ParentExit, p.dcaCount + 1, p.quantity))
  {
  }

  function SideOf(d: Decision): Fills.Side
    requires d.SellAll? || d.BuyQuote?
  {
    if d.SellAll? then Fills.Sell else Fills.Buy
  }

  function QuantityOf(d: Decision, price: real): real
    requires d.SellAll? || d.BuyQuote?
    requires price > 0.0
  {
    if d.SellAll? then d.quantity else d.quote / price
  }

  /** Whatever a tick decides on the rows as they are, the execution service's own checks accept. */
  lemma DecisionsAreAccepted(s: Terms, p: Position, a: Fills.Account, m: Market)
    requires Reads(p, a) && (Decide(s, Some(p), m).SellAll? || Decide(s, Some(p), m).BuyQuote?)
    ensures m.price > 0.0
    ensures var d := Decide(s, Some(p), m);
            Fills.Refused(Some(a), SideOf(d), d.action, d.level, QuantityOf(d, m.price)) == None
  {
    var d := Decide(s, Some(p), m);
    assert m.price > 0.0;
    if d.SellAll? {
      SellsWholeLegs(s, p, m);
      hide Decide;
    } else {
      BuysWithinBudget(s, Some(p), m);
      hide Decide;
      QuotientPositive(d.quote, m.price);
    }
  }

  /* ---- What decisions mean for the budget and the counters ---- */

  function ExposureOf(position: Option<Position>): real {
    if position.Some? then BasketCost(position.value) else 0.0
  }

  /** A buy as the tick sizes it: a positive amount that the budget still has room for. */
  predicate Fits(s: Terms, exposure: real, d: Decision) {
    d.BuyQuote? ==> d.quote > 0.0 && exposure + d.quote <= s.plan.riskBudgetQuote && !d.action.IndependentExit? && !d.action.ParentExit?
  }

  lemma RecoveryFits(s: Terms, p: Position, count: nat, anchor: real, m: Market)
    ensures RecoveryDecision(s, p, count, anchor, m).Some? ==> Fits(s, BasketCost(p), RecoveryDecision(s, p, count, anchor, m).value)
    ensures RecoveryDecision(s, p, count, anchor, m).Some? && RecoveryDecision(s, p, count, anchor, m).value.BuyQuote? ==>
              count < s.recovery.maxOrders && RecoveryDecision(s, p, count, anchor, m).value.level == s.plan.maxDcaOrders + count + 2
  {
    hide BasketCost;
  }

  lemma LadderFits(s: Terms, p: Position, m: Market)
    ensures Fits(s, BasketCost(p), LadderDecision(s, p, m))
    ensures LadderDecision(s, p, m).BuyQuote? ==> LadderDecision(s, p, m).level == p.dcaCount + 2 <= s.plan.maxDcaOrders + 1
  {
    hide BasketCost, RiskBudget.RunnerRequest;
  }

  /** No buy is sized beyond what is left of the risk budget. */
  lemma BuysWithinBudget(s: Terms, position: Option<Position>, m: Market)
    ensures Fits(s, ExposureOf(position), Decide(s, position, m))
  {
    hide StopLossHit, GlobalTarget, Remaining, BasketCost, LegAtTarget, AnchorLeg, RecoveryDecision, LadderDecision, SellNext;
    match position
    case None => hide RiskBudget.RunnerDcaQuote;
    case Some(p) =>
      SellNextIsSell(p);
      RecoveryFits(s, p, p.recoveryDcaCount, OrZero(p.recoveryAnchorPrice), m);
      var anchor := AnchorLeg(p.legs, s.plan.independentFromLevel);
      if anchor.Some? { RecoveryFits(s, p, 0, anchor.value.entryPrice, m); }
      LadderFits(s, p, m);
  }

  lemma SellNextIsSell(p: Position)
    ensures SellNext(p).Some? ==> SellNext(p).value.SellAll?
  {
  }

  /**
   The runner's amounts are the plan's: as long as exposure is what the plan allots below the next level,
   a ladder buy asks for exactly the planned amount of that level.
   */
  lemma LadderBuysThePlan(s: Terms, p: Position, m: Market)
    requires BasketCost(p) == RiskBudget.Allocated(s.plan, p.dcaCount + 2) && LadderDecision(s, p, m).BuyQuote?
    ensures LadderDecision(s, p, m).quote == RiskBudget.Amount(s.plan, p.dcaCount + 2)
    ensures LadderDecision(s, p, m).action.IndependentEntry? <==> LadderDecision(s, p, m).level >= s.plan.independentFromLevel
  {
    hide BasketCost, RiskBudget.Allocated, RiskBudget.Amount, RiskBudget.RunnerDcaQuote;
    RiskBudget.RunnerLevel(s.plan, p.dcaCount, BasketCost(p));
  }
}
