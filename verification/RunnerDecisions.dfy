/**
 When the live runner sells and buys. The cascade of `StrategyRunner` against
 the conditions themselves: which holdings have reached which price, without
 its own search functions, and averages compared without dividing.
 */
module RunnerDecisions {
  import opened Reals
  import Fills = FillAccounting
  import Recovery
  import RiskBudget
  import opened StrategyRunner
  import StopLoss

  function Coins(p: Position): real {
    p.quantity + LegsQuantity(p.legs)
  }

  function Cost(p: Position): real {
    p.cost + LegsCost(p.legs)
  }

  predicate Holds(p: Position) {
    p.quantity > 0.0 || exists i :: 0 <= i < |p.legs| && p.legs[i].quantity > 0.0
  }

  /* ---- The conditions ---- */

  /** A stop is set, and the price is that many percent or more below the basket's average. */
  predicate AtStop(s: Terms, p: Position, price: real) {
    && s.stopLossPercent.Some? && s.stopLossPercent.value > 0.0
    && Coins(p) > 0.0 && Cost(p) > 0.0
    && price * Coins(p) <= Cost(p) * (1.0 - s.stopLossPercent.value / 100.0)
  }

  predicate LegReached(leg: Leg, price: real) {
    leg.quantity > 0.0 && leg.takeProfitPrice > 0.0 && price >= leg.takeProfitPrice
  }

  predicate SomeLegReached(p: Position, price: real) {
    exists i :: 0 <= i < |p.legs| && LegReached(p.legs[i], price)
  }

  /** Leg i is the first in the order of levels that has reached its target. */
  predicate FirstReached(p: Position, price: real, i: nat) {
    i < |p.legs| && LegReached(p.legs[i], price) && forall j :: 0 <= j < i ==> !LegReached(p.legs[j], price)
  }

  predicate ParentReached(p: Position, price: real) {
    p.quantity > 0.0 && p.takeProfitPrice.Some? && p.takeProfitPrice.value > 0.0 && price >= p.takeProfitPrice.value
  }

  /** The target of the whole basket: the stored one, or so many percent above its average. */
  predicate BasketReached(s: Terms, p: Position, price: real) {
    match p.recoveryTakeProfitPrice
    case Some(target) => target > 0.0 && price >= target
    case None => Coins(p) > 0.0 && Cost(p) > 0.0 && price * Coins(p) >= Cost(p) * (1.0 + s.recovery.takeProfitPercent / 100.0)
  }

  /** The highest leg that holds anything, or the parent when none does. */
  predicate SellsTheTop(p: Position, d: Decision) {
    if exists i :: 0 <= i < |p.legs| && p.legs[i].quantity > 0.0
    then exists i :: 0 <= i < |p.legs| && p.legs[i].quantity > 0.0
                     && (forall j :: i < j < |p.legs| ==> p.legs[j].quantity <= 0.0)
                     && d == SellAll(Fills.IndependentExit, p.legs[i].level, p.legs[i].quantity)
    else p.quantity > 0.0 && d == SellAll(Fills.ParentExit, 0, p.quantity)
  }

  /** A recovery order is left and affordable, and the price has fallen its step below the anchor. */
  predicate RecoveryDue(s: Terms, p: Position, count: nat, anchor: real, price: real) {
    && s.recovery.enabled && count < s.recovery.maxOrders && Cost(p) < s.plan.riskBudgetQuote && anchor > 0.0
    && price <= Recovery.StepBelow(anchor, s.recovery.steps[count])
  }

  /** A ladder order is left and affordable, and the price has fallen to its trigger. */
  predicate LadderDue(s: Terms, p: Position, price: real) {
    && p.dcaCount < s.plan.maxDcaOrders && Cost(p) < s.plan.riskBudgetQuote
    && p.nextDcaPrice.Some? && p.nextDcaPrice.value > 0.0 && price <= p.nextDcaPrice.value
  }

  predicate Waits(s: Terms, m: Market) {
    s.dcaRequiresConfirmation && !m.bounceSignal
  }

  /* ---- The search functions ---- */

  lemma {:induction false} TopLeg(legs: seq<Leg>)
    ensures var leg := HighestLeg(legs);
            if leg.None? then forall i :: 0 <= i < |legs| ==> legs[i].quantity <= 0.0
            else exists i :: 0 <= i < |legs| && legs[i] == leg.value && legs[i].quantity > 0.0
                             && forall j :: i < j < |legs| ==> legs[j].quantity <= 0.0
  {
    if legs != [] {
      var n := |legs| - 1;
      if legs[n].quantity > 0.0 {
        assert legs[n] == HighestLeg(legs).value;
      } else {
        TopLeg(legs[..n]);
        if HighestLeg(legs).Some? {
          var i :| 0 <= i < n && legs[..n][i] == HighestLeg(legs).value && legs[..n][i].quantity > 0.0
                   && forall j :: i < j < n ==> legs[..n][j].quantity <= 0.0;
          assert legs[i] == HighestLeg(legs).value;
          forall j | i < j < |legs| ensures legs[j].quantity <= 0.0 { if j < n { assert legs[..n][j] == legs[j]; } }
        }
      }
    }
  }

  lemma SellNextIsTop(p: Position)
    ensures SellNext(p).Some? <==> Holds(p)
    ensures SellNext(p).Some? ==> SellsTheTop(p, SellNext(p).value)
  {
    TopLeg(p.legs);
    hide HighestLeg;
  }

  lemma {:induction false} FirstLeg(legs: seq<Leg>, price: real)
    ensures var leg := LegAtTarget(legs, price);
            if leg.None? then forall i :: 0 <= i < |legs| ==> !LegReached(legs[i], price)
            else exists i :: 0 <= i < |legs| && legs[i] == leg.value && LegReached(legs[i], price)
                             && forall j :: 0 <= j < i ==> !LegReached(legs[j], price)
  {
    if legs != [] {
      if LegReached(legs[0], price) {
        assert legs[0] == LegAtTarget(legs, price).value;
      } else {
        FirstLeg(legs[1..], price);
        if LegAtTarget(legs, price).Some? {
          var i :| 0 <= i < |legs[1..]| && legs[1..][i] == LegAtTarget(legs, price).value && LegReached(legs[1..][i], price)
                   && forall j :: 0 <= j < i ==> !LegReached(legs[1..][j], price);
          assert legs[i + 1] == LegAtTarget(legs, price).value;
          forall j | 0 <= j < i + 1 ensures !LegReached(legs[j], price) { if j > 0 { assert legs[1..][j - 1] == legs[j]; } }
        } else {
          forall i | 0 <= i < |legs| ensures !LegReached(legs[i], price) { if i > 0 { assert legs[1..][i - 1] == legs[i]; } }
        }
      }
    }
  }

  /* ---- The stop-loss and the targets ---- */

  lemma StopIsAtStop(s: Terms, p: Position, price: real)
    ensures StopLossHit(s, p, price) <==> AtStop(s, p, price)
  {
    var cost, coins := Cost(p), Coins(p);
    assert BasketCost(p) == cost && BasketQuantity(p) == coins;
    hide Cost, Coins, LegsCost, LegsQuantity, BasketCost, BasketQuantity;
    if coins > 0.0 {
      AveragePositive(cost, coins);
      if cost > 0.0 && s.stopLossPercent.Some? { StopLoss.StopHitIs(cost, coins, s.stopLossPercent.value, price); }
    }
  }

  lemma AveragePositive(cost: real, coins: real)
    requires coins > 0.0
    ensures cost / coins > 0.0 <==> cost > 0.0
  {
    QuotientTimes(cost, coins);
    if cost > 0.0 { QuotientPositive(cost, coins); }
    if cost / coins > 0.0 { ProductPositive(cost / coins, coins); }
  }

  /** Something is held wherever the basket holds coins. */
  lemma {:induction false} CoinsAreHeld(legs: seq<Leg>)
    requires LegsQuantity(legs) > 0.0
    ensures exists i :: 0 <= i < |legs| && legs[i].quantity > 0.0
  {
    if legs[|legs| - 1].quantity <= 0.0 {
      CoinsAreHeld(legs[..|legs| - 1]);
      var i :| 0 <= i < |legs| - 1 && legs[..|legs| - 1][i].quantity > 0.0;
      assert legs[i].quantity > 0.0;
    }
  }

  lemma HoldsCoins(p: Position)
    requires Coins(p) > 0.0
    ensures Holds(p)
  {
    if p.quantity <= 0.0 { CoinsAreHeld(p.legs); }
  }

  lemma TargetIsReached(s: Terms, p: Position, price: real)
    ensures GlobalTarget(s, p) > 0.0 && price >= GlobalTarget(s, p) <==> BasketReached(s, p, price)
  {
    if p.recoveryTakeProfitPrice.None? {
      var cost, coins, factor := Cost(p), Coins(p), 1.0 + s.recovery.takeProfitPercent / 100.0;
      assert BasketCost(p) == cost && BasketQuantity(p) == coins;
      hide Cost, Coins, LegsCost, LegsQuantity, BasketCost, BasketQuantity;
      if coins > 0.0 {
        AveragePositive(cost, coins);
        if cost > 0.0 {
          ProductPositive(cost / coins, factor);
          ScaledQuotient(price, cost, coins, factor);
        }
      }
    }
  }

  /* ---- When the runner sells ---- */

  /** At or below the stop the top of the basket is sold, whatever else is due. */
  lemma StopLossSellsTheTop(s: Terms, p: Position, m: Market)
    requires m.price > 0.0 && AtStop(s, p, m.price)
    ensures SellsTheTop(p, Decide(s, Some(p), m))
  {
    hide SellNext, SellsTheTop, RecoveryTick, NormalTick, StopLossHit, Holds;
    StopIsAtStop(s, p, m.price);
    HoldsCoins(p);
    SellNextIsTop(p);
    hide AtStop;
    SellNextIsSell(p);
  }

  /**
   Above the stop and outside recovery the runner sells if and only if a leg or the parent has reached its target:
   the first such leg in the order of levels, and the parent when there is none.
   */
  lemma NormalSellsExactly(s: Terms, p: Position, m: Market)
    requires m.price > 0.0 && !AtStop(s, p, m.price) && !p.recoveryMode
    ensures Decide(s, Some(p), m).SellAll? <==> SomeLegReached(p, m.price) || ParentReached(p, m.price)
    ensures forall i: nat :: FirstReached(p, m.price, i) ==>
              Decide(s, Some(p), m) == SellAll(Fills.IndependentExit, p.legs[i].level, p.legs[i].quantity)
    ensures !SomeLegReached(p, m.price) && ParentReached(p, m.price) ==>
              Decide(s, Some(p), m) == SellAll(Fills.ParentExit, p.dcaCount + 1, p.quantity)
  {
    hide SellNext, RecoveryTick, StopLossHit, AtStop, LegAtTarget, LegReached, RecoveryDecision, LadderDecision, AnchorLeg;
    StopIsAtStop(s, p, m.price);
    FirstLeg(p.legs, m.price);
    var anchor := AnchorLeg(p.legs, s.plan.independentFromLevel);
    if anchor.Some? { RecoveryIsNoSale(s, p, 0, anchor.value.entryPrice, m); }
    LadderIsNoSale(s, p, m);
    if SomeLegReached(p, m.price) { ReachedIsFirst(p, m.price); }
  }

  lemma ReachedIsFirst(p: Position, price: real)
    requires SomeLegReached(p, price)
    ensures exists i: nat :: FirstReached(p, price, i) && LegAtTarget(p.legs, price) == Some(p.legs[i])
    ensures forall i: nat, j: nat :: FirstReached(p, price, i) && FirstReached(p, price, j) ==> i == j
  {
    hide LegReached, LegAtTarget;
    FirstLeg(p.legs, price);
    var i :| 0 <= i < |p.legs| && p.legs[i] == LegAtTarget(p.legs, price).value && LegReached(p.legs[i], price)
             && forall j :: 0 <= j < i ==> !LegReached(p.legs[j], price);
    assert FirstReached(p, price, i);
  }

  lemma RecoveryIsNoSale(s: Terms, p: Position, count: nat, anchor: real, m: Market)
    ensures var d := RecoveryDecision(s, p, count, anchor, m); d.Some? ==> !d.value.SellAll?
  {
    hide Remaining;
  }

  lemma LadderIsNoSale(s: Terms, p: Position, m: Market)
    ensures !LadderDecision(s, p, m).SellAll?
  {
    hide BasketCost, RiskBudget.RunnerDcaQuote;
  }

  /** Above the stop and in recovery it sells if and only if something is held and the basket's target is reached: from the top. */
  lemma RecoverySellsExactly(s: Terms, p: Position, m: Market)
    requires m.price > 0.0 && !AtStop(s, p, m.price) && p.recoveryMode
    ensures Decide(s, Some(p), m).SellAll? <==> Holds(p) && BasketReached(s, p, m.price)
    ensures Decide(s, Some(p), m).SellAll? ==> SellsTheTop(p, Decide(s, Some(p), m))
  {
    hide SellNext, NormalTick, StopLossHit, AtStop, GlobalTarget, BasketReached, RecoveryDecision, SellsTheTop, Holds;
    StopIsAtStop(s, p, m.price);
    TargetIsReached(s, p, m.price);
    SellNextIsTop(p);
    SellNextIsSell(p);
    RecoveryIsNoSale(s, p, p.recoveryDcaCount, OrZero(p.recoveryAnchorPrice), m);
  }

  /* ---- When it buys ---- */

  /** The anchor is no price while a recovery order is left and affordable: the tick fails. */
  predicate AnchorFails(s: Terms, p: Position, count: nat, anchor: real) {
    s.recovery.enabled && count < s.recovery.maxOrders && Cost(p) < s.plan.riskBudgetQuote && anchor <= 0.0
  }

  function RecoveryOrder(s: Terms, p: Position, count: nat): Decision
    requires count < s.recovery.maxOrders
  {
    BuyQuote(Fills.RecoveryEntry, s.plan.maxDcaOrders + count + 2,
             Min(Recovery.Multiple(s.plan.baseOrderQuote, s.recovery.multipliers[count]), s.plan.riskBudgetQuote - Cost(p)))
  }

  /** A recovery decision is the order that is due, held back by a missing confirmation; there is none when it is not due. */
  lemma RecoveryDecisionExactly(s: Terms, p: Position, count: nat, anchor: real, m: Market)
    ensures RecoveryDecision(s, p, count, anchor, m)
         == if AnchorFails(s, p, count, anchor) then Some(Failed)
            else if !RecoveryDue(s, p, count, anchor, m.price) then None
            else Some(if Waits(s, m) then Hold else RecoveryOrder(s, p, count))
  {
    assert Remaining(s, p) == if Cost(p) < s.plan.riskBudgetQuote then s.plan.riskBudgetQuote - Cost(p) else 0.0;
    hide Remaining, Cost, Recovery.NextLeg, Min, Recovery.StepBelow, Recovery.Multiple;
    Recovery.NextLegIs(s.recovery, count, anchor, s.plan.baseOrderQuote, Remaining(s, p));
  }

  /** The ladder's next size: a configured multiple of the base order, or a power of the common one. */
  function LadderSize(s: Terms, n: nat): real {
    Recovery.Multiple(s.plan.baseOrderQuote, if n < |s.plan.dcaMultipliers| then s.plan.dcaMultipliers[n] else Power(s.plan.dcaMultiplier, n + 1))
  }

  function LadderOrder(s: Terms, p: Position): Decision {
    BuyQuote(if p.dcaCount + 2 >= s.plan.independentFromLevel then Fills.IndependentEntry else Fills.DcaEntry, p.dcaCount + 2,
             Min(LadderSize(s, p.dcaCount), s.plan.riskBudgetQuote - Cost(p)))
  }

  lemma LadderDecisionExactly(s: Terms, p: Position, m: Market)
    ensures LadderDecision(s, p, m) == if LadderDue(s, p, m.price) && !Waits(s, m) then LadderOrder(s, p) else Hold
  {
    var cost := Cost(p);
    assert BasketCost(p) == cost;
    hide BasketCost, Cost, LegsCost, Power;
    LadderSizePositive(s, p.dcaCount);
  }

  lemma LadderSizePositive(s: Terms, n: nat)
    ensures LadderSize(s, n) == RiskBudget.RunnerRequest(s.plan, n) > 0.0
  {
    PowerPositive(s.plan.dcaMultiplier, n + 1);
    hide Power;
    ProductPositive(s.plan.baseOrderQuote, RiskBudget.RunnerMultiplier(s.plan, n));
  }

  /** Leg i is the first at the level where independent legs start. */
  predicate IsAnchor(s: Terms, p: Position, i: nat) {
    && i < |p.legs| && p.legs[i].level == s.plan.independentFromLevel
    && forall j :: 0 <= j < i ==> p.legs[j].level != s.plan.independentFromLevel
  }

  lemma {:induction false} AnchorIsFirst(legs: seq<Leg>, level: nat)
    ensures var leg := AnchorLeg(legs, level);
            if leg.None? then forall i :: 0 <= i < |legs| ==> legs[i].level != level
            else exists i :: 0 <= i < |legs| && legs[i] == leg.value && legs[i].level == level
                             && forall j :: 0 <= j < i ==> legs[j].level != level
  {
    if legs != [] {
      if legs[0].level == level {
        assert legs[0] == AnchorLeg(legs, level).value;
      } else {
        AnchorIsFirst(legs[1..], level);
        if AnchorLeg(legs, level).Some? {
          var i :| 0 <= i < |legs[1..]| && legs[1..][i] == AnchorLeg(legs, level).value && legs[1..][i].level == level
                   && forall j :: 0 <= j < i ==> legs[1..][j].level != level;
          assert legs[i + 1] == AnchorLeg(legs, level).value;
          forall j | 0 <= j < i + 1 ensures legs[j].level != level { if j > 0 { assert legs[1..][j - 1] == legs[j]; } }
        } else {
          forall i | 0 <= i < |legs| ensures legs[i].level != level { if i > 0 { assert legs[1..][i - 1] == legs[i]; } }
        }
      }
    }
  }

  lemma AnchorFound(s: Terms, p: Position, i: nat)
    requires IsAnchor(s, p, i)
    ensures AnchorLeg(p.legs, s.plan.independentFromLevel) == Some(p.legs[i])
  {
    hide AnchorLeg;
    AnchorIsFirst(p.legs, s.plan.independentFromLevel);
  }

  /** What the tick buys outside recovery when nothing is sold: the first recovery order once it is due, otherwise the ladder's. */
  function Bought(s: Terms, p: Position, m: Market, anchor: real): Decision {
    if AnchorFails(s, p, 0, anchor) then Failed
    else if RecoveryDue(s, p, 0, anchor, m.price) then (if Waits(s, m) then Hold else RecoveryOrder(s, p, 0))
    else if LadderDue(s, p, m.price) && !Waits(s, m) then LadderOrder(s, p)
    else Hold
  }

  lemma NormalBuysExactly(s: Terms, p: Position, m: Market)
    requires m.price > 0.0 && !AtStop(s, p, m.price) && !p.recoveryMode
    requires !SomeLegReached(p, m.price) && !ParentReached(p, m.price)
    ensures forall i: nat :: IsAnchor(s, p, i) ==> Decide(s, Some(p), m) == Bought(s, p, m, p.legs[i].entryPrice)
    ensures (forall i: nat :: !IsAnchor(s, p, i)) ==>
              Decide(s, Some(p), m) == if LadderDue(s, p, m.price) && !Waits(s, m) then LadderOrder(s, p) else Hold
  {
    hide SellNext, RecoveryTick, StopLossHit, AtStop, LegAtTarget, LegReached, RecoveryDecision, LadderDecision, AnchorLeg,
      RecoveryDue, LadderDue, LadderOrder, RecoveryOrder, AnchorFails;
    StopIsAtStop(s, p, m.price);
    FirstLeg(p.legs, m.price);
    LadderDecisionExactly(s, p, m);
    AnchorIsFirst(p.legs, s.plan.independentFromLevel);
    var anchor := AnchorLeg(p.legs, s.plan.independentFromLevel);
    if anchor.Some? {
      RecoveryDecisionExactly(s, p, 0, anchor.value.entryPrice, m);
      var i :| 0 <= i < |p.legs| && p.legs[i] == anchor.value && p.legs[i].level == s.plan.independentFromLevel
               && forall j :: 0 <= j < i ==> p.legs[j].level != s.plan.independentFromLevel;
      assert IsAnchor(s, p, i);
    }
    forall i: nat | IsAnchor(s, p, i) ensures Decide(s, Some(p), m) == Bought(s, p, m, p.legs[i].entryPrice) {
      AnchorFound(s, p, i);
    }
  }

  /** In recovery, when nothing is sold: the next recovery order once it is due. */
  lemma RecoveryBuysExactly(s: Terms, p: Position, m: Market)
    requires m.price > 0.0 && !AtStop(s, p, m.price) && p.recoveryMode && !(Holds(p) && BasketReached(s, p, m.price))
    ensures var count, anchor := p.recoveryDcaCount, if p.recoveryAnchorPrice.Some? then p.recoveryAnchorPrice.value else 0.0;
            Decide(s, Some(p), m)
            == if AnchorFails(s, p, count, anchor) then Failed
               else if RecoveryDue(s, p, count, anchor, m.price) && !Waits(s, m) then RecoveryOrder(s, p, count)
               else Hold
  {
    hide SellNext, NormalTick, StopLossHit, AtStop, GlobalTarget, BasketReached, RecoveryDecision, SellsTheTop, Holds,
      RecoveryDue, RecoveryOrder, AnchorFails;
    StopIsAtStop(s, p, m.price);
    TargetIsReached(s, p, m.price);
    SellNextIsTop(p);
    RecoveryDecisionExactly(s, p, p.recoveryDcaCount, OrZero(p.recoveryAnchorPrice), m);
  }

  /** Without a position it opens one, at the planned size, unless a dip is wanted and has not come. */
  lemma OpensExactly(s: Terms, m: Market)
    requires m.price > 0.0
    ensures Decide(s, None, m)
         == if s.dipEntry && !m.dipSignal then Hold
            else BuyQuote(Fills.InitialEntry, 1, if s.plan.baseOrderQuote <= s.plan.riskBudgetQuote then s.plan.baseOrderQuote else s.plan.riskBudgetQuote)
  {
  }
}
