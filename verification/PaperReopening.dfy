/** A run of paper trading that ends with a purchase into a position the same tick has just closed. */
module PaperReopening {
  import opened Reals
  import RiskBudget
  import Recovery
  import opened PaperTrading
  import opened PaperLaws
  import opened PaperExits

  /** Three planned buys of 10, all but the first independent, and one recovery leg 5 percent below the first of those. */
  const TWO_LEGS: Terms := Strategy(RiskBudget.PlanInput(100.0, 10.0, 2, 2.0, 1.0, [], 1.5, 2), Recovery.Config(true, 1, [5.0], [1.0], 1.5), 2.0, 1.5)

  lemma TwoLegsValid()
    ensures RiskBudget.Validates(TWO_LEGS.plan) && Recovery.Normal(TWO_LEGS.recovery) && StoredTerms(TWO_LEGS)
  {
    assert 100.0 * 100000000.0 == 10000000000.0 && (10000000000.0).Floor == 10000000000;
    assert 10.0 * 100000000.0 == 1000000000.0 && (1000000000.0).Floor == 1000000000;
  }

  lemma Tens()
    ensures Plan(TWO_LEGS) == [RiskBudget.Rounded(TWO_LEGS.plan, 1, 10.0), RiskBudget.Rounded(TWO_LEGS.plan, 2, 10.0), RiskBudget.Rounded(TWO_LEGS.plan, 3, 10.0)]
    ensures RiskBudget.Round8(10.0) == 10.0
  {
    hide RiskBudget.Round8, RiskBudget.Rounded;
    var i := TWO_LEGS.plan;
    assert RiskBudget.Allocated(i, 1) == 0.0 && RiskBudget.Amount(i, 1) == 10.0;
    assert RiskBudget.Allocated(i, 2) == 10.0 && RiskBudget.Amount(i, 2) == 10.0;
    assert RiskBudget.Allocated(i, 3) == 20.0 && RiskBudget.Amount(i, 3) == 10.0;
    RiskBudget.RoundExact(1000000000);
    RiskBudget.PlanStep(i, 1);
    RiskBudget.PlanStep(i, 2);
    RiskBudget.PlanStep(i, 3);
    assert RiskBudget.PlannedLevels(i, 4) == [];
  }

  lemma PlanIs()
    ensures |Plan(TWO_LEGS)| == 3
    ensures forall k :: 0 <= k < 3 ==> Plan(TWO_LEGS)[k].quoteAmount == 10.0 && Plan(TWO_LEGS)[k].independent == (k > 0)
  {
    Tens();
    hide RiskBudget.PlannedLevels, RiskBudget.Round8, RiskBudget.Round4;
  }

  /** What matters of a position before the exceptional tick. */
  predicate Looks(p: Position, quantity: real, cost: real, dcaCount: nat, next: Option<real>, target: Option<real>, subs: seq<Sub>) {
    && p.open && p.quantity == quantity && p.cost == cost && p.dcaCount == dcaCount && p.nextDcaPrice == next
    && p.takeProfitPrice == target && !p.recoveryMode && p.recoveryDcaCount == 0 && p.subs == subs
  }

  const FIRST: Sub := Sub(2, true, 0.125, 10.0, 80.0, 81.2, 0.0)
  const FIRST_SOLD: Sub := Sub(2, false, 0.125, 10.0, 80.0, 81.2, 2.5)
  const SECOND: Sub := Sub(3, true, 0.15625, 10.0, 64.0, 64.96, 0.0)

  /** The first leg is bought at 80 and sold at 100; the second is bought by hand at 64, and then the parent is closed by hand. */
  const REQUESTS: seq<Request> := [Price(80.0), Price(100.0), AddDca(64.0), ClosePosition(64.0)]

  lemma OpensAt100()
    ensures OpenPosition(TWO_LEGS, 100.0).Some?
    ensures Looks(OpenPosition(TWO_LEGS, 100.0).value, 0.1, 10.0, 0, Some(98.0), Some(101.5), [])
  {
    PlanIs();
    hide Plan;
  }

  lemma NoAnchorYet(p: Position)
    requires p.dcaCount == 0
    ensures RecoveryAnchor(TWO_LEGS, p).None?
  {
  }

  lemma BuysFirstLeg(p: Position)
    requires Looks(p, 0.1, 10.0, 0, Some(98.0), Some(101.5), [])
    ensures Looks(Serve(TWO_LEGS, p, Price(80.0)).position, 0.1, 10.0, 1, Some(78.4), Some(101.5), [FIRST])
  {
    PlanIs();
    NoAnchorYet(p);
    assert OpenCost([]) == 0.0;
    hide Plan, RecoveryAnchor, OpenCost;
    assert CloseEligible(TWO_LEGS, p, 80.0) == p;
    assert DcaLevel(TWO_LEGS, p) == Some(Plan(TWO_LEGS)[1]);
    assert [] + [FIRST] == [FIRST];
  }

  lemma SellsFirstLeg(p: Position)
    requires Looks(p, 0.1, 10.0, 1, Some(78.4), Some(101.5), [FIRST])
    ensures Looks(Serve(TWO_LEGS, p, Price(100.0)).position, 0.1, 10.0, 1, Some(78.4), Some(101.5), [FIRST_SOLD])
  {
    assert Eligible(p.subs[0], 100.0);
    var q := CloseEligible(TWO_LEGS, p, 100.0);
    assert q.subs == [FIRST_SOLD] by { assert ClosedSub(FIRST, 100.0) == FIRST_SOLD; }
    assert Average(10.0, 0.1) == 100.0;
    assert Looks(q, 0.1, 10.0, 1, Some(78.4), Some(101.5), [FIRST_SOLD]);
    hide CloseEligible, Remaining;
    NotDueAt100(q);
  }

  lemma NotDueAt100(q: Position)
    requires q.subs == [FIRST_SOLD] && q.recoveryDcaCount == 0
    ensures !FirstLegDue(TWO_LEGS, q, 100.0)
  {
    hide Remaining;
    assert AnchorEntry(q.subs, 2) == 80.0;
    assert RecoveryAnchor(TWO_LEGS, q).Some? ==> RecoveryAnchor(TWO_LEGS, q).value == 80.0;
    LegTriggersAt76(Remaining(TWO_LEGS, q));
    hide Leg, RecoveryAnchor;
  }

  lemma LegTriggersAt76(remaining: real)
    ensures var leg := Leg(TWO_LEGS, 0, 80.0, remaining); leg.Leg? ==> leg.triggerPrice == 76.0
    ensures remaining >= 10.0 ==> Leg(TWO_LEGS, 0, 80.0, remaining) == Recovery.Leg(1, 76.0, 10.0, 10.0)
  {
  }

  lemma BuysSecondLeg(p: Position)
    requires Looks(p, 0.1, 10.0, 1, Some(78.4), Some(101.5), [FIRST_SOLD])
    ensures Looks(Serve(TWO_LEGS, p, AddDca(64.0)).position, 0.1, 10.0, 2, None, Some(101.5), [FIRST_SOLD, SECOND])
  {
    PlanIs();
    CostAppend([], FIRST_SOLD);
    assert [] + [FIRST_SOLD] == p.subs && OpenCost([]) == 0.0;
    hide Plan, OpenCost;
    assert DcaLevel(TWO_LEGS, p) == Some(Plan(TWO_LEGS)[2]);
    assert [FIRST_SOLD] + [SECOND] == [FIRST_SOLD, SECOND];
  }

  lemma ClosesParent(p: Position)
    requires Looks(p, 0.1, 10.0, 2, None, Some(101.5), [FIRST_SOLD, SECOND])
    ensures Looks(Serve(TWO_LEGS, p, ClosePosition(64.0)).position, 0.0, 0.0, 2, None, None, [FIRST_SOLD, SECOND])
  {
    assert p.subs[1].open;
  }

  lemma ParentSoldOut()
    ensures OpenPosition(TWO_LEGS, 100.0).Some?
    ensures Looks(Run(TWO_LEGS, OpenPosition(TWO_LEGS, 100.0).value, REQUESTS), 0.0, 0.0, 2, None, None, [FIRST_SOLD, SECOND])
  {
    OpensAt100();
    var p := OpenPosition(TWO_LEGS, 100.0).value;
    hide OpenPosition, Serve, Looks;
    assert REQUESTS[..3][..2] == REQUESTS[..2] && REQUESTS[..2][..1] == REQUESTS[..1] && REQUESTS[..1][..0] == [];
    assert Run(TWO_LEGS, p, []) == p;
    BuysFirstLeg(p);
    SellsFirstLeg(Run(TWO_LEGS, p, REQUESTS[..1]));
    BuysSecondLeg(Run(TWO_LEGS, p, REQUESTS[..2]));
    ClosesParent(Run(TWO_LEGS, p, REQUESTS[..3]));
  }

  lemma LastLegIsDue(p: Position)
    requires Looks(p, 0.0, 0.0, 2, None, None, [FIRST_SOLD, SECOND])
    ensures LastLegsClose(p, 65.0)
    ensures var q := CloseEligible(TWO_LEGS, p, 65.0); !TakesProfit(q, 65.0) && RecoveryBuyDue(TWO_LEGS, q, 65.0)
  {
    assert Eligible(p.subs[1], 65.0);
    assert LastLegsClose(p, 65.0);
    var q := CloseEligible(TWO_LEGS, p, 65.0);
    assert !TakesProfit(q, 65.0) && q.recoveryDcaCount == 0;
    ClosedBasket(p);
    assert BasketCost(q) == 0.0 && Remaining(TWO_LEGS, q) == 100.0;
    assert AnchorEntry(q.subs, 2) == 80.0;
    assert RecoveryAnchor(TWO_LEGS, q) == Some(80.0);
    hide CloseEligible, OpenCost, RecoveryAnchor, BasketCost, Remaining;
    LegTriggersAt76(100.0);
    hide Leg;
  }

  lemma ClosedBasket(p: Position)
    requires Looks(p, 0.0, 0.0, 2, None, None, [FIRST_SOLD, SECOND])
    ensures var q := CloseEligible(TWO_LEGS, p, 65.0); OpenCost(q.subs) == 0.0 && q.cost == 0.0 && q.subs != [] && q.subs[0] == FIRST_SOLD
  {
    hide Average, Up, EligiblePnl, SubSales;
    var closed := ClosedSubs(p.subs, 65.0);
    assert Eligible(p.subs[1], 65.0);
    CostAppend([], closed[0]);
    CostAppend([closed[0]], closed[1]);
    assert [] + [closed[0]] == [closed[0]] && [closed[0]] + [closed[1]] == closed;
  }

  /** At 65 the last leg is sold and the position closed, and then a recovery leg below the first one's entry is bought. */
  lemma TickBuysIntoClosed()
    ensures RiskBudget.Validates(TWO_LEGS.plan) && Recovery.Normal(TWO_LEGS.recovery) && OpenPosition(TWO_LEGS, 100.0).Some?
    ensures var after := ProcessPrice(TWO_LEGS, Run(TWO_LEGS, OpenPosition(TWO_LEGS, 100.0).value, REQUESTS), 65.0);
            Buys(after.action) && !after.position.open
  {
    TwoLegsValid();
    ParentSoldOut();
    var p := Run(TWO_LEGS, OpenPosition(TWO_LEGS, 100.0).value, REQUESTS);
    LastLegIsDue(p);
    assert p.open;
    hide *;
    TickBuysIntoClosedExactly(TWO_LEGS, p, 65.0);
  }
}
