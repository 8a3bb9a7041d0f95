/**
 The stop-loss on the rows. An exit that is executed in full leaves the rows
 that `StopLoss` speaks of; and a run of the strategy reaches a basket on which
 the stop-loss ceases half-way: a recovery buy has made the parent cheaper than
 the independent leg, so once the leg is sold the parent is no longer below its
 own stop.
 */
module StopLossRuns {
  import opened Reals
  import opened FillAccounting
  import opened FillPaths
  import opened FillScripts
  import opened EntryCounts
  import Runner = StrategyRunner
  import StopLoss
  import Config = Recovery
  import RiskBudget

  /* ---- One order after another ---- */

  /** An order that the exchange executes in one trade, without commission. */
  function OneTrade(r: Request, traded: Amount): Script
    requires traded.quantity > DUST && traded.quote > 0.0
  {
    Script(r, [Fill(traded.quantity, traded.quote, 0.0, OtherAsset)], true)
  }

  function PriceOf(traded: Amount): real
    requires traded.quantity > 0.0
  {
    traded.quote / traded.quantity
  }

  /** Such an order, reported as FILLED in the reply to the submit. */
  function Executed(r: Request, traded: Amount): Event
    requires traded.quantity > DUST && traded.quote > 0.0
  {
    Submitted(OneTrade(r, traded), traded.quantity, Look(1, PriceOf(traded), Filled))
  }

  function FilledOrder(r: Request, traded: Amount): Order {
    Order(r.side, r.action, r.level, traded.quantity, traded, Filled)
  }

  lemma OneTradeReport(r: Request, traded: Amount)
    requires traded.quantity > DUST && traded.quote > 0.0
    ensures var fills, look := OneTrade(r, traded).fills, Look(1, PriceOf(traded), Filled);
            && Looks(OneTrade(r, traded), 0, look)
            && Report(fills, look) == Snapshot(traded, fills, PriceOf(traded), Filled)
            && Net(traded, r.side, fills) == traded
  {
    var fills := OneTrade(r, traded).fills;
    assert fills[..1] == fills && fills[..|fills| - 1] == [];
    assert Quantity(fills) == traded.quantity && Quote(fills) == traded.quote;
    NoCommission(fills, BaseAsset);
    NoCommission(fills, QuoteAsset);
  }

  lemma NoCommission(fills: seq<Fill>, asset: Asset)
    requires |fills| == 1 && fills[0].commission == 0.0
    ensures Commissions(fills, asset) == 0.0
  {
    assert fills[..|fills| - 1] == [];
  }

  /** The position after such an order. */
  function AfterTrade(a: Account, r: Request, traded: Amount): Account
    requires r.side.Sell? && Independent(r.side, r.action) ==> r.level in a.subs
    requires traded.quantity > 0.0
  {
    match r.side
    case Buy => SubmitBuy(Some(a), r.action, r.level, traded)
    case Sell => SellFill(a, TargetOf(Sell, r.action, r.level), traded, PriceOf(traded), FullExit(r.action, Filled))
  }

  lemma ExecutedStep(d: Desk, r: Request, traded: Amount)
    requires traded.quantity > DUST && traded.quote > 0.0 && d.book.account.open
    requires Refused(Some(d.book.account), r.side, r.action, r.level, traded.quantity).None?
    ensures Possible(d, Executed(r, traded))
    ensures r.side.Sell? && Independent(r.side, r.action) ==> r.level in d.book.account.subs
    ensures Step(d, Executed(r, traded)).book == Book(AfterTrade(d.book.account, r, traded), d.book.orders + [FilledOrder(r, traded)])
  {
    OneTradeReport(r, traded);
    hide Net, Report, SubmitBuy, SellFill, OrdersPending, CloseIfEmpty, OneTrade;
  }

  /** What the runner decides on the rows it reads is sent, and executed in one trade. */
  lemma DecidedStep(s: Runner.Terms, d: Desk, p: Runner.Position, m: Runner.Market, r: Request, traded: Amount)
    requires traded.quantity > DUST && traded.quote > 0.0 && d.book.account.open && !PendingExecution(d)
    requires Sent(s, d.book.account, p, m, r) && m.price > 0.0
    requires traded.quantity == Runner.QuantityOf(Runner.Decide(s, Some(p), m), m.price)
    ensures Arises(s, d, Executed(r, traded)) && !PendingExecution(Step(d, Executed(r, traded)))
    ensures r.side.Sell? && Independent(r.side, r.action) ==> r.level in d.book.account.subs
    ensures Step(d, Executed(r, traded)).book == Book(AfterTrade(d.book.account, r, traded), d.book.orders + [FilledOrder(r, traded)])
  {
    hide Runner.Decide, AfterTrade, Step, Refused;
    Runner.DecisionsAreAccepted(s, p, d.book.account, m);
    ExecutedStep(d, r, traded);
  }

  /* ---- A full exit ---- */

  predicate LevelsDistinct(p: Runner.Position) {
    forall i, j :: 0 <= i < j < |p.legs| ==> p.legs[i].level != p.legs[j].level
  }

  /**
   The next tick reads what is left after the sale that the stop-loss has asked for, once it is executed in
   full, whatever its price; or the position is closed, and then at most dust is left.
   */
  lemma ExitLeavesRemainder(s: Runner.Terms, p: Runner.Position, a: Account, m: Runner.Market, sold: Amount, price: real)
    requires StopLoss.LegsPositive(p) && LevelsDistinct(p) && Runner.Reads(p, a)
    requires m.price > 0.0 && Runner.StopLossHit(s, p, m.price) && sold.quantity > 0.0
    ensures var d := Runner.Decide(s, Some(p), m);
            && d.SellAll? && (Independent(Sell, d.action) ==> d.level in a.subs)
            && var after := SellFill(a, TargetOf(Sell, d.action, d.level), sold, price, FullExit(d.action, Filled));
               if after.open then Runner.Reads(StopLoss.AfterSale(p), after) else Runner.BasketQuantity(StopLoss.AfterSale(p)) <= DUST
  {
    StopLoss.StopLossSells(s, p, m);
    hide Runner.Decide, Runner.StopLossHit, SellLeg;
    if p.legs == [] {
      FullySold(a.parent, sold, price, !HasOpenSub(a));
      assert StopLoss.AfterSale(p).legs == [];
    } else {
      var top := p.legs[|p.legs| - 1].level;
      FullySold(a.subs[top].leg, sold, price, true);
      if |p.legs| > 1 { assert a.subs[p.legs[0].level].open && p.legs[0].level != top; }
    }
  }

  lemma FullySold(leg: Leg, sold: Amount, price: real, mayClose: bool)
    ensures var after := SellLeg(leg, sold, price, true, mayClose);
            after.quantity == 0.0 && (leg.quantity > 0.0 ==> after.cost == 0.0) && (Closes(leg, sold, true, mayClose) <==> mayClose)
  {
    hide Allocated;
  }

  /* ---- The run ---- */

  /** Ladder and recovery of one order each, 15 and a further 10 percent down; the stop is 20 percent below the average. */
  const TERMS: Runner.Terms :=
    Runner.Strategy(RiskBudget.PlanInput(100.0, 12.0, 1, 15.0, 1.0, [], 1.5, 2), Config.Config(true, 1, [10.0], [2.1], 1.5),
                    false, false, Some(20.0))

  const INITIAL := Request(Buy, InitialEntry, 1)
  const LADDER := Request(Buy, IndependentEntry, 2)
  const RECOVERY := Request(Buy, RecoveryEntry, 3)
  const EXIT := Request(Sell, IndependentExit, 2)

  const SUB := Runner.Leg(2, 1.2, 12.0, 10.0, 10.15)

  /** The rows as the ticks at 10, at 9 and, twice, at 7.85 read them. */
  const AT_TEN := Runner.Position(1.0, 12.0, 0, Some(10.2), Some(12.18), false, 0, None, None, [])
  const AT_NINE := Runner.Position(1.0, 12.0, 1, None, Some(12.18), false, 0, None, None, [SUB])
  const BASKET := Runner.Position(3.8, 37.2, 1, None, None, true, 1, Some(10.0), Some(9.9876), [SUB])
  const REST := BASKET.(legs := [])

  function At(price: real): Runner.Market {
    Runner.Market(price, false, false)
  }

  lemma LadderDecided()
    ensures Runner.Decide(TERMS, Some(AT_TEN), At(10.0)) == Runner.BuyQuote(IndependentEntry, 2, 12.0)
  {
    assert RiskBudget.RunnerMultiplier(TERMS.plan, 0) == 1.0;
    assert RiskBudget.RunnerDcaQuote(TERMS.plan, 0, 12.0) == 12.0;
    hide RiskBudget.RunnerDcaQuote;
  }

  lemma RecoveryDecided()
    ensures Runner.Decide(TERMS, Some(AT_NINE), At(9.0)) == Runner.BuyQuote(RecoveryEntry, 3, 25.2)
  {
    OneLegBasket(AT_NINE);
  }

  lemma OneLegBasket(p: Runner.Position)
    requires p.legs == [SUB]
    ensures Runner.BasketQuantity(p) == p.quantity + 1.2 && Runner.BasketCost(p) == p.cost + 12.0
  {
    assert p.legs[..|p.legs| - 1] == [];
    assert Runner.LegsQuantity([]) == 0.0 && Runner.LegsCost([]) == 0.0;
  }

  lemma NoLegBasket(p: Runner.Position)
    requires p.legs == []
    ensures Runner.BasketQuantity(p) == p.quantity && Runner.BasketCost(p) == p.cost
  {
  }

  /** 7.85 is 20 percent below 49.2 / 5, but not 20 percent below 37.2 / 3.8. */
  lemma Stops()
    ensures Runner.StopHit(49.2, 5.0, 20.0, 7.85) && !Runner.StopHit(37.2, 3.8, 20.0, 7.85)
  {
    StopLoss.StopHitIs(49.2, 5.0, 20.0, 7.85);
    StopLoss.StopHitIs(37.2, 3.8, 20.0, 7.85);
    hide Runner.StopHit;
  }

  lemma StopDecided()
    ensures Runner.StopLossHit(TERMS, BASKET, 7.85)
    ensures Runner.Decide(TERMS, Some(BASKET), At(7.85)) == Runner.SellAll(IndependentExit, 2, 1.2)
  {
    Stops();
    OneLegBasket(BASKET);
    hide Runner.StopHit, Runner.BasketQuantity, Runner.BasketCost, Runner.RecoveryTick, Runner.NormalTick;
  }

  lemma NoSecondRecovery()
    ensures Runner.RecoveryDecision(TERMS, REST, 1, 10.0, At(7.85)) == None
  {
  }

  /** The parent alone waits: its target is not reached, and there is no further recovery order. */
  lemma RestDecided()
    ensures !Runner.StopLossHit(TERMS, REST, 7.85)
    ensures Runner.Decide(TERMS, Some(REST), At(7.85)) == Runner.Hold
  {
    hide Runner.StopHit, Runner.BasketQuantity, Runner.BasketCost, Runner.SellNext, Runner.NormalTick, Runner.RecoveryDecision;
    Stops();
    NoLegBasket(REST);
    NoSecondRecovery();
  }

  /* ---- What the orders leave ---- */

  const PARENT: Amount := Amount(1.0, 12.0)
  const LEG: Amount := Amount(1.2, 12.0)
  const RECOVERED: Amount := Amount(2.8, 25.2)
  const SOLD: Amount := Amount(1.2, 9.42)

  function Start(): Desk {
    OneTradeReport(INITIAL, PARENT);
    NewDesk(OneTrade(INITIAL, PARENT), Look(1, PriceOf(PARENT), Filled))
  }

  function WithSub(a: Account, open: bool, leg: LegRow): Account
    requires leg.quantity >= 0.0 && leg.cost >= 0.0
  {
    a.(subs := map[2 := SubPosition(open, leg)])
  }

  const OPENED: Account := Opened(LegRow.Leg(1.0, 12.0, 0.0, 0.0))
  const LADDERED: Account := WithSub(OPENED.(dcaCount := 1), true, LegRow.Leg(1.2, 12.0, 0.0, 0.0))
  const HELD: Account := LADDERED.(parent := LegRow.Leg(3.8, 37.2, 0.0, 0.0), recoveryDcaCount := 1)
  const KEPT: Account := WithSub(HELD, false, LegRow.Leg(0.0, 0.0, -2.58, 0.0))

  lemma StartIs()
    ensures Opening(OneTrade(INITIAL, PARENT), Look(1, PriceOf(PARENT), Filled))
    ensures Start().book.account == OPENED && !PendingExecution(Start())
  {
    OneTradeReport(INITIAL, PARENT);
    hide Net, Report;
  }

  lemma LadderLeaves()
    ensures AfterTrade(OPENED, LADDER, LEG) == LADDERED
  {
  }

  lemma RecoveryLeaves()
    ensures AfterTrade(LADDERED, RECOVERY, RECOVERED) == HELD
  {
  }

  lemma ExitLeaves()
    ensures AfterTrade(HELD, EXIT, SOLD) == KEPT
  {
    hide SellSub, SellParent, PriceOf;
    SubSold(HELD, PriceOf(SOLD));
  }

  lemma SubSold(a: Account, price: real)
    requires a == HELD
    ensures SellSub(a, 2, SOLD, price, true) == KEPT
  {
    var leg := a.subs[2].leg;
    LegSold(leg, price);
    hide SellLeg, Closes, HasOtherOpenSub;
  }

  lemma LegSold(leg: Leg, price: real)
    requires leg == LegRow.Leg(1.2, 12.0, 0.0, 0.0)
    ensures Closes(leg, SOLD, true, true) && SellLeg(leg, SOLD, price, true, true) == LegRow.Leg(0.0, 0.0, -2.58, 0.0)
  {
    hide Allocated;
  }

  /* ---- The theorem ---- */

  function Buys(): seq<Event> {
    [Executed(LADDER, LEG), Executed(RECOVERY, RECOVERED)]
  }

  lemma Extends(s: Runner.Terms, d: Desk, events: seq<Event>, e: Event)
    requires StrategyRun(s, d, events) && Arises(s, Run(d, events), e)
    ensures StrategyRun(s, d, events + [e]) && Run(d, events + [e]) == Step(Run(d, events), e)
  {
    assert (events + [e])[..|events|] == events;
    hide Arises, Step, Possible;
  }

  lemma LadderBought()
    ensures var run := [Executed(LADDER, LEG)];
            StrategyRun(TERMS, Start(), run) && Run(Start(), run).book.account == LADDERED && !PendingExecution(Run(Start(), run))
  {
    hide Runner.Decide, Step, AfterTrade, Start, PendingExecution, Possible, Executed, PriceOf, Arises;
    StartIs();
    LadderDecided();
    LadderLeaves();
    assert Sent(TERMS, OPENED, AT_TEN, At(10.0), LADDER);
    DecidedStep(TERMS, Start(), AT_TEN, At(10.0), LADDER, LEG);
    Extends(TERMS, Start(), [], Executed(LADDER, LEG));
    assert [] + [Executed(LADDER, LEG)] == [Executed(LADDER, LEG)];
  }

  lemma Reached()
    ensures StrategyRun(TERMS, Start(), Buys())
    ensures Run(Start(), Buys()).book.account == HELD && !PendingExecution(Run(Start(), Buys()))
  {
    hide Runner.Decide, Step, AfterTrade, Start, PendingExecution, Possible, Executed, PriceOf, Arises, Run;
    LadderBought();
    RecoveryDecided();
    RecoveryLeaves();
    var d := Run(Start(), [Executed(LADDER, LEG)]);
    assert Sent(TERMS, LADDERED, AT_NINE, At(9.0), RECOVERY);
    DecidedStep(TERMS, d, AT_NINE, At(9.0), RECOVERY, RECOVERED);
    Extends(TERMS, Start(), [Executed(LADDER, LEG)], Executed(RECOVERY, RECOVERED));
    assert Buys() == [Executed(LADDER, LEG)] + [Executed(RECOVERY, RECOVERED)];
  }

  /**
   The strategy buys at 12, 10 and 9, and at 7.85 the basket is below its stop: the leg is sold. The tick that
   should sell the parent then finds the stop not hit any more, and holds. The one remainder that the basket
   has was bought at a lower average than the whole.
   */
  lemma StopCanCease()
    ensures StrategyRun(TERMS, Start(), Buys() + [Executed(EXIT, SOLD)])
    ensures var d := Run(Start(), Buys());
            && Runner.Reads(BASKET, d.book.account) && Sent(TERMS, d.book.account, BASKET, At(7.85), EXIT)
            && Runner.StopLossHit(TERMS, BASKET, 7.85) && StopLoss.LegsPositive(BASKET) && !StopLoss.NoneCheaper(BASKET)
    ensures var d := Run(Start(), Buys() + [Executed(EXIT, SOLD)]);
            && Runner.Reads(REST, d.book.account) && d.book.account.open && !PendingExecution(d)
            && REST == StopLoss.AfterSale(BASKET) && REST.quantity > 0.0
            && Runner.Decide(TERMS, Some(REST), At(7.85)) == Runner.Hold
  {
    hide Runner.Decide, Step, AfterTrade, Start, PendingExecution, Possible, Executed, Buys, StopLoss.NoneCheaper, Runner.StopHit, PriceOf, Arises;
    Reached();
    StopDecided();
    RestDecided();
    ExitLeaves();
    RestIsCheaper();
    var d, e := Run(Start(), Buys()), Executed(EXIT, SOLD);
    assert Sent(TERMS, d.book.account, BASKET, At(7.85), EXIT);
    DecidedStep(TERMS, d, BASKET, At(7.85), EXIT, SOLD);
    Extends(TERMS, Start(), Buys(), e);
  }

  lemma RestIsCheap()
    ensures !StopLoss.NoDearer(49.2, 5.0, 37.2, 3.8)
  {
  }

  lemma RestIsCheaper()
    ensures StopLoss.LegsPositive(BASKET) && REST == StopLoss.AfterSale(BASKET)
    ensures !StopLoss.NoneCheaper(BASKET)
  {
    hide StopLoss.NoDearer, Runner.BasketQuantity, Runner.BasketCost;
    OneLegBasket(BASKET);
    var rest := StopLoss.Remainder(BASKET, 0);
    NoLegBasket(rest);
    RestIsCheap();
  }
}
