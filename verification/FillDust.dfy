/**
 What dust closes can forget over a whole run. A report that is no filled exit
 closes a leg once at most dust is left of it, and the cost of that remainder
 is in no later figure: over any run at most one dust quantity's worth a close.
 */
module FillDust {
  import opened Reals
  import opened FillAccounting
  import opened FillRuns

  /** What a booked event sells. */
  datatype Sale = Sale(target: Target, sold: Amount, averagePrice: real, fullExit: bool)

  predicate Accepted(b: Book, e: Event) {
    match e
    case SubmitEvent(side, action, level, quantity, snap) =>
      b.account.open && Refused(Some(b.account), side, action, level, quantity).None?
    case SyncEvent(i, snap) =>
      i < |b.orders| && Synced(b.account, b.orders[i], snap, OrdersPending(b.orders[i := OrderAfterSync(b.orders[i], snap)])).Some?
  }

  /** The side, the leg and the amount that an accepted event books. */
  function Booking(b: Book, e: Event): (Side, Target, Amount)
    requires Accepted(b, e)
  {
    match e
    case SubmitEvent(side, action, level, quantity, snap) =>
      (side, TargetOf(side, action, level), Net(snap.gross, side, snap.fills))
    case SyncEvent(i, snap) =>
      var o := b.orders[i];
      (o.side, TargetOf(o.side, o.action, o.level), Delta(o, snap))
  }

  predicate Buys(b: Book, e: Event, t: Target) {
    Accepted(b, e) && Booking(b, e).0.Buy? && Booking(b, e).1 == t
  }

  predicate Sells(b: Book, e: Event, t: Target) {
    Accepted(b, e) && Booking(b, e).0.Sell? && Booking(b, e).1 == t && Booking(b, e).2.quantity > 0.0
  }

  function PriceOf(e: Event): real {
    e.snap.averagePrice
  }

  /** Whether the event reports an exit order as completely filled. */
  predicate FilledExit(b: Book, e: Event)
    requires Accepted(b, e)
  {
    FullExit(if e.SubmitEvent? then e.action else b.orders[e.index].action, e.snap.status)
  }

  /** The leg after the event: bought for, sold from, or untouched. */
  lemma ApplyMoves(b: Book, e: Event, t: Target)
    requires JointEvent(b, e)
    ensures LegOf(Apply(b, e).account, t)
         == if Buys(b, e, t) then BuyLeg(LegOf(b.account, t), Booking(b, e).2)
            else if Sells(b, e, t) then SellLeg(LegOf(b.account, t), Booking(b, e).2, PriceOf(e), FilledExit(b, e), MayClose(b.account, t))
            else LegOf(b.account, t)
  {
    if Accepted(b, e) {
      hide LegOf, BuyLeg, SellLeg, Net, Delta, Refused, OrderAfterSync, OrderAfterSubmit, OrdersPending, Joint, HasOpenSub;
      match e
      case SubmitEvent(side, action, level, quantity, snap) =>
        SubmitMoves(b, side, action, level, quantity, snap, t);
      case SyncEvent(i, snap) =>
        SyncMoves(b.account, b.orders[i], snap, OrdersPending(b.orders[i := OrderAfterSync(b.orders[i], snap)]), t);
    }
  }

  lemma SubmitMoves(b: Book, side: Side, action: Action, level: nat, quantity: real, snap: Snapshot, t: Target)
    requires Joint(Net(snap.gross, side, snap.fills))
    requires b.account.open && Refused(Some(b.account), side, action, level, quantity).None?
    ensures side.Sell? && Independent(side, action) ==> level in b.account.subs
    ensures LegOf(Booked(Some(b.account), side, action, level, snap, OrdersPending(b.orders)), t)
         == if t != TargetOf(side, action, level) then LegOf(b.account, t)
            else if side.Buy? then BuyLeg(LegOf(b.account, t), Net(snap.gross, side, snap.fills))
            else if Net(snap.gross, side, snap.fills).quantity > 0.0 then
              SellLeg(LegOf(b.account, t), Net(snap.gross, side, snap.fills), snap.averagePrice, FullExit(action, snap.status), MayClose(b.account, t))
            else LegOf(b.account, t)
  {
    AcceptedFindsLeg(b.account, side, action, level, quantity);
    hide Refused, SellLeg, BuyLeg, LegOf, Net, Joint;
    var net := Net(snap.gross, side, snap.fills);
    if side.Buy? {
      hide SellFill;
      BookedBuyMoves(Some(b.account), action, level, snap, OrdersPending(b.orders), t);
    } else if net.quantity > 0.0 {
      SellMoves(b.account, TargetOf(Sell, action, level), net, snap.averagePrice, FullExit(action, snap.status), t);
    }
  }

  lemma SyncMoves(a: Account, o: Order, snap: Snapshot, pending: bool, t: Target)
    requires Joint(Delta(o, snap)) && Synced(a, o, snap, pending).Some?
    ensures LegOf(Synced(a, o, snap, pending).value, t)
         == if t != TargetOf(o.side, o.action, o.level) then LegOf(a, t)
            else if o.side.Buy? then BuyLeg(LegOf(a, t), Delta(o, snap))
            else if Delta(o, snap).quantity > 0.0 then
              SellLeg(LegOf(a, t), Delta(o, snap), snap.averagePrice, FullExit(o.action, snap.status), MayClose(a, t))
            else LegOf(a, t)
  {
    hide SellLeg, BuyLeg, LegOf, Delta, SyncBuy, CloseIfEmpty, Joint;
    var delta := Delta(o, snap);
    if o.side.Buy? {
      hide SellFill;
      SyncBuyLegs(a, o.action, o.level, o.accounted, delta, t);
      CloseIfEmptyMoves(SyncBuy(a, o.action, o.level, o.accounted, delta), pending, t);
    } else if delta.quantity > 0.0 {
      SellMoves(a, TargetOf(Sell, o.action, o.level), delta, snap.averagePrice, FullExit(o.action, snap.status), t);
    }
  }

  /* ---- Over a run ---- */

  /** The event closes the leg with a remainder, because at most dust would be left. */
  predicate DustClose(b: Book, e: Event, t: Target) {
    Sells(b, e, t) && !FilledExit(b, e) && Closes(LegOf(b.account, t), Booking(b, e).2, false, MayClose(b.account, t))
  }

  function DustCloses(b: Book, events: seq<Event>, t: Target): nat {
    if events == [] then 0
    else
      var before := events[..|events| - 1];
      Counting(DustCloses(b, before, t), DustClose(Run(b, before), events[|events| - 1], t))
  }

  function Counting(n: nat, oneMore: bool): nat {
    if oneMore then n + 1 else n
  }

  predicate CostsAtMost(bought: Amount, price: real) {
    bought.quote <= price * bought.quantity
  }

  /** Nothing is bought for the leg at more than a price per coin, net of commissions. */
  predicate PricedRun(b: Book, events: seq<Event>, t: Target, price: real) {
    events != [] ==>
      var before := events[..|events| - 1];
      PricedRun(b, before, t, price) && PricedEvent(Run(b, before), events[|events| - 1], t, price)
  }

  predicate PricedEvent(b: Book, e: Event, t: Target, price: real) {
    Buys(b, e, t) ==> CostsAtMost(Booking(b, e).2, price)
  }

  /** The leg costs at most the price per coin, and has dropped at most that price of dust n times. */
  predicate Within(l: Leg, price: real, n: nat) {
    l.cost <= price * l.quantity && 0.0 <= l.dropped <= price * DUST * (n as real)
  }

  lemma BuyWithin(l: Leg, bought: Amount, price: real, n: nat)
    requires Within(l, price, n) && CostsAtMost(bought, price)
    ensures Within(BuyLeg(l, bought), price, n)
  {
    Distribute(l.quantity, bought.quantity, price);
  }

  lemma SellWithin(l: Leg, sold: Amount, averagePrice: real, fullExit: bool, mayClose: bool, price: real, n: nat)
    requires price >= 0.0 && Within(l, price, n)
    ensures Within(SellLeg(l, sold, averagePrice, fullExit, mayClose), price,
                   Counting(n, !fullExit && Closes(l, sold, false, mayClose)))
  {
    hide Allocated;
    var q := Sold(l, sold, fullExit);
    var rest, left := l.cost - Allocated(l, q), l.quantity - q;
    RestCosts(l, q, price);
    if Closes(l, sold, fullExit, mayClose) {
      ProductMonotone(left, DUST, price);
      OneMore(price * DUST, n);
    }
  }

  /** What is left of a leg still costs at most the price per coin. */
  lemma RestCosts(l: Leg, q: real, price: real)
    requires 0.0 <= q <= l.quantity && l.cost <= price * l.quantity && price >= 0.0
    ensures l.cost - Allocated(l, q) <= price * (l.quantity - q)
    ensures q == l.quantity ==> l.cost - Allocated(l, q) <= 0.0
  {
    var rest, left := l.cost - Allocated(l, q), l.quantity - q;
    if l.quantity > 0.0 {
      Distribute(l.cost, Allocated(l, q), l.quantity);
      assert rest * l.quantity == l.cost * left by { TimesRest(l.cost, l.quantity, q, Allocated(l, q)); }
      hide Allocated;
      ProductMonotone(l.cost, price * l.quantity, left);
      Swap(price, l.quantity, left);
      CompareProducts(rest, price * left, l.quantity);
    }
  }

  lemma TimesRest(cost: real, quantity: real, q: real, part: real)
    requires part * quantity == cost * q
    ensures (cost - part) * quantity == cost * (quantity - q)
  {
    Distribute(cost, part, quantity);
    Distribute(quantity, q, cost);
  }

  lemma OneMore(x: real, n: nat)
    ensures x * ((n + 1) as real) == x * (n as real) + x
  {
  }

  lemma MovedWithin(l: Leg, after: Leg, buys: bool, sells: bool, amount: Amount, averagePrice: real, fullExit: bool,
                    mayClose: bool, price: real, n: nat)
    requires price >= 0.0 && Within(l, price, n) && (buys ==> CostsAtMost(amount, price) && !sells)
    requires after == if buys then BuyLeg(l, amount)
                      else if sells then SellLeg(l, amount, averagePrice, fullExit, mayClose) else l
    ensures Within(after, price, Counting(n, sells && !fullExit && Closes(l, amount, false, mayClose)))
  {
    hide Within, BuyLeg, SellLeg, Closes, CostsAtMost;
    if buys {
      BuyWithin(l, amount, price, n);
    } else if sells {
      SellWithin(l, amount, averagePrice, fullExit, mayClose, price, n);
    }
  }

  lemma EventDropsLittle(b: Book, e: Event, t: Target, price: real, n: nat)
    requires price >= 0.0 && Within(LegOf(b.account, t), price, n)
    requires JointEvent(b, e) && PricedEvent(b, e, t, price)
    ensures Within(LegOf(Apply(b, e).account, t), price, Counting(n, DustClose(b, e, t)))
  {
    ApplyMoves(b, e, t);
    hide Apply, JointEvent, Within, CostsAtMost, LegOf, BuyLeg, SellLeg, Accepted, Booking, FilledExit, Closes, MayClose;
    if Accepted(b, e) {
      MovedWithin(LegOf(b.account, t), LegOf(Apply(b, e).account, t), Buys(b, e, t), Sells(b, e, t), Booking(b, e).2,
                  PriceOf(e), FilledExit(b, e), MayClose(b.account, t), price, n);
    }
  }

  lemma {:induction false} RunDropsLittle(b: Book, events: seq<Event>, t: Target, price: real)
    requires price >= 0.0 && Within(LegOf(b.account, t), price, 0)
    requires JointRun(b, events) && PricedRun(b, events, t, price)
    ensures Within(LegOf(Run(b, events).account, t), price, DustCloses(b, events, t))
  {
    hide Apply, Within, LegOf, DustClose, PricedEvent, JointEvent;
    if events != [] {
      var before := events[..|events| - 1];
      RunDropsLittle(b, before, t, price);
      EventDropsLittle(Run(b, before), events[|events| - 1], t, price, DustCloses(b, before, t));
    }
  }

  lemma OpenWithin(action: Action, level: nat, snap: Snapshot, t: Target, price: real)
    requires Joint(Net(snap.gross, Buy, snap.fills)) && price >= 0.0
    requires t == TargetOf(Buy, action, level) ==> CostsAtMost(Net(snap.gross, Buy, snap.fills), price)
    ensures Within(LegOf(Open(action, level, snap).account, t), price, 0)
  {
    BookedBuyMoves(None, action, level, snap, false, t);
    hide Net, Booked, BuyLeg, CostsAtMost, Joint;
    assert Within(EMPTY, price, 0) by { assert price * DUST * (0 as real) == 0.0; }
    hide Within;
    if t == TargetOf(Buy, action, level) {
      BuyWithin(EMPTY, Net(snap.gross, Buy, snap.fills), price, 0);
    }
  }

  /**
   A leg that holds nothing any more has realised its sells less its buys, and at most one dust quantity's
   worth more for every time it was closed with a remainder; exactly that if every close was a filled exit.
   */
  lemma ExitedLegProfit(action: Action, level: nat, snap: Snapshot, events: seq<Event>, t: Target, price: real)
    requires Joint(Net(snap.gross, Buy, snap.fills)) && JointRun(Open(action, level, snap), events)
    requires price >= 0.0
    requires t == TargetOf(Buy, action, level) ==> CostsAtMost(Net(snap.gross, Buy, snap.fills), price)
    requires PricedRun(Open(action, level, snap), events, t, price)
    ensures var b, n := Run(Open(action, level, snap), events), DustCloses(Open(action, level, snap), events, t);
            LegOf(b.account, t).cost == 0.0 ==>
              && Flow(b.orders, t) <= LegOf(b.account, t).realized <= Flow(b.orders, t) + price * DUST * (n as real)
              && (n == 0 ==> LegOf(b.account, t).realized == Flow(b.orders, t))
  {
    ExitedLegRealized(action, level, snap, events, t);
    OpenWithin(action, level, snap, t, price);
    hide Open, Run, Flow, JointRun, PricedRun, Joint, Net, DustCloses, LegOf;
    RunDropsLittle(Open(action, level, snap), events, t, price);
    var leg := LegOf(Run(Open(action, level, snap), events).account, t);
    NothingForNone(leg, price, DustCloses(Open(action, level, snap), events, t));
  }

  lemma NothingForNone(l: Leg, price: real, n: nat)
    requires Within(l, price, n)
    ensures n == 0 ==> l.dropped == 0.0
  {
    assert price * DUST * (0 as real) == 0.0;
  }
}
