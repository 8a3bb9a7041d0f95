/**
 The strategy's own entries count exactly once. The submit and the sync code can
 disagree on a first fill (`FillCounters`), but never on an order the runner
 decides on: over every run of its ticks, `dcaCount` is the number of ladder
 orders that have filled at all, and `recoveryDcaCount` that of recovery orders.
 */
module EntryCounts {
  import opened Reals
  import opened FillAccounting
  import Runs = FillRuns
  import opened FillPaths
  import opened FillCounters
  import opened FillScripts
  import Runner = StrategyRunner

  /* ---- Runs of the strategy ---- */

  /** The action of such an order has not been resolved. */
  predicate Unresolved(s: Status) {
    Working(s) || s.Failed?
  }

  predicate PendingExecution(d: Desk) {
    exists i :: 0 <= i < |d.book.orders| && Unresolved(d.book.orders[i].status)
  }

  /** The order a tick's decision is sent as. */
  predicate Sent(s: Runner.Terms, a: Account, p: Runner.Position, m: Runner.Market, r: Request) {
    Runner.Reads(p, a) &&
    var d := Runner.Decide(s, Some(p), m);
    (d.BuyQuote? || d.SellAll?) && r == Request(Runner.SideOf(d), d.action, d.level)
  }

  /**
   What happens to a strategy's position: with nothing pending, a tick reads the rows and sends the order it
   decides on; and a resolved order has no further trades.
   */
  ghost predicate Arises(s: Runner.Terms, d: Desk, e: Event) {
    Possible(d, e) &&
    match e
    case Submitted(script, quantity, look) =>
      && !PendingExecution(d) && (script.filled ==> script.fills != [])
      && exists p, m :: Sent(s, d.book.account, p, m, script.request)
    case Looked(i, look) =>
      i < |d.book.orders| && !Unresolved(d.book.orders[i].status) ==>
        look.seen == d.seen[i] && look.status == d.book.orders[i].status
  }

  /** A position is opened by the initial entry. */
  predicate Opening(script: Script, look: Look) {
    script.request == Request(Buy, InitialEntry, 1) && Looks(script, 0, look) && (script.filled ==> script.fills != [])
  }

  ghost predicate StrategyRun(s: Runner.Terms, d: Desk, events: seq<Event>) {
    PossibleRun(d, events) &&
    (events != [] ==>
      StrategyRun(s, d, events[..|events| - 1]) && Arises(s, Run(d, events[..|events| - 1]), events[|events| - 1]))
  }

  /* ---- Counting orders ---- */

  datatype Kind = Ladder | Recovery

  predicate IsKind(a: Action, k: Kind) {
    match k
    case Ladder => a.DcaEntry? || a.IndependentEntry?
    case Recovery => a.RecoveryEntry?
  }

  predicate Counts(o: Order, k: Kind) {
    o.side.Buy? && IsKind(o.action, k) && o.accounted.quantity > 0.0
  }

  function One(b: bool): nat {
    if b then 1 else 0
  }

  /** How many orders of the kind have filled at all. */
  function FilledOrders(orders: seq<Order>, k: Kind): nat {
    if orders == [] then 0 else FilledOrders(orders[..|orders| - 1], k) + One(Counts(orders[|orders| - 1], k))
  }

  lemma FilledAppend(orders: seq<Order>, o: Order, k: Kind)
    ensures FilledOrders(orders + [o], k) == FilledOrders(orders, k) + One(Counts(o, k))
  {
    assert (orders + [o])[..|orders|] == orders;
  }

  lemma {:induction false} FilledUpdate(orders: seq<Order>, i: nat, o: Order, k: Kind)
    requires i < |orders|
    ensures FilledOrders(orders[i := o], k) == FilledOrders(orders, k) - One(Counts(orders[i], k)) + One(Counts(o, k))
  {
    if i < |orders| - 1 {
      assert orders[i := o][..|orders| - 1] == orders[..|orders| - 1][i := o];
      FilledUpdate(orders[..|orders| - 1], i, o, k);
    } else {
      assert orders[i := o][..i] == orders[..i];
    }
  }

  /* ---- What holds in every run ---- */

  /** Independent levels start at the configured one, and none is above the last ladder level. */
  predicate LevelsBounded(s: Runner.Terms, a: Account) {
    forall level :: level in a.subs ==> s.plan.independentFromLevel <= level <= a.dcaCount + 1
  }

  /** A first fill of the order would be counted the same by the submit and by a sync. */
  predicate Expected(s: Runner.Terms, a: Account, o: Order) {
    match o.action
    case InitialEntry => true
    case RecoveryEntry => true
    case IndependentEntry => o.level == a.dcaCount + 2 && o.level >= s.plan.independentFromLevel
    case DcaEntry => a.parent.quantity > 0.0
    case _ => false
  }

  /** A BUY without a fill is still expected; an independent one with a fill has its row. */
  predicate BuyStands(s: Runner.Terms, a: Account, o: Order) {
    o.side.Buy? ==>
      && (o.accounted.quantity == 0.0 && Unresolved(o.status) ==> Expected(s, a, o))
      && (o.accounted.quantity > 0.0 && o.action.IndependentEntry? ==> o.level in a.subs)
  }

  /** Nothing is held at all: then the last order is an entry that may still fill. */
  predicate HoldsOrWaits(a: Account, orders: seq<Order>) {
    a.open && a.subs == map[] && a.parent.quantity == 0.0 ==>
      orders != [] && var o := orders[|orders| - 1]; o.side.Buy? && o.accounted.quantity == 0.0 && Unresolved(o.status)
  }

  predicate OnlyLastPending(orders: seq<Order>) {
    forall i :: 0 <= i < |orders| - 1 ==> !Unresolved(orders[i].status)
  }

  predicate CountersAgree(a: Account, orders: seq<Order>) {
    a.dcaCount == FilledOrders(orders, Ladder) && a.recoveryDcaCount == FilledOrders(orders, Recovery)
  }

  predicate Inv(s: Runner.Terms, d: Desk) {
    && Tracked(d)
    && (forall i :: 0 <= i < |d.scripts| ==> d.scripts[i].filled ==> d.scripts[i].fills != [])
    && (forall i :: 0 <= i < |d.scripts| ==> StatusTold(d, i))
    && OnlyLastPending(d.book.orders)
    && LevelsBounded(s, d.book.account)
    && (d.book.orders != [] ==> BuyStands(s, d.book.account, d.book.orders[|d.book.orders| - 1]))
    && HoldsOrWaits(d.book.account, d.book.orders)
    && CountersAgree(d.book.account, d.book.orders)
  }

  /** An order that is FILLED has fills. */
  predicate StatusTold(d: Desk, i: nat)
    requires |d.book.orders| == |d.scripts| && i < |d.scripts|
  {
    d.book.orders[i].status.Filled? ==> d.book.orders[i].accounted.quantity > 0.0
  }

  /* ---- What the runner decides ---- */

  lemma DecidesOn(s: Runner.Terms, p: Runner.Position, m: Runner.Market)
    requires Runner.Decide(s, Some(p), m).BuyQuote?
    ensures var d := Runner.Decide(s, Some(p), m);
            d.action.RecoveryEntry?
            || (d.level == p.dcaCount + 2
                && d.action == if d.level >= s.plan.independentFromLevel then IndependentEntry else DcaEntry)
  {
    hide Runner.StopLossHit, Runner.GlobalTarget, Runner.Remaining, Runner.BasketCost, Runner.SellNext, Runner.LegAtTarget,
         Runner.AnchorLeg;
    Runner.SellNextIsSell(p);
  }

  /** With nothing pending, an entry the runner decides on is counted alike on every report path. */
  lemma DecisionsCountAlike(s: Runner.Terms, d: Desk, p: Runner.Position, m: Runner.Market)
    requires Inv(s, d) && d.book.account.open && !PendingExecution(d)
    requires Runner.Reads(p, d.book.account) && Runner.Decide(s, Some(p), m).BuyQuote?
    ensures var b := Runner.Decide(s, Some(p), m);
            && CountsAlike(Some(d.book.account), b.action, b.level)
            && Expected(s, d.book.account, Order(Buy, b.action, b.level, 0.0, NOTHING, Pending))
  {
    DecidesOn(s, p, m);
    hide Runner.Decide;
    var a, b := d.book.account, Runner.Decide(s, Some(p), m);
    if b.action.DcaEntry? {
      assert a.subs == map[] by {
        assert forall level :: level in a.subs ==> level >= s.plan.independentFromLevel > a.dcaCount + 1;
      }
      assert a.parent.quantity > 0.0;
    }
  }

  /* ---- What one booking does ---- */

  lemma SubmitBuyShape(a: Account, action: Action, level: nat, net: Amount)
    requires net.quantity > 0.0
    ensures var x := SubmitBuy(Some(a), action, level, net);
            && x.open == a.open && x.subs.Keys == a.subs.Keys + (if action.IndependentEntry? then {level} else {})
            && (!action.IndependentEntry? ==> x.parent.quantity > 0.0)
  {
    hide BuyLeg;
    assert BuyLeg(a.parent, net).quantity > 0.0 by { BuyAdds(a.parent, net); }
  }

  lemma BuyAdds(l: Leg, bought: Amount)
    ensures BuyLeg(l, bought).quantity == l.quantity + bought.quantity
  {
  }

  lemma SyncBuyShape(a: Account, action: Action, level: nat, accounted: Amount, d: Amount)
    requires d.quantity > 0.0
    ensures var x := SyncBuy(a, action, level, accounted, d);
            && x.open == a.open && x.subs.Keys == a.subs.Keys + (if action.IndependentEntry? then {level} else {})
            && (!action.IndependentEntry? ==> x.parent.quantity > 0.0)
  {
    hide BuyLeg;
    assert BuyLeg(a.parent, d).quantity > 0.0 by { BuyAdds(a.parent, d); }
  }

  /** A sell counts nothing, and as long as the position stays open without sub-positions something is left of the parent. */
  lemma SellFillShape(a: Account, u: Target, sold: Amount, price: real, fullExit: bool)
    requires u.SubLeg? ==> u.level in a.subs
    requires sold.quantity > 0.0
    ensures var x := SellFill(a, u, sold, price, fullExit);
            && x.subs.Keys == a.subs.Keys && CountersOf(x) == CountersOf(a) && (x.open ==> a.open || u.ParentLeg?)
            && (x.open && x.subs == map[] ==> x.parent.quantity > 0.0)
  {
    if a.subs == map[] {
      assert u.ParentLeg? && !HasOpenSub(a);
      LeftWhenOpen(a.parent, sold, price, fullExit);
      hide SellLeg, Closes;
    } else {
      hide SellLeg, Closes, HasOpenSub, HasOtherOpenSub;
    }
  }

  lemma LeftWhenOpen(l: Leg, sold: Amount, price: real, fullExit: bool)
    ensures !Closes(l, sold, fullExit, true) ==> SellLeg(l, sold, price, fullExit, true).quantity > 0.0
  {
    hide Allocated;
  }

  /** A position may only be closed by an empty terminal order; nothing else of it changes. */
  lemma CloseShape(a: Account, pending: bool)
    ensures CloseIfEmpty(a, pending) == a || CloseIfEmpty(a, pending) == a.(open := false)
    ensures !pending && a.subs == map[] && a.parent.quantity <= 0.0 ==> !CloseIfEmpty(a, pending).open
  {
  }

  /* ---- One look at an order ---- */

  /** How an account may follow another when an order goes from o to o2. */
  predicate Follows(s: Runner.Terms, a: Account, a2: Account, o: Order, o2: Order) {
    && LevelsBounded(s, a2)
    && a2.dcaCount == a.dcaCount + One(Counts(o2, Ladder)) - One(Counts(o, Ladder))
    && a2.recoveryDcaCount == a.recoveryDcaCount + One(Counts(o2, Recovery)) - One(Counts(o, Recovery))
  }

  lemma LookedBuy(s: Runner.Terms, a: Account, o: Order, snap: Snapshot)
    requires o.side.Buy? && BuyStands(s, a, o) && LevelsBounded(s, a) && Joint(Delta(o, snap))
    requires Delta(o, snap).quantity > 0.0 ==> Unresolved(o.status)
    ensures var a2 := SyncBuy(a, o.action, o.level, o.accounted, Delta(o, snap));
            && Follows(s, a, a2, o, OrderAfterSync(o, snap)) && BuyStands(s, a2, OrderAfterSync(o, snap).(status := o.status))
            && a2.open == a.open
            && (a2.subs == map[] && a2.parent.quantity == 0.0 ==>
                  OrderAfterSync(o, snap).accounted == o.accounted && a2 == a)
  {
    hide Delta, SyncBuy, Net;
    var d := Delta(o, snap);
    if d.quantity > 0.0 {
      SyncBuyShape(a, o.action, o.level, o.accounted, d);
      SyncBuyCounts(a, Some(a), o.action, o.level, o.accounted, d);
    } else {
      SyncBuyCounts(a, Some(a), o.action, o.level, o.accounted, d);
      assert d == NOTHING;
    }
  }

  /** What a look does to the order it is about, when the exchange keeps to the rules. */
  lemma LookedOrder(s: Runner.Terms, d: Desk, i: nat, look: Look)
    requires Inv(s, d) && Arises(s, d, Looked(i, look))
    ensures i < |d.book.orders| == |d.scripts| == |d.seen|
    ensures var o, snap := d.book.orders[i], Report(d.scripts[i].fills, look);
            var o2 := OrderAfterSync(o, snap);
            && Joint(Delta(o, snap))
            && (Delta(o, snap).quantity > 0.0 ==> Unresolved(o.status))
            && (!Unresolved(o.status) ==> o2.status == o.status)
            && (o2.status.Filled? ==> o2.accounted.quantity > 0.0)
            && o2.side == o.side && o2.action == o.action && o2.level == o.level
            && o2.status == look.status && snap.status == look.status
            && o2.accounted.quantity == o.accounted.quantity + Delta(o, snap).quantity
  {
    assert Tracks(d, i);
    var o, script := d.book.orders[i], d.scripts[i];
    DeltaOfLook(o, script.request, script.fills, d.seen[i], look);
    NetAtNothing(script.fills, script.request.side, look.seen);
    ReportReads(script.fills, look);
    hide Delta, NetAt, Report, Joint, Net;
  }

  /** The account after a look, by side. */
  lemma LookedAccount(d: Desk, i: nat, look: Look)
    requires Tracked(d) && Possible(d, Looked(i, look))
    ensures var o, snap, after := d.book.orders[i], Report(d.scripts[i].fills, look), Step(d, Looked(i, look));
            && after.book.orders == d.book.orders[i := OrderAfterSync(o, snap)]
            && (o.side.Sell? && SellTarget(d.scripts[i].request).SubLeg? ==> o.level in d.book.account.subs)
            && Some(after.book.account) == Synced(d.book.account, o, snap, OrdersPending(after.book.orders))
  {
    assert Tracks(d, i);
    var snap := Report(d.scripts[i].fills, look);
    LookedOrders(d, i, look);
    hide Delta, OrderAfterSync, Synced, Report, OrdersPending;
    TrackedSyncs(d, i, snap, OrdersPending(d.book.orders[i := OrderAfterSync(d.book.orders[i], snap)]));
  }

  /** A look at an entry. */
  lemma LookedEntry(s: Runner.Terms, d: Desk, i: nat, look: Look)
    requires Inv(s, d) && Arises(s, d, Looked(i, look)) && i < |d.book.orders| && d.book.orders[i].side.Buy?
    ensures var o, o2, a, a2 := d.book.orders[i], Step(d, Looked(i, look)).book.orders[i], d.book.account, Step(d, Looked(i, look)).book.account;
            Follows(s, a, a2, o, o2)
    ensures Kept(s, d, Step(d, Looked(i, look)))
  {
    var o, a := d.book.orders[i], d.book.account;
    var snap, after := Report(d.scripts[i].fills, look), Step(d, Looked(i, look));
    var o2 := OrderAfterSync(o, snap);
    LookedOrder(s, d, i, look);
    LookedAccount(d, i, look);
    var a1 := SyncBuy(a, o.action, o.level, o.accounted, Delta(o, snap));
    CloseShape(a1, OrdersPending(after.book.orders));
    if i == |d.book.orders| - 1 {
      LookedBuy(s, a, o, snap);
      hide Delta, SyncBuy, Joint, OrderAfterSync, CloseIfEmpty, OrdersPending, Step, Report, Counts, Tracked;
    } else {
      assert !Unresolved(o.status);
      hide Joint, Step, Report, Tracked, OrdersPending, CloseIfEmpty;
      assert a1 == a;
    }
  }

  /** The clauses about the last order. */
  predicate Kept(s: Runner.Terms, d: Desk, after: Desk) {
    && |after.book.orders| == |d.book.orders|
    && (after.book.orders != [] ==> BuyStands(s, after.book.account, after.book.orders[|after.book.orders| - 1]))
    && HoldsOrWaits(after.book.account, after.book.orders)
  }

  /** A look at an exit. */
  lemma LookedExit(s: Runner.Terms, d: Desk, i: nat, look: Look)
    requires Inv(s, d) && Arises(s, d, Looked(i, look)) && i < |d.book.orders| && d.book.orders[i].side.Sell?
    ensures var o, o2, a, a2 := d.book.orders[i], Step(d, Looked(i, look)).book.orders[i], d.book.account, Step(d, Looked(i, look)).book.account;
            Follows(s, a, a2, o, o2)
    ensures Kept(s, d, Step(d, Looked(i, look)))
  {
    var o, a := d.book.orders[i], d.book.account;
    var snap, after := Report(d.scripts[i].fills, look), Step(d, Looked(i, look));
    LookedOrder(s, d, i, look);
    LookedAccount(d, i, look);
    assert Tracks(d, i);
    var u := TargetOf(Sell, o.action, o.level);
    if Delta(o, snap).quantity > 0.0 {
      assert i == |d.book.orders| - 1;
      SellFillShape(a, u, Delta(o, snap), snap.averagePrice, FullExit(o.action, snap.status));
      hide SellFill, Delta, Joint, OrderAfterSync, OrdersPending, Step, Report, Tracked, Tracks;
    } else {
      hide SellFill, Joint, OrdersPending, Step, Report, Tracked, Tracks;
      assert after.book.account == a;
    }
  }

  /** After a look, whatever side. */
  lemma LookedInv(s: Runner.Terms, d: Desk, i: nat, look: Look)
    requires Inv(s, d) && Arises(s, d, Looked(i, look))
    ensures Inv(s, Step(d, Looked(i, look)))
  {
    var after := Step(d, Looked(i, look));
    StepTracks(d, Looked(i, look));
    LookedOrder(s, d, i, look);
    LookedAccount(d, i, look);
    if d.book.orders[i].side.Buy? { LookedEntry(s, d, i, look); } else { LookedExit(s, d, i, look); }
    hide Step, Synced, Delta, Joint, Tracks, BuyStands, HoldsOrWaits, OrderAfterSync, OrdersPending, Arises, Counts, Report;
    FilledUpdate(d.book.orders, i, after.book.orders[i], Ladder);
    FilledUpdate(d.book.orders, i, after.book.orders[i], Recovery);
    assert after.scripts == d.scripts by { LookedScripts(d, i, look); }
    forall k | 0 <= k < |after.scripts| ensures StatusTold(after, k) {
      if k != i { assert StatusTold(d, k); }
    }
  }

  lemma LookedScripts(d: Desk, i: nat, look: Look)
    requires Possible(d, Looked(i, look))
    ensures Step(d, Looked(i, look)).scripts == d.scripts
  {
  }

  /* ---- A new order ---- */

  /** What a submit leaves, when it is not refused. */
  lemma SubmittedAccount(d: Desk, e: Event)
    requires e.Submitted? && Possible(d, e) && Step(d, e) != d
    ensures var r, snap, after := e.script.request, Report(e.script.fills, e.look), Step(d, e);
            && (r.side.Sell? && Independent(r.side, r.action) ==> r.level in d.book.account.subs)
            && d.book.account.open
            && after.scripts == d.scripts + [e.script]
            && after.book.orders == d.book.orders + [OrderAfterSubmit(r.side, r.action, r.level, snap)]
            && after.book.account == Booked(Some(d.book.account), r.side, r.action, r.level, snap, OrdersPending(d.book.orders))
  {
    SubmittedOrders(d, e);
    hide Booked, OrderAfterSubmit, Report, OrdersPending;
  }

  /** The account after the first report of an entry the runner has decided on. */
  lemma SubmittedEntry(s: Runner.Terms, a: Account, r: Request, snap: Snapshot)
    requires r.side.Buy? && a.open && CountsAlike(Some(a), r.action, r.level)
    requires Expected(s, a, Order(Buy, r.action, r.level, 0.0, NOTHING, Pending)) && !r.action.InitialEntry?
    requires LevelsBounded(s, a) && Joint(Net(snap.gross, Buy, snap.fills))
    requires a.subs == map[] ==> a.parent.quantity > 0.0
    ensures var o, a2 := OrderAfterSubmit(Buy, r.action, r.level, snap), Booked(Some(a), Buy, r.action, r.level, snap, false);
            && LevelsBounded(s, a2) && BuyStands(s, a2, o) && HoldsOrWaits(a2, [o])
            && a2.dcaCount == a.dcaCount + One(Counts(o, Ladder)) && a2.recoveryDcaCount == a.recoveryDcaCount + One(Counts(o, Recovery))
  {
    hide SubmitBuy, Net;
    var net := Net(snap.gross, Buy, snap.fills);
    SubmitBuyCounts(Some(a), r.action, r.level, net);
    CloseShape(SubmitBuy(Some(a), r.action, r.level, net), false);
    if net.quantity > 0.0 {
      SubmitBuyShape(a, r.action, r.level, net);
      AlikeExactly(Some(a), r.action, r.level);
      AdvancesOnce(a, r.action, r.level);
    }
    hide CloseIfEmpty, SubmitCounters, SyncCounters, Joint;
  }

  lemma SubmittedExit(s: Runner.Terms, a: Account, r: Request, snap: Snapshot)
    requires r.side.Sell? && LevelsBounded(s, a) && (Independent(Sell, r.action) ==> r.level in a.subs)
    requires Joint(Net(snap.gross, Sell, snap.fills)) && (a.subs == map[] ==> a.parent.quantity > 0.0)
    ensures var o, a2 := OrderAfterSubmit(Sell, r.action, r.level, snap), Booked(Some(a), Sell, r.action, r.level, snap, false);
            && LevelsBounded(s, a2) && HoldsOrWaits(a2, [o])
            && a2.dcaCount == a.dcaCount && a2.recoveryDcaCount == a.recoveryDcaCount
  {
    hide SellFill, Net;
    var net := Net(snap.gross, Sell, snap.fills);
    if net.quantity > 0.0 {
      SellFillShape(a, TargetOf(Sell, r.action, r.level), net, snap.averagePrice, FullExit(r.action, snap.status));
    } else {
      assert net == NOTHING;
      SellNothing(a, TargetOf(Sell, r.action, r.level), snap.averagePrice, FullExit(r.action, snap.status));
    }
  }

  /** An entry that is sent is one the counters agree on. */
  lemma SentEntry(s: Runner.Terms, d: Desk, r: Request, p: Runner.Position, m: Runner.Market)
    requires Inv(s, d) && d.book.account.open && !PendingExecution(d) && Sent(s, d.book.account, p, m, r) && r.side.Buy?
    ensures CountsAlike(Some(d.book.account), r.action, r.level) && !r.action.InitialEntry?
    ensures Expected(s, d.book.account, Order(Buy, r.action, r.level, 0.0, NOTHING, Pending))
  {
    DecisionsCountAlike(s, d, p, m);
    DecidesOn(s, p, m);
    hide Runner.Decide, Runner.Reads, Inv, Expected, CountsAlike;
  }

  /** With nothing pending an open position holds something. */
  lemma HoldsSomething(s: Runner.Terms, d: Desk)
    requires Inv(s, d) && d.book.account.open && !PendingExecution(d)
    ensures !OrdersPending(d.book.orders)
    ensures d.book.account.subs == map[] ==> d.book.account.parent.quantity > 0.0
  {
  }

  /** The account and the new order. */
  lemma SubmittedParts(s: Runner.Terms, d: Desk, e: Event)
    requires Inv(s, d) && e.Submitted? && Arises(s, d, e) && Step(d, e) != d
    ensures var o, a, a2 := Step(d, e).book.orders[|d.book.orders|], d.book.account, Step(d, e).book.account;
            && LevelsBounded(s, a2) && BuyStands(s, a2, o) && HoldsOrWaits(a2, [o])
            && a2.dcaCount == a.dcaCount + One(Counts(o, Ladder)) && a2.recoveryDcaCount == a.recoveryDcaCount + One(Counts(o, Recovery))
    ensures Step(d, e).book.orders[|d.book.orders|].status.Filled? ==> Step(d, e).book.orders[|d.book.orders|].accounted.quantity > 0.0
  {
    var script, look := e.script, e.look;
    var r, snap, a := script.request, Report(script.fills, look), d.book.account;
    SubmittedAccount(d, e);
    SubmitSaw(script, look);
    NetAtNothing(script.fills, r.side, look.seen);
    ReportReads(script.fills, look);
    HoldsSomething(s, d);
    var p, m :| Sent(s, a, p, m, r);
    hide Step, Booked, Joint, Tracked, Report, NetAt, Net, Expected, CountsAlike, Sent;
    if r.side.Buy? {
      SentEntry(s, d, r, p, m);
      SubmittedEntry(s, a, r, snap);
    } else {
      SubmittedExit(s, a, r, snap);
    }
  }

  lemma SubmittedInv(s: Runner.Terms, d: Desk, e: Event)
    requires Inv(s, d) && e.Submitted? && Arises(s, d, e)
    ensures Inv(s, Step(d, e))
  {
    hide Booked, Joint, Tracks, Report, Runner.Reads, Sent, LevelsBounded, BuyStands, OrderAfterSubmit, Runs.Apply;
    var after := Step(d, e);
    StepTracks(d, e);
    if after != d {
      SubmittedAccount(d, e);
      SubmittedParts(s, d, e);
      hide Step;
      var o := after.book.orders[|d.book.orders|];
      FilledAppend(d.book.orders, o, Ladder);
      FilledAppend(d.book.orders, o, Recovery);
      forall k | 0 <= k < |after.scripts| ensures StatusTold(after, k) {
        if k < |d.scripts| { assert StatusTold(d, k); }
      }
    }
  }

  lemma NewDeskInv(s: Runner.Terms, script: Script, look: Look)
    requires Opening(script, look)
    ensures Inv(s, NewDesk(script, look))
  {
    var d := NewDesk(script, look);
    var snap := Report(script.fills, look);
    NewDeskTracked(script, look);
    SubmitSaw(script, look);
    NetAtNothing(script.fills, Buy, look.seen);
    ReportReads(script.fills, look);
    hide Tracked, Report, NetAt, Net, Joint, Conserved;
    OpenedParts(s, snap);
    assert d.book == Open(InitialEntry, 1, snap) && d.scripts == [script];
    hide Open, NewDesk, Looks, OrderAfterSubmit, BuyStands, HoldsOrWaits, CountersAgree;
  }

  /** The account that an initial entry opens, or closes again when it has ended without a fill. */
  lemma OpenedParts(s: Runner.Terms, snap: Snapshot)
    requires Joint(Net(snap.gross, Buy, snap.fills)) && (snap.status.Filled? ==> Net(snap.gross, Buy, snap.fills).quantity > 0.0)
    ensures var b := Open(InitialEntry, 1, snap);
            && |b.orders| == 1 && b.account.subs == map[]
            && BuyStands(s, b.account, b.orders[0]) && HoldsOrWaits(b.account, b.orders) && CountersAgree(b.account, b.orders)
            && (b.orders[0].status.Filled? ==> b.orders[0].accounted.quantity > 0.0)
  {
    hide Net;
    var o := Open(InitialEntry, 1, snap).orders[0];
    FilledAppend([], o, Ladder);
    FilledAppend([], o, Recovery);
    assert [] + [o] == Open(InitialEntry, 1, snap).orders;
  }

  /* ---- The theorem ---- */

  /**
   Over every run of a strategy's ticks and of reports of its orders, in which each fill may be seen by the
   submit or by any later sync: `dcaCount` is the number of ladder orders with a fill, and
   `recoveryDcaCount` the number of recovery orders with one.
   */
  lemma {:induction false} EntriesCountOnce(s: Runner.Terms, script: Script, look: Look, events: seq<Event>)
    requires Opening(script, look) && StrategyRun(s, NewDesk(script, look), events)
    ensures Inv(s, Run(NewDesk(script, look), events))
    ensures CountersAgree(Run(NewDesk(script, look), events).book.account, Run(NewDesk(script, look), events).book.orders)
  {
    if events == [] {
      NewDeskInv(s, script, look);
    } else {
      var before, e := events[..|events| - 1], events[|events| - 1];
      EntriesCountOnce(s, script, look, before);
      var d := Run(NewDesk(script, look), before);
      hide NewDesk, Step, Opening, Possible;
      match e
      case Submitted(_, _, _) => SubmittedInv(s, d, e);
      case Looked(i, l) => LookedInv(s, d, i, l);
    }
  }
}
