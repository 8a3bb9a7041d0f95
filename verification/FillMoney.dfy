/**
 The account at the exchange. Every trade moves coins and money on it, and
 takes its commission in one asset; this file sums those movements trade by
 trade and shows that the books hold exactly what the account has gained and
 given up.
 */
module FillMoney {
  import opened Reals
  import opened FillAccounting
  import opened FillPaths
  import opened FillScripts

  /** A change of the exchange account: coins of the base asset, and money in the quote asset. */
  datatype Change = Change(coins: real, money: real)

  /** One trade: the coins change hands for the money, and a commission is taken from the asset it is charged in. */
  function TradeOn(c: Change, side: Side, f: Fill): Change {
    var traded := if side.Buy? then Change(c.coins + f.quantity, c.money - f.quote) else Change(c.coins - f.quantity, c.money + f.quote);
    if f.commission <= 0.0 then traded
    else match f.asset
      case BaseAsset => traded.(coins := traded.coins - f.commission)
      case QuoteAsset => traded.(money := traded.money - f.commission)
      case OtherAsset => traded
  }

  /** What a list of trades has done to the account. */
  function AfterTrades(side: Side, fills: seq<Fill>): Change {
    if fills == [] then Change(0.0, 0.0) else TradeOn(AfterTrades(side, fills[..|fills| - 1]), side, fills[|fills| - 1])
  }

  /** The same change, as amounts that an order books. */
  predicate Books(a: Amount, side: Side, c: Change) {
    match side
    case Buy => a.quantity == c.coins && a.quote == -c.money
    case Sell => a.quantity == -c.coins && a.quote == c.money
  }

  /** Trade by trade, before anything is cut off at zero. */
  lemma {:induction false} TradesAddUp(side: Side, fills: seq<Fill>)
    ensures var c := AfterTrades(side, fills);
            && c.coins == (if side.Buy? then Quantity(fills) else -Quantity(fills)) - Commissions(fills, BaseAsset)
            && c.money == (if side.Buy? then -Quote(fills) else Quote(fills)) - Commissions(fills, QuoteAsset)
  {
    if fills != [] { TradesAddUp(side, fills[..|fills| - 1]); }
  }

  /** The net amount of the trades seen is the change of the account. */
  lemma NetIsTheChange(fills: Fills, side: Side, k: nat)
    requires k <= |fills|
    ensures Books(NetAt(fills, side, k), side, AfterTrades(side, fills[..k]))
  {
    TradesAddUp(side, fills[..k]);
    GrossCovers(fills[..k]);
  }

  /** What the first k orders have done to the account on behalf of a leg. */
  function AfterOrders(scripts: seq<Script>, seen: seq<nat>, t: Target, k: nat): Change
    requires k <= |scripts| == |seen| && forall i :: 0 <= i < |scripts| ==> seen[i] <= |scripts[i].fills|
  {
    if k == 0 then Change(0.0, 0.0)
    else
      var c, r := AfterOrders(scripts, seen, t, k - 1), scripts[k - 1].request;
      var d := AfterTrades(r.side, scripts[k - 1].fills[..seen[k - 1]]);
      if t == TargetOf(r.side, r.action, r.level) then Change(c.coins + d.coins, c.money + d.money) else c
  }

  predicate Readable(d: Desk) {
    |d.book.orders| == |d.scripts| == |d.seen| && forall i :: 0 <= i < |d.scripts| ==> d.seen[i] <= |d.scripts[i].fills|
  }

  function OnAccount(d: Desk, t: Target): Change
    requires Readable(d)
  {
    AfterOrders(d.scripts, d.seen, t, |d.scripts|)
  }

  /* ---- Money ---- */

  lemma TrackedReadable(d: Desk)
    requires Tracked(d)
    ensures Readable(d)
  {
    hide OrderSaw;
    forall k | 0 <= k < |d.scripts| ensures d.seen[k] <= |d.scripts[k].fills| { assert Tracks(d, k); }
  }

  lemma OrderBooksItsTrades(d: Desk, i: nat)
    requires Tracked(d) && i < |d.scripts|
    ensures Readable(d)
    ensures var r := d.scripts[i].request; Books(d.book.orders[i].accounted, r.side, AfterTrades(r.side, d.scripts[i].fills[..d.seen[i]]))
  {
    hide NetAt, AfterTrades, Books, Quantity;
    TrackedReadable(d);
    assert Tracks(d, i);
    NetIsTheChange(d.scripts[i].fills, d.scripts[i].request.side, d.seen[i]);
  }

  lemma {:induction false} FlowIsMoney(d: Desk, t: Target, k: nat)
    requires Tracked(d) && k <= |d.scripts| && Readable(d)
    ensures Flow(d.book.orders[..k], t) == AfterOrders(d.scripts, d.seen, t, k).money
  {
    hide AfterTrades, NetAt, Tracked, Quantity;
    if k > 0 {
      FlowIsMoney(d, t, k - 1);
      OrderBooksItsTrades(d, k - 1);
      OrderIsRequested(d, k - 1);
      assert d.book.orders[..k][..k - 1] == d.book.orders[..k - 1];
    }
  }

  lemma OrderIsRequested(d: Desk, i: nat)
    requires Tracked(d) && i < |d.scripts|
    ensures var o, r := d.book.orders[i], d.scripts[i].request; o.side == r.side && o.action == r.action && o.level == r.level
  {
    hide NetAt, Quantity;
    assert Tracks(d, i);
  }

  /** After any run of looks, an order has booked exactly what its visible trades have done to the account. */
  lemma OrdersBookTheirTrades(s: Script, look: Look, events: seq<Event>, i: nat)
    requires s.request.side.Buy? && Looks(s, 0, look) && PossibleRun(NewDesk(s, look), events)
    requires i < |Run(NewDesk(s, look), events).book.orders|
    ensures var d := Run(NewDesk(s, look), events);
            && Readable(d)
            && var r := d.scripts[i].request;
               Books(d.book.orders[i].accounted, r.side, AfterTrades(r.side, d.scripts[i].fills[..d.seen[i]]))
  {
    LooksConserve(s, look, events);
    hide Run, NewDesk, Conserved;
    OrderBooksItsTrades(Run(NewDesk(s, look), events), i);
  }

  /**
   After any run of looks, for every leg: realised profit less the cost still held, and less the cost that dust
   closes dropped, is the money the account has received less the money it has paid, commissions included.
   */
  lemma ProfitIsMoney(s: Script, look: Look, events: seq<Event>, t: Target)
    requires s.request.side.Buy? && Looks(s, 0, look) && PossibleRun(NewDesk(s, look), events)
    ensures var d := Run(NewDesk(s, look), events);
            && Readable(d)
            && var leg := LegOf(d.book.account, t); leg.realized - leg.cost - leg.dropped == OnAccount(d, t).money
  {
    LooksConserve(s, look, events);
    var d := Run(NewDesk(s, look), events);
    hide Run, NewDesk, Flow, AfterOrders, Tracked, LegOf;
    TrackedReadable(d);
    FlowIsMoney(d, t, |d.scripts|);
    assert |d.book.orders| == |d.scripts|;
    assert d.book.orders[..|d.scripts|] == d.book.orders;
  }

  /** A leg that is out of the market has earned what the account really gained on it, plus the cost dust closes dropped. */
  lemma ExitedLegEarned(s: Script, look: Look, events: seq<Event>, t: Target)
    requires s.request.side.Buy? && Looks(s, 0, look) && PossibleRun(NewDesk(s, look), events)
    ensures var d := Run(NewDesk(s, look), events);
            && Readable(d)
            && var leg := LegOf(d.book.account, t); leg.cost == 0.0 ==> leg.realized == OnAccount(d, t).money + leg.dropped
  {
    ProfitIsMoney(s, look, events, t);
  }

  /* ---- Coins ---- */

  ghost predicate CoinsAgree(d: Desk, t: Target) {
    Readable(d) && LegOf(d.book.account, t).quantity == OnAccount(d, t).coins
  }

  /** The request that an event is about. */
  function RequestOf(d: Desk, e: Event): Request
    requires Possible(d, e)
  {
    match e
    case Submitted(s, quantity, look) => s.request
    case Looked(i, look) => d.scripts[i].request
  }

  /** The coins that leave the account with the trades an event makes visible. */
  function Leaving(d: Desk, e: Event): real
    requires Possible(d, e) && Readable(d)
  {
    match e
    case Submitted(s, quantity, look) => -AfterTrades(Sell, s.fills[..look.seen]).coins
    case Looked(i, look) => AfterTrades(Sell, d.scripts[i].fills[..d.seen[i]]).coins - AfterTrades(Sell, d.scripts[i].fills[..look.seen]).coins
  }

  /**
   A sell after which the leg's books differ from the account: it sold more than the leg held; or it was executed
   in full, or left no more than dust on a leg that may close, without selling all the leg held.
   */
  predicate WritesOff(d: Desk, e: Event, t: Target)
    requires Possible(d, e) && Readable(d)
  {
    var r, held, sold := RequestOf(d, e), LegOf(d.book.account, t).quantity, Leaving(d, e);
    var executed := (r.action.ParentExit? || r.action.IndependentExit?) && e.look.status.Filled?;
    var mayClose := t.SubLeg? || forall level :: level in d.book.account.subs ==> !d.book.account.subs[level].open;
    && r.side.Sell? && t == SellTarget(r) && sold > 0.0 && sold != held
    && (sold > held || executed || (held - sold <= DUST && mayClose))
  }

  lemma SellTakes(l: Leg, sold: Amount, price: real, fullExit: bool, mayClose: bool)
    ensures SellLeg(l, sold, price, fullExit, mayClose).quantity == l.quantity - sold.quantity <==>
              sold.quantity == l.quantity || !(sold.quantity > l.quantity || fullExit || (l.quantity - sold.quantity <= DUST && mayClose))
  {
    hide Allocated;
  }

  lemma {:induction false} LookedOrdersChange(scripts: seq<Script>, seen: seq<nat>, t: Target, i: nat, n: nat, k: nat)
    requires k <= |scripts| == |seen| && forall j :: 0 <= j < |scripts| ==> seen[j] <= |scripts[j].fills|
    requires i < |scripts| && n <= |scripts[i].fills|
    ensures var r := scripts[i].request;
            AfterOrders(scripts, seen[i := n], t, k).coins
            == AfterOrders(scripts, seen, t, k).coins
               + (if i < k && t == TargetOf(r.side, r.action, r.level)
                  then AfterTrades(r.side, scripts[i].fills[..n]).coins - AfterTrades(r.side, scripts[i].fills[..seen[i]]).coins else 0.0)
  {
    hide AfterTrades;
    if k > 0 { LookedOrdersChange(scripts, seen, t, i, n, k - 1); }
  }

  lemma {:induction false} EarlierOrdersStay(scripts: seq<Script>, seen: seq<nat>, t: Target, s: Script, n: nat, k: nat)
    requires k <= |scripts| == |seen| && n <= |s.fills| && forall j :: 0 <= j < |scripts| ==> seen[j] <= |scripts[j].fills|
    ensures AfterOrders(scripts + [s], seen + [n], t, k) == AfterOrders(scripts, seen, t, k)
  {
    hide AfterTrades;
    if k > 0 { EarlierOrdersStay(scripts, seen, t, s, n, k - 1); }
  }

  /** What one booking does to the quantity of a leg. */
  function QuantityAfter(a: Account, r: Request, booked: Amount, price: real, full: bool, t: Target): real {
    var held := LegOf(a, t).quantity;
    if t != TargetOf(r.side, r.action, r.level) || booked.quantity <= 0.0 then held
    else if r.side.Buy? then held + booked.quantity
    else SellLeg(LegOf(a, t), booked, price, full, MayClose(a, t)).quantity
  }

  lemma LookedQuantity(d: Desk, i: nat, look: Look, t: Target)
    requires Tracked(d) && Possible(d, Looked(i, look))
    ensures var o, snap := d.book.orders[i], Report(d.scripts[i].fills, look);
            LegOf(Step(d, Looked(i, look)).book.account, t).quantity
            == QuantityAfter(d.book.account, d.scripts[i].request, Delta(o, snap), snap.averagePrice, FullExit(o.action, look.status), t)
  {
    hide Delta, SellFill, SyncBuy, SellLeg, Quantity, CloseIfEmpty, NetAt, LegOf, MayClose;
    var a, o, snap := d.book.account, d.book.orders[i], Report(d.scripts[i].fills, look);
    var orders := d.book.orders[i := OrderAfterSync(o, snap)];
    assert Tracks(d, i);
    DeltaOfLook(o, d.scripts[i].request, d.scripts[i].fills, d.seen[i], look);
    TrackedSyncs(d, i, snap, OrdersPending(orders));
    OrderIsRequested(d, i);
    var delta := Delta(o, snap);
    if o.side.Buy? {
      SyncBuyLegs(a, o.action, o.level, o.accounted, delta, t);
      CloseIfEmptyMoves(SyncBuy(a, o.action, o.level, o.accounted, delta), OrdersPending(orders), t);
    } else if delta.quantity > 0.0 {
      SellMoves(a, TargetOf(Sell, o.action, o.level), delta, snap.averagePrice, FullExit(o.action, snap.status), t);
    }
    hide OrdersPending, OrderAfterSync, OrderSaw, Joint;
  }

  lemma SubmittedQuantity(d: Desk, e: Event, t: Target)
    requires e.Submitted? && Possible(d, e) && Step(d, e) != d
    ensures var r, snap := e.script.request, Report(e.script.fills, e.look);
            LegOf(Step(d, e).book.account, t).quantity
            == QuantityAfter(d.book.account, r, Net(snap.gross, r.side, snap.fills), snap.averagePrice, FullExit(r.action, e.look.status), t)
  {
    hide SellFill, SubmitBuy, SellLeg, Quantity, CloseIfEmpty, NetAt, LegOf, MayClose, OrderAfterSubmit, OrdersPending, Net;
    var a, r, snap := d.book.account, e.script.request, Report(e.script.fills, e.look);
    SubmittedOrders(d, e);
    SubmitSaw(e.script, e.look);
    var net := Net(snap.gross, r.side, snap.fills);
    if r.side.Buy? {
      BookedBuyMoves(Some(a), r.action, r.level, snap, OrdersPending(d.book.orders), t);
    } else if net.quantity > 0.0 {
      SellMoves(a, TargetOf(Sell, r.action, r.level), net, snap.averagePrice, FullExit(r.action, snap.status), t);
    } else {
      assert net == NOTHING;
      SellNothing(a, TargetOf(Sell, r.action, r.level), snap.averagePrice, FullExit(r.action, snap.status));
    }
  }

  /** A booking keeps a leg's quantity in step with the account unless it writes something off. */
  lemma BookingKeeps(a: Account, r: Request, booked: Amount, price: real, full: bool, t: Target, coins: real)
    requires LegOf(a, t).quantity == coins
    ensures var held := LegOf(a, t).quantity;
            QuantityAfter(a, r, booked, price, full, t)
              == (if t == TargetOf(r.side, r.action, r.level) then coins + (if r.side.Buy? then booked.quantity else -booked.quantity) else coins)
            <==> !(r.side.Sell? && t == SellTarget(r) && booked.quantity > 0.0 && booked.quantity != held
                   && (booked.quantity > held || full || (held - booked.quantity <= DUST && MayClose(a, t))))
  {
    hide SellLeg, MayClose, LegOf;
    SellTakes(LegOf(a, t), booked, price, full, MayClose(a, t));
  }

  lemma LookedBooks(d: Desk, i: nat, look: Look)
    requires Tracked(d) && Possible(d, Looked(i, look)) && Readable(d)
    ensures var r, f := d.scripts[i].request, d.scripts[i].fills;
            && Books(Delta(d.book.orders[i], Report(f, look)), r.side,
                     Change(AfterTrades(r.side, f[..look.seen]).coins - AfterTrades(r.side, f[..d.seen[i]]).coins,
                            AfterTrades(r.side, f[..look.seen]).money - AfterTrades(r.side, f[..d.seen[i]]).money))
  {
    hide NetAt, AfterTrades, Quantity, Delta;
    assert Tracks(d, i);
    DeltaOfLook(d.book.orders[i], d.scripts[i].request, d.scripts[i].fills, d.seen[i], look);
    NetIsTheChange(d.scripts[i].fills, d.scripts[i].request.side, look.seen);
    NetIsTheChange(d.scripts[i].fills, d.scripts[i].request.side, d.seen[i]);
  }

  lemma LookedCoins(d: Desk, i: nat, look: Look, t: Target)
    requires Tracked(d) && Possible(d, Looked(i, look)) && CoinsAgree(d, t)
    ensures CoinsAgree(Step(d, Looked(i, look)), t) <==> !WritesOff(d, Looked(i, look), t)
  {
    hide AfterTrades, Delta, LegOf, Tracked, AfterOrders, Report, QuantityAfter;
    var e, r := Looked(i, look), d.scripts[i].request;
    var after := Step(d, e);
    LookedReadable(d, i, look);
    LookedQuantity(d, i, look, t);
    LookedBooks(d, i, look);
    LookedOrdersChange(d.scripts, d.seen, t, i, look.seen, |d.scripts|);
    var o, snap := d.book.orders[i], Report(d.scripts[i].fills, look);
    OrderIsRequested(d, i);
    BookingKeeps(d.book.account, r, Delta(o, snap), snap.averagePrice, FullExit(o.action, look.status), t, OnAccount(d, t).coins);
    hide Step;
    assert r.side.Sell? ==> Leaving(d, e) == Delta(o, snap).quantity;
  }

  lemma LookedReadable(d: Desk, i: nat, look: Look)
    requires Tracked(d) && Possible(d, Looked(i, look)) && Readable(d)
    ensures var after := Step(d, Looked(i, look));
            Readable(after) && after.scripts == d.scripts && after.seen == d.seen[i := look.seen]
  {
    LookedOrders(d, i, look);
    hide OrderAfterSync, Tracked;
  }

  lemma SubmittedReadable(d: Desk, e: Event)
    requires e.Submitted? && Possible(d, e) && Step(d, e) != d && Readable(d)
    ensures var after := Step(d, e);
            Readable(after) && after.scripts == d.scripts + [e.script] && after.seen == d.seen + [e.look.seen]
  {
    SubmittedOrders(d, e);
    hide OrderAfterSubmit;
  }

  lemma SubmittedBooks(e: Event)
    requires e.Submitted? && Looks(e.script, 0, e.look)
    ensures var r, snap := e.script.request, Report(e.script.fills, e.look);
            Books(Net(snap.gross, r.side, snap.fills), r.side, AfterTrades(r.side, e.script.fills[..e.look.seen]))
  {
    NetIsTheChange(e.script.fills, e.script.request.side, e.look.seen);
  }

  lemma SubmittedCoins(d: Desk, e: Event, t: Target)
    requires e.Submitted? && Possible(d, e) && Step(d, e) != d && CoinsAgree(d, t)
    ensures CoinsAgree(Step(d, e), t) <==> !WritesOff(d, e, t)
  {
    hide AfterTrades, Net, LegOf, AfterOrders, Report, QuantityAfter;
    var r, snap, after := e.script.request, Report(e.script.fills, e.look), Step(d, e);
    SubmittedReadable(d, e);
    SubmittedQuantity(d, e, t);
    SubmittedBooks(e);
    EarlierOrdersStay(d.scripts, d.seen, t, e.script, e.look.seen, |d.scripts|);
    LastOrder(d.scripts, d.seen, t, e.script, e.look.seen);
    BookingKeeps(d.book.account, r, Net(snap.gross, r.side, snap.fills), snap.averagePrice, FullExit(r.action, e.look.status), t, OnAccount(d, t).coins);
    hide Step;
    assert r.side.Sell? ==> Leaving(d, e) == Net(snap.gross, r.side, snap.fills).quantity;
  }

  lemma LastOrder(scripts: seq<Script>, seen: seq<nat>, t: Target, s: Script, n: nat)
    requires |scripts| == |seen| && n <= |s.fills| && forall j :: 0 <= j < |scripts| ==> seen[j] <= |scripts[j].fills|
    ensures var r := s.request;
            AfterOrders(scripts + [s], seen + [n], t, |scripts| + 1).coins
            == AfterOrders(scripts + [s], seen + [n], t, |scripts|).coins
               + (if t == TargetOf(r.side, r.action, r.level) then AfterTrades(r.side, s.fills[..n]).coins else 0.0)
  {
  }

  /** A step keeps a leg's coins equal to those the account has gained on it if and only if it writes nothing off. */
  lemma StepKeepsCoinsExactly(d: Desk, e: Event, t: Target)
    requires Tracked(d) && Possible(d, e) && CoinsAgree(d, t)
    ensures CoinsAgree(Step(d, e), t) <==> Step(d, e) == d || !WritesOff(d, e, t)
  {
    hide Step, WritesOff, CoinsAgree, Tracked;
    match e
    case Submitted(_, _, _) => if Step(d, e) != d { SubmittedCoins(d, e, t); }
    case Looked(i, look) => LookedCoins(d, i, look, t);
  }

  lemma NewDeskCoins(s: Script, look: Look, t: Target)
    requires s.request.side.Buy? && Looks(s, 0, look)
    ensures CoinsAgree(NewDesk(s, look), t)
  {
    hide AfterTrades, Net, LegOf, Report, CloseIfEmpty, SubmitBuy;
    var snap, d := Report(s.fills, look), NewDesk(s, look);
    SubmitSaw(s, look);
    NetIsTheChange(s.fills, Buy, look.seen);
    BookedBuyMoves(None, s.request.action, s.request.level, snap, false, t);
    EarlierOrdersStay([], [], t, s, look.seen, 0);
    LastOrder([], [], t, s, look.seen);
    assert [] + [s] == [s] && [] + [look.seen] == [look.seen];
    ReportIs(s.fills, look);
    hide Booked, NetAt;
  }

  lemma ReportIs(fills: Fills, look: Look)
    requires look.seen <= |fills|
    ensures var snap := Report(fills, look); Net(snap.gross, Buy, snap.fills) == NetAt(fills, Buy, look.seen)
  {
  }

  ghost predicate CoinsAgreeThroughout(d: Desk, events: seq<Event>, t: Target)
    requires PossibleRun(d, events)
  {
    CoinsAgree(Run(d, events), t) && (events != [] ==> CoinsAgreeThroughout(d, events[..|events| - 1], t))
  }

  ghost predicate NeverWritesOff(d: Desk, events: seq<Event>, t: Target)
    requires PossibleRun(d, events)
  {
    events != [] ==>
      var before, e := Run(d, events[..|events| - 1]), events[|events| - 1];
      NeverWritesOff(d, events[..|events| - 1], t) && (Step(before, e) == before || (Readable(before) && !WritesOff(before, e, t)))
  }

  /**
   Over any run of looks the books of a leg hold exactly the coins that the account has gained on it, throughout,
   if and only if no sell writes anything off.
   */
  lemma {:induction false} CoinsKeptExactly(s: Script, look: Look, events: seq<Event>, t: Target)
    requires s.request.side.Buy? && Looks(s, 0, look) && PossibleRun(NewDesk(s, look), events)
    ensures CoinsAgreeThroughout(NewDesk(s, look), events, t) <==> NeverWritesOff(NewDesk(s, look), events, t)
  {
    if events == [] {
      NewDeskCoins(s, look, t);
    } else {
      var before, e := events[..|events| - 1], events[|events| - 1];
      CoinsKeptExactly(s, look, before, t);
      LooksConserve(s, look, before);
      hide NewDesk, Step, Tracked, WritesOff, Possible, Conserved;
      var d := Run(NewDesk(s, look), before);
      TrackedReadable(d);
      if CoinsAgreeThroughout(NewDesk(s, look), before, t) {
        ThroughoutIsNow(NewDesk(s, look), before, t);
        hide CoinsAgree;
        StepKeepsCoinsExactly(d, e, t);
      }
    }
  }

  lemma ThroughoutIsNow(d: Desk, events: seq<Event>, t: Target)
    requires PossibleRun(d, events) && CoinsAgreeThroughout(d, events, t)
    ensures CoinsAgree(Run(d, events), t)
  {
  }
}
