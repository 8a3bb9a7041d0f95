/** What every run of submits and syncs on one position keeps. */
module FillRuns {
  import opened Reals
  import opened FillAccounting

  datatype Event =
    | SubmitEvent(side: Side, action: Action, level: nat, quantity: real, snap: Snapshot)
    | SyncEvent(index: nat, snap: Snapshot)

  function Apply(b: Book, e: Event): Book {
    match e
    case SubmitEvent(side, action, level, quantity, snap) => Submit(b, side, action, level, quantity, snap)
    case SyncEvent(index, snap) => if index < |b.orders| then Sync(b, index, snap) else b
  }

  function Run(b: Book, events: seq<Event>): Book {
    if events == [] then b else Apply(Run(b, events[..|events| - 1]), events[|events| - 1])
  }

  /** The exchange reports quantity and quote growing together. */
  predicate JointEvent(b: Book, e: Event) {
    match e
    case SubmitEvent(side, action, level, quantity, snap) => Joint(Net(snap.gross, side, snap.fills))
    case SyncEvent(index, snap) => index < |b.orders| ==> Joint(Delta(b.orders[index], snap))
  }

  predicate JointRun(b: Book, events: seq<Event>) {
    events != [] ==>
      JointRun(b, events[..|events| - 1]) && JointEvent(Run(b, events[..|events| - 1]), events[|events| - 1])
  }

  lemma ApplyConserves(b: Book, e: Event)
    requires Conserved(b) && JointEvent(b, e)
    ensures Conserved(Apply(b, e))
  {
    hide Submit, Sync, Conserved, Joint, Net, Delta;
    match e
    case SubmitEvent(side, action, level, quantity, snap) => SubmitConserves(b, side, action, level, quantity, snap);
    case SyncEvent(index, snap) => if index < |b.orders| { SyncConserves(b, index, snap); }
  }

  /** However submits and syncs of any number of orders interleave, no leg's cost basis leaks. */
  lemma {:induction false} RunConserves(b: Book, events: seq<Event>)
    requires Conserved(b) && JointRun(b, events)
    ensures Conserved(Run(b, events))
  {
    hide Apply, JointEvent, Conserved;
    if events != [] {
      RunConserves(b, events[..|events| - 1]);
      ApplyConserves(Run(b, events[..|events| - 1]), events[|events| - 1]);
    }
  }

  /** A leg that holds nothing any more has realised its sells less its buys, up to the dust it dropped. */
  lemma ExitedLegRealized(action: Action, level: nat, snap: Snapshot, events: seq<Event>, t: Target)
    requires Joint(Net(snap.gross, Buy, snap.fills)) && JointRun(Open(action, level, snap), events)
    ensures var b := Run(Open(action, level, snap), events);
            var leg := LegOf(b.account, t);
            leg.cost == 0.0 ==> leg.realized == Flow(b.orders, t) + leg.dropped
  {
    OpenConserves(action, level, snap);
    RunConserves(Open(action, level, snap), events);
    var b := Run(Open(action, level, snap), events);
    assert Balance(LegOf(b.account, t)) == Flow(b.orders, t);
  }

  /* ---- An empty leg costs nothing ---- */

  predicate SoundLeg(l: Leg) {
    l.quantity == 0.0 ==> l.cost == 0.0
  }

  lemma SyncedSound(a: Account, o: Order, snap: Snapshot, pending: bool, t: Target)
    requires Joint(Delta(o, snap)) && Synced(a, o, snap, pending).Some? && SoundLeg(LegOf(a, t))
    ensures SoundLeg(LegOf(Synced(a, o, snap, pending).value, t))
  {
    var d := Delta(o, snap);
    if d.quantity > 0.0 {
      if o.side.Buy? {
        SyncBuyMoves(a, o.action, o.level, o.accounted, d, t);
      } else {
        SellMoves(a, TargetOf(Sell, o.action, o.level), d, snap.averagePrice, FullExit(o.action, snap.status), t);
      }
    }
  }

  lemma BookedSound(before: Option<Account>, side: Side, action: Action, level: nat, snap: Snapshot, pending: bool, t: Target)
    requires side.Sell? ==> before.Some?
    requires Independent(side, action) && side.Sell? ==> level in before.value.subs
    requires Joint(Net(snap.gross, side, snap.fills)) && SoundLeg(LegBefore(before, t))
    ensures SoundLeg(LegOf(Booked(before, side, action, level, snap, pending), t))
  {
    var net := Net(snap.gross, side, snap.fills);
    if side.Buy? {
      BookedBuyMoves(before, action, level, snap, pending, t);
    } else if net.quantity > 0.0 {
      SellMoves(before.value, TargetOf(Sell, action, level), net, snap.averagePrice, FullExit(action, snap.status), t);
    }
  }

  lemma {:induction false} RunSound(b: Book, events: seq<Event>, t: Target)
    requires SoundLeg(LegOf(b.account, t)) && JointRun(b, events)
    ensures SoundLeg(LegOf(Run(b, events).account, t))
  {
    hide Refused, Booked, Synced, LegOf, SoundLeg, OrderAfterSync, OrderAfterSubmit, OrdersPending, Joint, Net, Delta;
    if events != [] {
      RunSound(b, events[..|events| - 1], t);
      var was := Run(b, events[..|events| - 1]);
      match events[|events| - 1]
      case SubmitEvent(side, action, level, quantity, snap) =>
        if was.account.open && Refused(Some(was.account), side, action, level, quantity).None? {
          AcceptedFindsLeg(was.account, side, action, level, quantity);
          BookedSound(Some(was.account), side, action, level, snap, OrdersPending(was.orders), t);
        }
      case SyncEvent(index, snap) =>
        if index < |was.orders| {
          var orders := was.orders[index := OrderAfterSync(was.orders[index], snap)];
          if Synced(was.account, was.orders[index], snap, OrdersPending(orders)).Some? {
            SyncedSound(was.account, was.orders[index], snap, OrdersPending(orders), t);
          }
        }
    }
  }

  /* ---- Closing ---- */

  /** Nothing worth selling is left: at most dust in the parent, and no open sub-position. */
  predicate Exited(a: Account) {
    a.parent.quantity <= DUST && !HasOpenSub(a)
  }

  lemma SellFillCloses(a: Account, u: Target, sold: Amount, price: real, fullExit: bool)
    requires u.SubLeg? ==> u.level in a.subs
    ensures a.open && !SellFill(a, u, sold, price, fullExit).open ==> Exited(SellFill(a, u, sold, price, fullExit))
  {
    hide SellLeg;
    if sold.quantity > 0.0 && u.SubLeg? {
      var after := SellFill(a, u, sold, price, fullExit);
      if HasOpenSub(after) {
        var other :| other in after.subs && after.subs[other].open;
        assert other != u.level ==> a.subs[other].open;
      }
    } else if sold.quantity > 0.0 && Closes(a.parent, sold, fullExit, !HasOpenSub(a)) {
      ClosedLegIsEmpty(a.parent, sold, price, fullExit, !HasOpenSub(a));
    }
  }

  lemma ClosedLegIsEmpty(l: Leg, sold: Amount, price: real, fullExit: bool, mayClose: bool)
    requires Closes(l, sold, fullExit, mayClose)
    ensures SellLeg(l, sold, price, fullExit, mayClose).quantity == 0.0
    ensures SellLeg(l, sold, price, fullExit, mayClose).cost == 0.0
  {
  }

  lemma CloseIfEmptyCloses(a: Account, pending: bool)
    ensures a.open && !CloseIfEmpty(a, pending).open ==> Exited(CloseIfEmpty(a, pending))
  {
    if HasOpenSub(a.(open := false)) {
      var level :| level in a.(open := false).subs && a.(open := false).subs[level].open;
      assert a.subs[level].open;
    }
  }

  lemma BuysLeaveOpen(before: Option<Account>, a: Account, action: Action, level: nat, accounted: Amount, net: Amount)
    ensures before.None? || before.value.open ==> SubmitBuy(before, action, level, net).open
    ensures SyncBuy(a, action, level, accounted, net).open == a.open
  {
    hide BuyLeg;
  }

  /** A sync that closes a position leaves nothing in it. */
  lemma SyncClosesOnlyExited(a: Account, o: Order, snap: Snapshot, pending: bool)
    requires a.open && Synced(a, o, snap, pending).Some?
    ensures !Synced(a, o, snap, pending).value.open ==> Exited(Synced(a, o, snap, pending).value)
  {
    hide SellFill, Delta, SyncBuy, CloseIfEmpty, Exited;
    var d := Delta(o, snap);
    if o.side.Buy? {
      BuysLeaveOpen(None, a, o.action, o.level, o.accounted, d);
      CloseIfEmptyCloses(SyncBuy(a, o.action, o.level, o.accounted, d), pending);
    } else if d.quantity > 0.0 {
      SellFillCloses(a, TargetOf(Sell, o.action, o.level), d, snap.averagePrice, FullExit(o.action, snap.status));
    }
  }

  /** So does a submit. */
  lemma SubmitClosesOnlyExited(before: Option<Account>, side: Side, action: Action, level: nat, snap: Snapshot, pending: bool)
    requires before.Some? ==> before.value.open
    requires side.Sell? ==> before.Some?
    requires Independent(side, action) && side.Sell? ==> level in before.value.subs
    ensures !Booked(before, side, action, level, snap, pending).open ==> Exited(Booked(before, side, action, level, snap, pending))
  {
    hide SellFill, Net, SubmitBuy, CloseIfEmpty, Exited;
    var net := Net(snap.gross, side, snap.fills);
    if side.Buy? {
      BuysLeaveOpen(before, Opened(EMPTY), action, level, net, net);
      CloseIfEmptyCloses(SubmitBuy(before, action, level, net), pending);
    } else {
      SellFillCloses(before.value, TargetOf(Sell, action, level), net, snap.averagePrice, FullExit(action, snap.status));
    }
  }

  /* ---- Exactly when a sync conserves ---- */

  /** The report of a sync: growth in quantity comes with growth in quote, unless what is sold is worthless. */
  predicate KeepsBasis(a: Account, o: Order, snap: Snapshot) {
    var d := Delta(o, snap);
    && (d.quantity == 0.0 ==> d.quote == 0.0)
    && (o.side.Sell? && d.quantity > 0.0 && d.quote == 0.0 ==>
          Sold(LegOf(a, TargetOf(o.side, o.action, o.level)), d, FullExit(o.action, snap.status)) * snap.averagePrice == 0.0)
  }

  lemma SyncConservesExactly(b: Book, i: nat, snap: Snapshot)
    requires i < |b.orders| && Conserved(b)
    requires Synced(b.account, b.orders[i], snap, OrdersPending(b.orders[i := OrderAfterSync(b.orders[i], snap)])).Some?
    ensures Conserved(Sync(b, i, snap)) <==> KeepsBasis(b.account, b.orders[i], snap)
  {
    var o := b.orders[i];
    var after := Sync(b, i, snap);
    var target := TargetOf(o.side, o.action, o.level);
    forall t: Target
      ensures KeepsBasis(b.account, o, snap) ==> Balance(LegOf(after.account, t)) == Flow(after.orders, t)
    {
      SyncGap(b, i, snap, t);
    }
    SyncGap(b, i, snap, target);
  }

  /** By how much a sync moves a leg's balance away from its orders. */
  lemma SyncGap(b: Book, i: nat, snap: Snapshot, t: Target)
    requires i < |b.orders| && Balance(LegOf(b.account, t)) == Flow(b.orders, t)
    requires Synced(b.account, b.orders[i], snap, OrdersPending(b.orders[i := OrderAfterSync(b.orders[i], snap)])).Some?
    ensures (KeepsBasis(b.account, b.orders[i], snap)
             || t != TargetOf(b.orders[i].side, b.orders[i].action, b.orders[i].level))
        <==> Balance(LegOf(Sync(b, i, snap).account, t)) == Flow(Sync(b, i, snap).orders, t)
  {
    hide Synced, KeepsBasis, FlowOf, Balance, TargetOf, OrdersPending;
    var o := b.orders[i];
    var orders := b.orders[i := OrderAfterSync(o, snap)];
    FlowUpdate(b.orders, i, OrderAfterSync(o, snap), t);
    SyncedGap(b.account, o, snap, OrdersPending(orders), t);
  }

  /** What a sync brings into (or takes out of) a leg. */
  function Received(a: Account, o: Order, snap: Snapshot, t: Target): real {
    var d := Delta(o, snap);
    if d.quantity == 0.0 || t != TargetOf(o.side, o.action, o.level) then 0.0
    else if o.side.Buy? then -d.quote
    else Proceeds(LegOf(a, t), d, snap.averagePrice, FullExit(o.action, snap.status))
  }

  lemma SyncedReceives(a: Account, o: Order, snap: Snapshot, pending: bool, t: Target)
    requires Synced(a, o, snap, pending).Some?
    ensures Balance(LegOf(Synced(a, o, snap, pending).value, t)) == Balance(LegOf(a, t)) + Received(a, o, snap, t)
  {
    var d := Delta(o, snap);
    if d.quantity == 0.0 {
      hide CloseIfEmpty, Delta, LegOf, Balance;
      CloseIfEmptyMoves(a, pending, t);
    } else if o.side.Buy? {
      hide SyncBuy, CloseIfEmpty, Delta, LegOf;
      SyncBuyMoves(a, o.action, o.level, o.accounted, d, t);
      CloseIfEmptyMoves(SyncBuy(a, o.action, o.level, o.accounted, d), pending, t);
    } else {
      hide SellFill, SellLeg, Delta, LegOf, Balance, Proceeds;
      var u, fullExit := TargetOf(Sell, o.action, o.level), FullExit(o.action, snap.status);
      SellMoves(a, u, d, snap.averagePrice, fullExit, t);
      SellLegBalance(LegOf(a, t), d, snap.averagePrice, fullExit, MayClose(a, u));
    }
  }

  lemma SyncedGap(a: Account, o: Order, snap: Snapshot, pending: bool, t: Target)
    requires Synced(a, o, snap, pending).Some?
    ensures (KeepsBasis(a, o, snap) || t != TargetOf(o.side, o.action, o.level))
        <==> Balance(LegOf(Synced(a, o, snap, pending).value, t))
             == Balance(LegOf(a, t)) - FlowOf(o, t) + FlowOf(OrderAfterSync(o, snap), t)
  {
    hide Synced, KeepsBasis, Received, Reported, FlowOf, Balance, TargetOf;
    SyncedReceives(a, o, snap, pending, t);
    FlowGrowth(o, snap, t);
    GapCondition(a, o, snap, t);
  }

  /** How the flow of an order grows with a report. */
  function Reported(o: Order, snap: Snapshot, t: Target): real {
    if t != TargetOf(o.side, o.action, o.level) then 0.0
    else if o.side.Buy? then -Delta(o, snap).quote else Delta(o, snap).quote
  }

  lemma FlowGrowth(o: Order, snap: Snapshot, t: Target)
    ensures FlowOf(OrderAfterSync(o, snap), t) == FlowOf(o, t) + Reported(o, snap, t)
  {
  }

  lemma GapCondition(a: Account, o: Order, snap: Snapshot, t: Target)
    ensures (KeepsBasis(a, o, snap) || t != TargetOf(o.side, o.action, o.level))
        <==> Received(a, o, snap, t) == Reported(o, snap, t)
  {
  }
}
