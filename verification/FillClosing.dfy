/**
 What an order must be to be accepted, and when positions and sub-positions
 close: after a booking a position is open exactly while it holds something,
 or an order that may still fill keeps it.
 */
module FillClosing {
  import opened Reals
  import opened FillAccounting

  /** More than dust in the parent, or an open sub-position. */
  predicate StillHolds(a: Account) {
    a.parent.quantity > DUST || exists level :: level in a.subs && a.subs[level].open
  }

  /* ---- Acceptance ---- */

  /**
   An order is accepted exactly when it is for a positive quantity and, for an exit or any other sell, the leg is
   there and holds as much; an independent exit also needs its sub-position open.
   */
  lemma AcceptedExactly(before: Option<Account>, side: Side, action: Action, level: nat, quantity: real)
    ensures Refused(before, side, action, level, quantity).None? <==>
            && quantity > 0.0
            && (action.IndependentExit? ==>
                  && before.Some? && level != 0 && level in before.value.subs && before.value.subs[level].open
                  && quantity <= before.value.subs[level].leg.quantity)
            && (side.Sell? && !action.IndependentExit? ==> before.Some? && quantity <= before.value.parent.quantity)
  {
  }

  /* ---- Selling ---- */

  /** A sub-position stays open exactly while more than dust is left in it; then it holds just that, and otherwise nothing. */
  predicate SubClosesOnDust(a: Account, level: nat)
    requires level in a.subs
  {
    var sub := a.subs[level];
    (sub.open <==> sub.leg.quantity > DUST) && (!sub.open ==> sub.leg.quantity == 0.0 && sub.leg.cost == 0.0)
  }

  ghost predicate OtherSubsStay(a: Account, b: Account, t: Target) {
    forall level :: t != SubLeg(level) ==>
      (level in a.subs <==> level in b.subs) && (level in a.subs ==> b.subs[level] == a.subs[level])
  }

  lemma SellClosesExactly(a: Account, t: Target, sold: Amount, price: real, fullExit: bool)
    requires t.SubLeg? ==> t.level in a.subs
    ensures var b := SellFill(a, t, sold, price, fullExit);
            if sold.quantity <= 0.0 then b == a
            else
              && OtherSubsStay(a, b, t)
              && (t.SubLeg? ==> t.level in b.subs && SubClosesOnDust(b, t.level) && b.parent == a.parent)
              && (b.open <==> (a.open || t.ParentLeg?) && StillHolds(b))
  {
    hide Allocated, Proceeds;
    if sold.quantity > 0.0 {
      if t.ParentLeg? {
        ParentCloses(a, sold, price, fullExit);
      } else {
        SubCloses(a, t.level, sold, price, fullExit);
      }
    }
  }

  lemma ParentCloses(a: Account, sold: Amount, price: real, fullExit: bool)
    ensures var b := SellParent(a, sold, price, fullExit);
            b.subs == a.subs && (b.open <==> StillHolds(b))
  {
    hide Allocated, Proceeds;
    var b := SellParent(a, sold, price, fullExit);
    assert HasOpenSub(a) <==> exists level :: level in b.subs && b.subs[level].open;
  }

  lemma SubCloses(a: Account, level: nat, sold: Amount, price: real, fullExit: bool)
    requires level in a.subs
    ensures var b := SellSub(a, level, sold, price, fullExit);
            && level in b.subs && SubClosesOnDust(b, level) && b.parent == a.parent
            && OtherSubsStay(a, b, SubLeg(level))
            && (b.open <==> a.open && StillHolds(b))
  {
    hide Allocated, Proceeds;
    var b := SellSub(a, level, sold, price, fullExit);
    forall other | other != level ensures (other in a.subs <==> other in b.subs) && (other in a.subs ==> b.subs[other] == a.subs[other]) {}
    if HasOtherOpenSub(a, level) {
      var other :| other in a.subs && other != level && a.subs[other].open;
      assert other in b.subs && b.subs[other].open;
    }
  }

  /* ---- Whole bookings ---- */

  /** Over without a fill: an entry that was cancelled or rejected before anything was bought. */
  predicate Unfilled(snap: Snapshot, bought: real) {
    bought <= 0.0 && (snap.status.Cancelled? || snap.status.Rejected?)
  }

  /** An entry that comes to nothing closes an open position that neither holds nor waits for anything. */
  predicate Kept(a: Account, snap: Snapshot, bought: real, pending: bool) {
    !Unfilled(snap, bought) || a.parent.quantity > 0.0 || pending || exists level :: level in a.subs && a.subs[level].open
  }

  lemma BuysLeaveOpen(before: Option<Account>, a: Account, action: Action, level: nat, accounted: Amount, bought: Amount)
    ensures SubmitBuy(before, action, level, bought).open == (before.None? || before.value.open)
    ensures SyncBuy(a, action, level, accounted, bought).open == a.open
  {
    hide BuyLeg, LegOf;
  }

  lemma EmptyClosesExactly(a: Account, snap: Snapshot, bought: real, pending: bool)
    ensures var b := if Unfilled(snap, bought) then CloseIfEmpty(a, pending) else a;
            b == a.(open := a.open && Kept(a, snap, bought, pending))
  {
    assert HasOpenSub(a) <==> exists level :: level in a.subs && a.subs[level].open;
  }

  /** The submit: a sell leaves the position open exactly while it holds something; a buy opens it, and closes it only when it comes to nothing. */
  lemma SubmitClosesExactly(before: Option<Account>, side: Side, action: Action, level: nat, snap: Snapshot, pending: bool)
    requires side.Sell? ==> before.Some?
    requires Independent(side, action) && side.Sell? ==> level in before.value.subs
    ensures var b, net := Booked(before, side, action, level, snap, pending), Net(snap.gross, side, snap.fills).quantity;
            if side.Buy? then b.open <==> (before.None? || before.value.open) && Kept(b, snap, net, pending)
            else if net <= 0.0 then b == before.value
            else b.open <==> (before.value.open || TargetOf(Sell, action, level).ParentLeg?) && StillHolds(b)
  {
    hide Net, SubmitBuy, CloseIfEmpty, SellFill, StillHolds, Kept;
    var net := Net(snap.gross, side, snap.fills);
    if side.Buy? {
      BuysLeaveOpen(before, Opened(EMPTY), action, level, net, net);
      EmptyClosesExactly(SubmitBuy(before, action, level, net), snap, net.quantity, pending);
      KeptIgnoresOpen(SubmitBuy(before, action, level, net), Booked(before, side, action, level, snap, pending), snap, net.quantity, pending);
    } else {
      SellClosesExactly(before.value, TargetOf(Sell, action, level), net, snap.averagePrice, FullExit(action, snap.status));
    }
  }

  lemma KeptIgnoresOpen(a: Account, b: Account, snap: Snapshot, bought: real, pending: bool)
    requires b == a.(open := b.open)
    ensures Kept(a, snap, bought, pending) <==> Kept(b, snap, bought, pending)
  {
  }

  /** A sync likewise, on what it adds. */
  lemma SyncClosesExactly(a: Account, o: Order, snap: Snapshot, pending: bool)
    requires Synced(a, o, snap, pending).Some?
    ensures var b, delta := Synced(a, o, snap, pending).value, Delta(o, snap).quantity;
            if o.side.Buy? then b.open <==> a.open && Kept(b, snap, o.accounted.quantity + delta, pending)
            else if delta <= 0.0 then b == a
            else b.open <==> (a.open || TargetOf(Sell, o.action, o.level).ParentLeg?) && StillHolds(b)
  {
    hide Delta, SyncBuy, CloseIfEmpty, SellFill, StillHolds, Kept;
    var delta := Delta(o, snap);
    if o.side.Buy? {
      var bought := SyncBuy(a, o.action, o.level, o.accounted, delta);
      BuysLeaveOpen(None, a, o.action, o.level, o.accounted, delta);
      EmptyClosesExactly(bought, snap, o.accounted.quantity + delta.quantity, pending);
      KeptIgnoresOpen(bought, Synced(a, o, snap, pending).value, snap, o.accounted.quantity + delta.quantity, pending);
    } else if delta.quantity > 0.0 {
      SellClosesExactly(a, TargetOf(Sell, o.action, o.level), delta, snap.averagePrice, FullExit(o.action, snap.status));
    }
  }

  /** The sync is refused exactly when a sell has something new for a sub-position that is not there. */
  lemma SyncRefusedExactly(a: Account, o: Order, snap: Snapshot, pending: bool)
    ensures Synced(a, o, snap, pending).None? <==>
            o.side.Sell? && o.action.IndependentExit? && o.level !in a.subs && Delta(o, snap).quantity > 0.0
  {
    hide Delta, SyncBuy, CloseIfEmpty, SellFill;
  }

  /** A report whose total has not grown by more than dust books nothing. */
  lemma WithinDustBooksNothing(o: Order, snap: Snapshot)
    requires snap.gross.quantity <= o.filledQuantity + 0.000000000001
    ensures Delta(o, snap) == NOTHING && OrderAfterSync(o, snap).accounted == o.accounted
  {
    hide Net;
  }

  /** An order that may still be filled keeps its open position from being closed by another that comes to nothing. */
  lemma WaitingKeepsOpen(b: Book, j: nat)
    requires b.account.open && j < |b.orders| && (b.orders[j].status == Pending || b.orders[j].status == PartiallyFilled)
    ensures forall action, level, quantity, snap :: Submit(b, Buy, action, level, quantity, snap).account.open
    ensures forall i: nat, snap :: i < |b.orders| && i != j && b.orders[i].side == Buy ==> Sync(b, i, snap).account.open
  {
    hide Net, SubmitBuy, SyncBuy, Delta, CloseIfEmpty, HasOpenSub, OrderAfterSync, OrderAfterSubmit, Kept;
    forall action, level, quantity, snap ensures Submit(b, Buy, action, level, quantity, snap).account.open {
      SubmitClosesExactly(Some(b.account), Buy, action, level, snap, OrdersPending(b.orders));
      assert OrdersPending(b.orders);
      PendingKeeps(Booked(Some(b.account), Buy, action, level, snap, true), snap, Net(snap.gross, Buy, snap.fills).quantity);
    }
    forall i: nat, snap | i < |b.orders| && i != j && b.orders[i].side == Buy ensures Sync(b, i, snap).account.open {
      var orders := b.orders[i := OrderAfterSync(b.orders[i], snap)];
      assert orders[j] == b.orders[j] && OrdersPending(orders);
      SyncClosesExactly(b.account, b.orders[i], snap, true);
      PendingKeeps(Synced(b.account, b.orders[i], snap, true).value, snap, b.orders[i].accounted.quantity + Delta(b.orders[i], snap).quantity);
    }
  }

  lemma PendingKeeps(a: Account, snap: Snapshot, bought: real)
    ensures Kept(a, snap, bought, true)
  {
  }
}
