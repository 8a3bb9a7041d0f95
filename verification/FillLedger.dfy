/** The rows the execution service updates in place, and its transactions, step by step. */
module FillLedger {
  import opened Reals
  import opened FillAccounting

  /** The arithmetic both sell bookings share: sold quantity, its cost share, proceeds, and the dust close. */
  method ReduceLeg(leg: Leg, delta: Amount, averagePrice: real, fullExit: bool, mayClose: bool)
    returns (updated: Leg, closed: bool)
    ensures updated == SellLeg(leg, delta, averagePrice, fullExit, mayClose)
    ensures closed == Closes(leg, delta, fullExit, mayClose)
  {
    var soldQuantity := if fullExit then leg.quantity else Min(delta.quantity, leg.quantity);
    var allocatedCost := Allocated(leg, soldQuantity);
    var proceeds := if delta.quote > 0.0 then delta.quote else soldQuantity * averagePrice;
    var remainingQuantity := Max(leg.quantity - soldQuantity, 0.0);
    var remainingCost := Max(leg.cost - allocatedCost, 0.0);
    closed := remainingQuantity <= DUST && mayClose;
    var realized := leg.realized + proceeds - allocatedCost;
    updated := if closed then Leg(0.0, 0.0, realized, leg.dropped + remainingCost)
               else Leg(remainingQuantity, remainingCost, realized, leg.dropped);
  }

  class PositionRows {
    var position: Account
    var orders: seq<Order>

    function Contents(): Book
      reads this
    {
      Book(position, orders)
    }

    /** The row an entry creates. */
    constructor (action: Action, level: nat, snap: Snapshot)
      ensures Contents() == Open(action, level, snap)
    {
      position := Booked(None, Buy, action, level, snap, false);
      orders := [OrderAfterSubmit(Buy, action, level, snap)];
    }

    method ApplyParentSellFill(delta: Amount, averagePrice: real, fullExit: bool)
      modifies this`position
      ensures position == SellParent(old(position), delta, averagePrice, fullExit)
    {
      var leg, closed := ReduceLeg(position.parent, delta, averagePrice, fullExit, !HasOpenSub(position));
      position := position.(open := !closed, parent := leg);
    }

    method ApplyIndependentSellFill(level: nat, delta: Amount, averagePrice: real, fullExit: bool)
      requires level in position.subs
      modifies this`position
      ensures position == SellSub(old(position), level, delta, averagePrice, fullExit)
    {
      var othersOpen := HasOtherOpenSub(position, level);
      var leg, closed := ReduceLeg(position.subs[level].leg, delta, averagePrice, fullExit, true);
      position := position.(subs := position.subs[level := SubPosition(!closed, leg)]);
      if closed && position.parent.quantity <= DUST && !othersOpen {
        position := position.(open := false);
      }
    }

    /** An entry as the submit books it: the parent row, its counters, or the sub-position row. */
    method BookEntry(action: Action, level: nat, net: Amount)
      modifies this`position
      ensures position == SubmitBuy(Some(old(position)), action, level, net)
    {
      if !action.IndependentEntry? && net.quantity > 0.0 {
        var dcaCount := if action.RecoveryEntry? then position.dcaCount else position.dcaCount + 1;
        var recoveryDcaCount := if action.RecoveryEntry? then position.recoveryDcaCount + 1 else position.recoveryDcaCount;
        position := position.(parent := BuyLeg(position.parent, net), dcaCount := dcaCount, recoveryDcaCount := recoveryDcaCount);
      }
      if action.IndependentEntry? && net.quantity > 0.0 {
        var existing := level in position.subs;
        var expectedLevel := position.dcaCount + 2;
        position := BuySub(position, level, net);
        if !existing && level == expectedLevel {
          position := position.(dcaCount := position.dcaCount + 1);
        }
      }
    }

    /** An entry as a sync books what is new of it. */
    method BookEntryDelta(action: Action, level: nat, accounted: Amount, delta: Amount)
      modifies this`position
      ensures position == SyncBuy(old(position), action, level, accounted, delta)
    {
      if delta.quantity <= 0.0 { return; }
      var first := accounted.quantity == 0.0;
      if action.IndependentEntry? {
        var expectedLevel := position.dcaCount + 2;
        position := BuySub(position, level, delta);
        if first && level == expectedLevel {
          position := position.(dcaCount := position.dcaCount + 1);
        }
      } else {
        var recoveryEntry := action.RecoveryEntry?;
        var initialEntry := TakenForInitial(position, action);
        if !recoveryEntry && !initialEntry && first {
          position := position.(dcaCount := position.dcaCount + 1);
        }
        if recoveryEntry && first {
          position := position.(recoveryDcaCount := position.recoveryDcaCount + 1);
        }
        position := position.(parent := BuyLeg(position.parent, delta));
      }
    }

    method CloseIfEmptyRow(ordersPending: bool)
      modifies this`position
      ensures position == CloseIfEmpty(old(position), ordersPending)
    {
      if !(position.parent.quantity > 0.0 || HasOpenSub(position) || ordersPending) {
        position := position.(open := false);
      }
    }

    /** A further order on the open position; a refusal leaves the rows alone. */
    method SubmitOrder(side: Side, action: Action, level: nat, quantity: real, snap: Snapshot) returns (refusal: Option<Refusal>)
      requires position.open
      modifies this
      ensures refusal == Refused(Some(old(position)), side, action, level, quantity)
      ensures Contents() == Submit(old(Contents()), side, action, level, quantity, snap)
    {
      refusal := Refused(Some(position), side, action, level, quantity);
      if refusal.Some? { return; }
      AcceptedFindsLeg(position, side, action, level, quantity);
      var net := NetFill(snap.gross, side, snap.fills);
      var fullExit := FullExit(action, snap.status);
      if side.Sell? {
        if net.quantity > 0.0 {
          if action.IndependentExit? {
            ApplyIndependentSellFill(level, net, snap.averagePrice, fullExit);
          } else {
            ApplyParentSellFill(net, snap.averagePrice, fullExit);
          }
        }
      } else {
        BookEntry(action, level, net);
        if net.quantity <= 0.0 && Terminal(snap.status) {
          CloseIfEmptyRow(OrdersPending(orders));
        }
      }
      orders := orders + [Order(side, action, level, snap.gross.quantity, net, snap.status)];
    }

    /** Books what a fresh report of order i adds; false when the transaction is rolled back. */
    method SyncOrder(i: nat, snap: Snapshot) returns (done: bool)
      requires i < |orders|
      modifies this
      ensures Contents() == Sync(old(Contents()), i, snap)
      ensures done == Synced(old(position), old(orders[i]), snap,
                             OrdersPending(old(orders)[i := OrderAfterSync(old(orders[i]), snap)])).Some?
    {
      var order := orders[i];
      var net := order.accounted;
      if snap.gross.quantity > order.filledQuantity + DUST {
        net := NetFill(snap.gross, order.side, snap.fills);
      }
      var delta := Amount(Max(net.quantity - order.accounted.quantity, 0.0), Max(net.quote - order.accounted.quote, 0.0));
      var fullExit := FullExit(order.action, snap.status);
      if delta.quantity > 0.0 {
        if order.side.Buy? {
          BookEntryDelta(order.action, order.level, order.accounted, delta);
        } else if order.action.IndependentExit? {
          if order.level !in position.subs { return false; }
          ApplyIndependentSellFill(order.level, delta, snap.averagePrice, fullExit);
        } else {
          ApplyParentSellFill(delta, snap.averagePrice, fullExit);
        }
      }
      var accounted := Amount(order.accounted.quantity + delta.quantity, order.accounted.quote + delta.quote);
      orders := orders[i := order.(filledQuantity := snap.gross.quantity, status := snap.status, accounted := accounted)];
      if order.side.Buy? && accounted.quantity <= 0.0 && Terminal(snap.status) {
        CloseIfEmptyRow(OrdersPending(orders));
      }
      done := true;
    }
  }
}
