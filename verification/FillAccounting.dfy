/**
 Reconciling exchange fills into a position: an order is looked at once when
 it is submitted and again by any number of syncs, and every look moves the
 position by what was filled since the look before.

 A leg is the parent position or one independent sub-position. `dropped` is the
 cost that a dust close forgets; the source keeps no such column, the
 conservation law needs the number.
 */
module FillAccounting {
  import opened Reals

  /** Remainders up to this size are dust. */
  const DUST: real := 0.000000000001

  datatype Side = Buy | Sell
  datatype Asset = BaseAsset | QuoteAsset | OtherAsset
  datatype Status = Pending | PartiallyFilled | Filled | Cancelled | Rejected | Failed
  datatype Action = InitialEntry | DcaEntry | IndependentEntry | RecoveryEntry | ParentExit | IndependentExit | NoAction

  datatype AmountRow = Amount(quantity: real, quote: real)
  type Amount = a: AmountRow | a.quantity >= 0.0 && a.quote >= 0.0 witness Amount(0.0, 0.0)

  const NOTHING: Amount := Amount(0.0, 0.0)

  /* ---- Commissions ---- */

  /** One trade of an order: what was exchanged and the commission the exchange kept. */
  datatype Fill = Fill(quantity: real, quote: real, commission: real, asset: Asset)

  function Quantity(fills: seq<Fill>): real {
    if fills == [] then 0.0 else Quantity(fills[..|fills| - 1]) + fills[|fills| - 1].quantity
  }

  function Quote(fills: seq<Fill>): real {
    if fills == [] then 0.0 else Quote(fills[..|fills| - 1]) + fills[|fills| - 1].quote
  }

  /** The commission of a fill if it was taken in the given asset; negative ones are ignored. */
  function Commission(f: Fill, asset: Asset): (c: real)
    ensures c >= 0.0
  {
    if f.asset == asset && f.commission > 0.0 then f.commission else 0.0
  }

  function Commissions(fills: seq<Fill>, asset: Asset): (c: real)
    ensures c >= 0.0
  {
    if fills == [] then 0.0 else Commissions(fills[..|fills| - 1], asset) + Commission(fills[|fills| - 1], asset)
  }

  /** What the account really gained or gave up: the order's totals net of commissions in the traded assets. */
  function Net(gross: Amount, side: Side, fills: seq<Fill>): Amount {
    if side.Buy?
    then Amount(Max(gross.quantity - Commissions(fills, BaseAsset), 0.0), gross.quote + Commissions(fills, QuoteAsset))
    else Amount(gross.quantity + Commissions(fills, BaseAsset), Max(gross.quote - Commissions(fills, QuoteAsset), 0.0))
  }

  method NetFill(gross: Amount, side: Side, fills: seq<Fill>) returns (net: Amount)
    ensures net == Net(gross, side, fills)
  {
    var baseFee, quoteFee := 0.0, 0.0;
    for i := 0 to |fills|
      invariant baseFee == Commissions(fills[..i], BaseAsset) && quoteFee == Commissions(fills[..i], QuoteAsset)
    {
      assert fills[..i + 1][..i] == fills[..i];
      var fill := fills[i];
      if fill.commission <= 0.0 { continue; }
      if fill.asset == BaseAsset { baseFee := baseFee + fill.commission; }
      else if fill.asset == QuoteAsset { quoteFee := quoteFee + fill.commission; }
    }
    assert fills[..|fills|] == fills;
    if side.Buy? {
      net := Amount(Max(gross.quantity - baseFee, 0.0), gross.quote + quoteFee);
    } else {
      net := Amount(gross.quantity + baseFee, Max(gross.quote - quoteFee, 0.0));
    }
  }

  /** A trade worth more than the dust limit and more than its own commission. */
  predicate Proper(f: Fill) {
    f.quantity > DUST && f.quote > 0.0 && Commission(f, BaseAsset) < f.quantity && Commission(f, QuoteAsset) < f.quote
  }

  type Fills = fs: seq<Fill> | forall i :: 0 <= i < |fs| ==> Proper(fs[i])

  lemma {:induction false} GrossCovers(fills: Fills)
    ensures Quantity(fills) >= 0.0 && Quote(fills) >= 0.0
    ensures fills != [] ==> Commissions(fills, BaseAsset) < Quantity(fills) && Commissions(fills, QuoteAsset) < Quote(fills)
  {
    if fills != [] {
      GrossCovers(fills[..|fills| - 1]);
    }
  }

  /** The net amount of the first k trades of an order. */
  function NetAt(fills: Fills, side: Side, k: nat): Amount
    requires k <= |fills|
  {
    GrossCovers(fills[..k]);
    Net(Amount(Quantity(fills[..k]), Quote(fills[..k])), side, fills[..k])
  }

  /** Every further trade adds to the net quantity and to the net quote amount. */
  lemma {:induction false} NetGrows(fills: Fills, side: Side, j: nat, k: nat)
    requires j < k <= |fills|
    ensures NetAt(fills, side, j).quantity < NetAt(fills, side, k).quantity
    ensures NetAt(fills, side, j).quote < NetAt(fills, side, k).quote
    ensures side.Sell? ==> NetAt(fills, side, j).quantity + DUST < NetAt(fills, side, k).quantity
    ensures Quantity(fills[..j]) + DUST < Quantity(fills[..k])
  {
    assert fills[..k][..k - 1] == fills[..k - 1];
    GrossCovers(fills[..k]);
    GrossCovers(fills[..k - 1]);
    if j < k - 1 {
      NetGrows(fills, side, j, k - 1);
    }
  }

  /* ---- Legs ---- */

  datatype LegRow = Leg(quantity: real, cost: real, realized: real, dropped: real)
  type Leg = l: LegRow | l.quantity >= 0.0 && l.cost >= 0.0 witness Leg(0.0, 0.0, 0.0, 0.0)

  const EMPTY: Leg := Leg(0.0, 0.0, 0.0, 0.0)

  function BuyLeg(l: Leg, bought: Amount): Leg {
    Leg(l.quantity + bought.quantity, l.cost + bought.quote, l.realized, l.dropped)
  }

  /** A filled exit sells everything that is left; other sells never more than is there. */
  function Sold(l: Leg, sold: Amount, fullExit: bool): (q: real)
    ensures 0.0 <= q <= l.quantity
  {
    if fullExit then l.quantity else Min(sold.quantity, l.quantity)
  }

  /** The part of the cost that goes with the sold part of the quantity. */
  function Allocated(l: Leg, q: real): (c: real)
    requires 0.0 <= q <= l.quantity
    ensures 0.0 <= c <= l.cost
    ensures c * l.quantity == l.cost * q || l.quantity == 0.0
    ensures q == l.quantity > 0.0 ==> c == l.cost
    ensures l.quantity == 0.0 ==> c == 0.0
  {
    if l.quantity > 0.0 then ShareLaw(l.cost, q, l.quantity); l.cost * q / l.quantity else 0.0
  }

  lemma ShareLaw(cost: real, q: real, quantity: real)
    requires cost >= 0.0 && 0.0 <= q <= quantity && quantity > 0.0
    ensures 0.0 <= cost * q / quantity <= cost
    ensures cost * q / quantity * quantity == cost * q
    ensures q == quantity ==> cost * q / quantity == cost
  {
    var share := cost * q / quantity;
    QuotientTimes(cost * q, quantity);
    ProductNonNegative(cost, q);
    ProductMonotone(q, quantity, cost);
    CompareProducts(0.0, share, quantity);
    CompareProducts(share, cost, quantity);
    if q == quantity { CancelFactor(share, cost, quantity); }
  }

  function Proceeds(l: Leg, sold: Amount, averagePrice: real, fullExit: bool): real {
    if sold.quote > 0.0 then sold.quote else Sold(l, sold, fullExit) * averagePrice
  }

  predicate Closes(l: Leg, sold: Amount, fullExit: bool, mayClose: bool) {
    l.quantity - Sold(l, sold, fullExit) <= DUST && mayClose
  }

  function SellLeg(l: Leg, sold: Amount, averagePrice: real, fullExit: bool, mayClose: bool): Leg {
    var q := Sold(l, sold, fullExit);
    var remainingCost := l.cost - Allocated(l, q);
    var realized := l.realized + Proceeds(l, sold, averagePrice, fullExit) - Allocated(l, q);
    if Closes(l, sold, fullExit, mayClose)
    then Leg(0.0, 0.0, realized, l.dropped + remainingCost)
    else Leg(l.quantity - q, remainingCost, realized, l.dropped)
  }

  /** Realised profit less the money still tied up: what a leg has taken out of the market so far. */
  function Balance(l: Leg): real {
    l.realized - l.cost - l.dropped
  }

  lemma BuyLegBalance(l: Leg, bought: Amount)
    ensures Balance(BuyLeg(l, bought)) == Balance(l) - bought.quote
  {
  }

  /** Whatever part is sold, at whatever cost share, the balance moves by the proceeds alone. */
  lemma SellLegBalance(l: Leg, sold: Amount, averagePrice: real, fullExit: bool, mayClose: bool)
    ensures Balance(SellLeg(l, sold, averagePrice, fullExit, mayClose))
         == Balance(l) + Proceeds(l, sold, averagePrice, fullExit)
  {
  }

  /** A close forgets at most the cost of a dust quantity, and a filled exit forgets nothing. */
  lemma DustBound(l: Leg, sold: Amount, averagePrice: real, fullExit: bool, mayClose: bool)
    requires l.quantity > 0.0
    ensures var forgotten := SellLeg(l, sold, averagePrice, fullExit, mayClose).dropped - l.dropped;
            0.0 <= forgotten * l.quantity <= l.cost * DUST && (fullExit ==> forgotten == 0.0)
  {
    hide Allocated;
    var q := Sold(l, sold, fullExit);
    var remaining := l.cost - Allocated(l, q);
    Distribute(l.cost, Allocated(l, q), l.quantity);
    ProductNonNegative(remaining, l.quantity);
    ProductNonNegative(l.cost, DUST);
    if Closes(l, sold, fullExit, mayClose) {
      ProductMonotone(l.quantity - q, DUST, l.cost);
    }
  }

  /* ---- The position ---- */

  datatype SubPosition = SubPosition(open: bool, leg: Leg)

  datatype Account = Account(open: bool, parent: Leg, dcaCount: nat, recoveryDcaCount: nat, subs: map<nat, SubPosition>)

  datatype Target = ParentLeg | SubLeg(level: nat)

  function LegOf(a: Account, t: Target): Leg {
    match t
    case ParentLeg => a.parent
    case SubLeg(level) => if level in a.subs then a.subs[level].leg else EMPTY
  }

  predicate HasOpenSub(a: Account) {
    exists level :: level in a.subs && a.subs[level].open
  }

  predicate HasOtherOpenSub(a: Account, level: nat) {
    exists other :: other in a.subs && other != level && a.subs[other].open
  }

  /** A sub-position closes on dust at any time, the parent only when no sub-position is open. */
  predicate MayClose(a: Account, t: Target) {
    t.SubLeg? || !HasOpenSub(a)
  }

  predicate Terminal(s: Status) {
    s.Cancelled? || s.Rejected?
  }

  predicate FullExit(action: Action, s: Status) {
    (action.ParentExit? || action.IndependentExit?) && s.Filled?
  }

  predicate Independent(side: Side, action: Action) {
    (side.Buy? && action.IndependentEntry?) || (side.Sell? && action.IndependentExit?)
  }

  function TargetOf(side: Side, action: Action, level: nat): Target {
    if Independent(side, action) then SubLeg(level) else ParentLeg
  }

  function BuySub(a: Account, level: nat, bought: Amount): Account {
    a.(subs := a.subs[level := SubPosition(true, BuyLeg(LegOf(a, SubLeg(level)), bought))])
  }

  function Opened(parent: Leg): Account {
    Account(true, parent, 0, 0, map[])
  }

  /** The position a BUY finds or opens, with the fill added to the parent unless the entry is independent. */
  function SubmitParentBuy(before: Option<Account>, action: Action, net: Amount): Account {
    match before
    case None =>
      Opened(if action.IndependentEntry? then EMPTY else Leg(net.quantity, net.quote, 0.0, 0.0))
    case Some(a) =>
      if action.IndependentEntry? || net.quantity <= 0.0 then a
      else if action.RecoveryEntry? then
        a.(parent := BuyLeg(a.parent, net), recoveryDcaCount := a.recoveryDcaCount + 1)
      else a.(parent := BuyLeg(a.parent, net), dcaCount := a.dcaCount + 1)
  }

  function SubmitSubBuy(a: Account, level: nat, net: Amount): Account {
    var bought := BuySub(a, level, net);
    if level !in a.subs && level == a.dcaCount + 2 then bought.(dcaCount := a.dcaCount + 1) else bought
  }

  /** A BUY as the submit transaction books it, on no position or on the open one. */
  function SubmitBuy(before: Option<Account>, action: Action, level: nat, net: Amount): Account {
    var a := SubmitParentBuy(before, action, net);
    if action.IndependentEntry? && net.quantity > 0.0 then SubmitSubBuy(a, level, net) else a
  }

  /** Whether a sync takes a first fill for the one that opened the position. */
  predicate TakenForInitial(a: Account, action: Action) {
    action.InitialEntry? || (a.parent.quantity == 0.0 && a.parent.cost == 0.0)
  }

  /** A BUY as a sync books it: `delta` on top of what was accounted before. */
  function SyncBuy(a: Account, action: Action, level: nat, accounted: Amount, delta: Amount): Account {
    var first := accounted.quantity == 0.0;
    if delta.quantity <= 0.0 then a
    else if action.IndependentEntry? then
      var bought := BuySub(a, level, delta);
      if first && level == a.dcaCount + 2 then bought.(dcaCount := a.dcaCount + 1) else bought
    else if action.RecoveryEntry? then
      a.(parent := BuyLeg(a.parent, delta), recoveryDcaCount := a.recoveryDcaCount + if first then 1 else 0)
    else
      a.(parent := BuyLeg(a.parent, delta), dcaCount := a.dcaCount + if first && !TakenForInitial(a, action) then 1 else 0)
  }

  function SellParent(a: Account, sold: Amount, averagePrice: real, fullExit: bool): Account {
    var mayClose := !HasOpenSub(a);
    a.(parent := SellLeg(a.parent, sold, averagePrice, fullExit, mayClose),
       open := !Closes(a.parent, sold, fullExit, mayClose))
  }

  function SellSub(a: Account, level: nat, sold: Amount, averagePrice: real, fullExit: bool): Account
    requires level in a.subs
  {
    var leg := a.subs[level].leg;
    var closed := Closes(leg, sold, fullExit, true);
    a.(subs := a.subs[level := SubPosition(!closed, SellLeg(leg, sold, averagePrice, fullExit, true))],
       open := a.open && !(closed && a.parent.quantity <= DUST && !HasOtherOpenSub(a, level)))
  }

  /** A SELL, booked alike by submit and sync; nothing when nothing was filled. */
  function SellFill(a: Account, t: Target, sold: Amount, averagePrice: real, fullExit: bool): Account
    requires t.SubLeg? ==> t.level in a.subs
  {
    if sold.quantity <= 0.0 then a
    else match t
      case ParentLeg => SellParent(a, sold, averagePrice, fullExit)
      case SubLeg(level) => SellSub(a, level, sold, averagePrice, fullExit)
  }

  /** A position that an entry opened but never filled is closed again. */
  function CloseIfEmpty(a: Account, ordersPending: bool): Account {
    if a.parent.quantity > 0.0 || HasOpenSub(a) || ordersPending then a else a.(open := false)
  }

  /* ---- What one booking does to every leg ---- */

  function LegBefore(before: Option<Account>, t: Target): Leg {
    match before
    case None => EMPTY
    case Some(a) => LegOf(a, t)
  }

  lemma SubmitBuyMoves(before: Option<Account>, action: Action, level: nat, net: Amount, t: Target)
    requires net.quantity > 0.0 || net.quote == 0.0
    ensures LegOf(SubmitBuy(before, action, level, net), t)
         == if t == TargetOf(Buy, action, level) then BuyLeg(LegBefore(before, t), net) else LegBefore(before, t)
  {
    hide SubmitBuy, BuyLeg, LegOf, LegBefore;
    if net.quantity <= 0.0 {
      SubmitNothingMoves(before, action, level, net, t);
      assert net == NOTHING;
      BuyNothing(LegBefore(before, t));
    } else if action.IndependentEntry? {
      SubmitIndependentMoves(before, action, level, net, t);
    } else {
      SubmitParentMoves(before, action, level, net, t);
    }
  }

  lemma SubmitNothingMoves(before: Option<Account>, action: Action, level: nat, net: Amount, t: Target)
    requires net.quantity == 0.0 && net.quote == 0.0
    ensures LegOf(SubmitBuy(before, action, level, net), t) == LegBefore(before, t)
  {
  }

  lemma SubmitParentMoves(before: Option<Account>, action: Action, level: nat, net: Amount, t: Target)
    requires net.quantity > 0.0 && !action.IndependentEntry?
    ensures LegOf(SubmitBuy(before, action, level, net), t)
         == if t.ParentLeg? then BuyLeg(LegBefore(before, t), net) else LegBefore(before, t)
  {
  }

  lemma SubmitIndependentMoves(before: Option<Account>, action: Action, level: nat, net: Amount, t: Target)
    requires net.quantity > 0.0 && action.IndependentEntry?
    ensures LegOf(SubmitBuy(before, action, level, net), t)
         == if t == SubLeg(level) then BuyLeg(LegBefore(before, t), net) else LegBefore(before, t)
  {
    hide BuyLeg;
    var a := SubmitParentBuy(before, action, net);
    assert LegOf(a, t) == LegBefore(before, t);
    hide SubmitParentBuy, LegBefore;
    assert LegOf(SubmitSubBuy(a, level, net), t) == LegOf(BuySub(a, level, net), t);
  }

  lemma BuyNothing(l: Leg)
    ensures BuyLeg(l, NOTHING) == l
  {
  }

  lemma SyncBuyMoves(a: Account, action: Action, level: nat, accounted: Amount, delta: Amount, t: Target)
    requires delta.quantity > 0.0
    ensures LegOf(SyncBuy(a, action, level, accounted, delta), t)
         == if t == TargetOf(Buy, action, level) then BuyLeg(LegOf(a, t), delta) else LegOf(a, t)
  {
  }

  lemma SellMoves(a: Account, u: Target, sold: Amount, averagePrice: real, fullExit: bool, t: Target)
    requires u.SubLeg? ==> u.level in a.subs
    requires sold.quantity > 0.0
    ensures LegOf(SellFill(a, u, sold, averagePrice, fullExit), t)
         == if t == u then SellLeg(LegOf(a, t), sold, averagePrice, fullExit, MayClose(a, u)) else LegOf(a, t)
  {
  }

  /* ---- Orders, and the book of one position ---- */

  /** What the exchange reports of an order: totals, the trades behind them, the average price and the status. */
  datatype Snapshot = Snapshot(gross: Amount, fills: seq<Fill>, averagePrice: real, status: Status)

  datatype Order = Order(side: Side, action: Action, level: nat, filledQuantity: real, accounted: Amount, status: Status)

  datatype Book = Book(account: Account, orders: seq<Order>)

  datatype Refusal = InvalidQuantity | NoOpenPosition | LevelRequired | NoOpenSubPosition | QuantityExceedsHolding

  predicate Working(s: Status) {
    s.Pending? || s.PartiallyFilled?
  }

  predicate OrdersPending(orders: seq<Order>) {
    exists i :: 0 <= i < |orders| && Working(orders[i].status)
  }

  /** The checks made before anything is claimed or sent. */
  function Refused(before: Option<Account>, side: Side, action: Action, level: nat, quantity: real): Option<Refusal> {
    if quantity <= 0.0 then Some(InvalidQuantity)
    else if action.IndependentExit? then
      if before.None? then Some(NoOpenPosition)
      else if level == 0 then Some(LevelRequired)
      else if level !in before.value.subs || !before.value.subs[level].open then Some(NoOpenSubPosition)
      else if quantity > before.value.subs[level].leg.quantity then Some(QuantityExceedsHolding)
      else None
    else if side.Sell? then
      if before.None? then Some(NoOpenPosition)
      else if quantity > before.value.parent.quantity then Some(QuantityExceedsHolding)
      else None
    else None
  }

  function OrderAfterSubmit(side: Side, action: Action, level: nat, snap: Snapshot): Order {
    Order(side, action, level, snap.gross.quantity, Net(snap.gross, side, snap.fills), snap.status)
  }

  /** The submit transaction on an accepted order. */
  function Booked(before: Option<Account>, side: Side, action: Action, level: nat, snap: Snapshot, ordersPending: bool): Account
    requires side.Sell? ==> before.Some?
    requires Independent(side, action) && side.Sell? ==> level in before.value.subs
  {
    var net := Net(snap.gross, side, snap.fills);
    match side
    case Sell => SellFill(before.value, TargetOf(Sell, action, level), net, snap.averagePrice, FullExit(action, snap.status))
    case Buy =>
      var a := SubmitBuy(before, action, level, net);
      if net.quantity <= 0.0 && Terminal(snap.status) then CloseIfEmpty(a, ordersPending) else a
  }

  /** A BUY with no open position opens one. */
  function Open(action: Action, level: nat, snap: Snapshot): Book {
    Book(Booked(None, Buy, action, level, snap, false), [OrderAfterSubmit(Buy, action, level, snap)])
  }

  /** A further order on the open position; a refused one changes nothing. */
  function Submit(b: Book, side: Side, action: Action, level: nat, quantity: real, snap: Snapshot): Book {
    if !b.account.open || Refused(Some(b.account), side, action, level, quantity).Some? then b
    else Book(Booked(Some(b.account), side, action, level, snap, OrdersPending(b.orders)),
              b.orders + [OrderAfterSubmit(side, action, level, snap)])
  }

  /** Fills are re-read only when the total has grown by more than dust; otherwise nothing is new. */
  function NetSeen(o: Order, snap: Snapshot): Amount {
    if snap.gross.quantity > o.filledQuantity + DUST then Net(snap.gross, o.side, snap.fills) else o.accounted
  }

  function Delta(o: Order, snap: Snapshot): Amount {
    Amount(Max(NetSeen(o, snap).quantity - o.accounted.quantity, 0.0), Max(NetSeen(o, snap).quote - o.accounted.quote, 0.0))
  }

  function OrderAfterSync(o: Order, snap: Snapshot): Order {
    var delta := Delta(o, snap);
    o.(filledQuantity := snap.gross.quantity, status := snap.status,
       accounted := Amount(o.accounted.quantity + delta.quantity, o.accounted.quote + delta.quote))
  }

  /** The sync transaction; None when it throws because the sub-position is missing. */
  function Synced(a: Account, o: Order, snap: Snapshot, ordersPending: bool): Option<Account> {
    var delta := Delta(o, snap);
    match o.side
    case Sell =>
      var t := TargetOf(Sell, o.action, o.level);
      if delta.quantity > 0.0 && t.SubLeg? && t.level !in a.subs then None
      else if delta.quantity <= 0.0 then Some(a)
      else Some(SellFill(a, t, delta, snap.averagePrice, FullExit(o.action, snap.status)))
    case Buy =>
      var bought := SyncBuy(a, o.action, o.level, o.accounted, delta);
      Some(if o.accounted.quantity + delta.quantity <= 0.0 && Terminal(snap.status)
           then CloseIfEmpty(bought, ordersPending) else bought)
  }

  function Sync(b: Book, i: nat, snap: Snapshot): Book
    requires i < |b.orders|
  {
    var o := OrderAfterSync(b.orders[i], snap);
    var orders := b.orders[i := o];
    match Synced(b.account, b.orders[i], snap, OrdersPending(orders))
    case None => b
    case Some(a) => Book(a, orders)
  }

  /* ---- Conservation of the cost basis ---- */

  /** Money an order has brought into (SELL) or taken out of (BUY) a leg. */
  function FlowOf(o: Order, t: Target): real {
    if t != TargetOf(o.side, o.action, o.level) then 0.0
    else if o.side.Sell? then o.accounted.quote else -o.accounted.quote
  }

  function Flow(orders: seq<Order>, t: Target): real {
    if orders == [] then 0.0 else Flow(orders[..|orders| - 1], t) + FlowOf(orders[|orders| - 1], t)
  }

  lemma FlowAppend(orders: seq<Order>, o: Order, t: Target)
    ensures Flow(orders + [o], t) == Flow(orders, t) + FlowOf(o, t)
  {
    assert (orders + [o])[..|orders|] == orders;
  }

  lemma {:induction false} FlowUpdate(orders: seq<Order>, i: nat, o: Order, t: Target)
    requires i < |orders|
    ensures Flow(orders[i := o], t) == Flow(orders, t) - FlowOf(orders[i], t) + FlowOf(o, t)
  {
    if i < |orders| - 1 {
      assert orders[i := o][..|orders| - 1] == orders[..|orders| - 1][i := o];
      FlowUpdate(orders[..|orders| - 1], i, o, t);
    } else {
      assert orders[i := o][..i] == orders[..i];
    }
  }

  /** For every leg: realised profit = sells - buys + remaining cost + the cost dust closes dropped. */
  ghost predicate Conserved(b: Book) {
    forall t: Target :: Balance(LegOf(b.account, t)) == Flow(b.orders, t)
  }

  /** Quantity and quote grew together: neither side of a trade is reported without the other. */
  predicate Joint(d: Amount) {
    d.quantity == 0.0 <==> d.quote == 0.0
  }

  lemma CloseIfEmptyMoves(a: Account, ordersPending: bool, t: Target)
    ensures LegOf(CloseIfEmpty(a, ordersPending), t) == LegOf(a, t)
  {
  }

  lemma SyncBuyLegs(a: Account, action: Action, level: nat, accounted: Amount, d: Amount, t: Target)
    requires Joint(d)
    ensures LegOf(SyncBuy(a, action, level, accounted, d), t)
         == if t == TargetOf(Buy, action, level) then BuyLeg(LegOf(a, t), d) else LegOf(a, t)
  {
    if d.quantity > 0.0 {
      SyncBuyMoves(a, action, level, accounted, d, t);
    } else {
      assert d == NOTHING && SyncBuy(a, action, level, accounted, d) == a;
      BuyNothing(LegOf(a, t));
      assert LegOf(SyncBuy(a, action, level, accounted, d), t) == BuyLeg(LegOf(a, t), d);
    }
  }

  lemma SyncBuyBalance(a: Account, action: Action, level: nat, accounted: Amount, d: Amount, t: Target)
    requires Joint(d)
    ensures Balance(LegOf(SyncBuy(a, action, level, accounted, d), t))
         == Balance(LegOf(a, t)) - if t == TargetOf(Buy, action, level) then d.quote else 0.0
  {
    hide SyncBuy;
    SyncBuyLegs(a, action, level, accounted, d, t);
  }

  lemma SellFillBalance(a: Account, u: Target, d: Amount, averagePrice: real, fullExit: bool, t: Target)
    requires Joint(d)
    requires u.SubLeg? ==> u.level in a.subs
    ensures Balance(LegOf(SellFill(a, u, d, averagePrice, fullExit), t))
         == Balance(LegOf(a, t)) + if t == u then d.quote else 0.0
  {
    hide Allocated, SellLeg, Closes, Sold, Balance, LegOf, MayClose;
    if d.quantity > 0.0 {
      hide SellFill;
      SellMoves(a, u, d, averagePrice, fullExit, t);
      SellLegBalance(LegOf(a, t), d, averagePrice, fullExit, MayClose(a, u));
    }
  }

  /** What a booked BUY does to every leg. */
  lemma BookedBuyMoves(before: Option<Account>, action: Action, level: nat, snap: Snapshot, pending: bool, t: Target)
    requires Joint(Net(snap.gross, Buy, snap.fills))
    ensures LegOf(Booked(before, Buy, action, level, snap, pending), t)
         == if t == TargetOf(Buy, action, level) then BuyLeg(LegBefore(before, t), Net(snap.gross, Buy, snap.fills))
            else LegBefore(before, t)
  {
    hide SubmitBuy, Net, CloseIfEmpty;
    var net := Net(snap.gross, Buy, snap.fills);
    SubmitBuyMoves(before, action, level, net, t);
    var bought := SubmitBuy(before, action, level, net);
    CloseIfEmptyMoves(bought, pending, t);
  }

  lemma BookedBuyBalance(before: Option<Account>, action: Action, level: nat, snap: Snapshot, pending: bool, t: Target)
    requires Joint(Net(snap.gross, Buy, snap.fills))
    ensures Balance(LegOf(Booked(before, Buy, action, level, snap, pending), t))
         == Balance(LegBefore(before, t)) + FlowOf(OrderAfterSubmit(Buy, action, level, snap), t)
  {
    hide Booked, Net, LegOf, LegBefore, Balance, BuyLeg, TargetOf;
    BookedBuyMoves(before, action, level, snap, pending, t);
    BuyLegBalance(LegBefore(before, t), Net(snap.gross, Buy, snap.fills));
  }

  lemma BookedSellBalance(a: Account, action: Action, level: nat, snap: Snapshot, pending: bool, t: Target)
    requires Independent(Sell, action) ==> level in a.subs
    requires Joint(Net(snap.gross, Sell, snap.fills))
    ensures Balance(LegOf(Booked(Some(a), Sell, action, level, snap, pending), t))
         == Balance(LegOf(a, t)) + FlowOf(OrderAfterSubmit(Sell, action, level, snap), t)
  {
    hide SellFill, Net, LegOf, Balance;
    SellFillBalance(a, TargetOf(Sell, action, level), Net(snap.gross, Sell, snap.fills), snap.averagePrice,
                    FullExit(action, snap.status), t);
  }

  /** An accepted independent exit finds its sub-position. */
  lemma AcceptedFindsLeg(a: Account, side: Side, action: Action, level: nat, quantity: real)
    requires Refused(Some(a), side, action, level, quantity).None?
    ensures side.Sell? && Independent(side, action) ==> level in a.subs
  {
  }

  lemma SubmitConserves(b: Book, side: Side, action: Action, level: nat, quantity: real, snap: Snapshot)
    requires Conserved(b)
    requires Joint(Net(snap.gross, side, snap.fills))
    ensures Conserved(Submit(b, side, action, level, quantity, snap))
  {
    hide Refused, Booked, Balance, LegOf, FlowOf, Flow, OrderAfterSubmit, OrdersPending, Joint, Net;
    if b.account.open && Refused(Some(b.account), side, action, level, quantity).None? {
      AcceptedFindsLeg(b.account, side, action, level, quantity);
      forall t: Target
        ensures Balance(LegOf(Submit(b, side, action, level, quantity, snap).account, t))
             == Flow(Submit(b, side, action, level, quantity, snap).orders, t)
      {
        if side.Buy? {
          BookedBuyBalance(Some(b.account), action, level, snap, OrdersPending(b.orders), t);
        } else {
          BookedSellBalance(b.account, action, level, snap, OrdersPending(b.orders), t);
        }
        FlowAppend(b.orders, OrderAfterSubmit(side, action, level, snap), t);
      }
    }
  }

  lemma OpenBalance(action: Action, level: nat, snap: Snapshot, t: Target)
    requires Joint(Net(snap.gross, Buy, snap.fills))
    ensures Balance(LegOf(Open(action, level, snap).account, t)) == Flow(Open(action, level, snap).orders, t)
  {
    var o := OrderAfterSubmit(Buy, action, level, snap);
    BookedBuyBalance(None, action, level, snap, false, t);
    FlowAppend([], o, t);
    assert [] + [o] == [o];
  }

  lemma OpenConserves(action: Action, level: nat, snap: Snapshot)
    requires Joint(Net(snap.gross, Buy, snap.fills))
    ensures Conserved(Open(action, level, snap))
  {
    forall t: Target
      ensures Balance(LegOf(Open(action, level, snap).account, t)) == Flow(Open(action, level, snap).orders, t)
    {
      OpenBalance(action, level, snap, t);
    }
  }

  lemma SyncedBalance(a: Account, o: Order, snap: Snapshot, pending: bool, t: Target)
    requires Joint(Delta(o, snap)) && Synced(a, o, snap, pending).Some?
    ensures Balance(LegOf(Synced(a, o, snap, pending).value, t))
         == Balance(LegOf(a, t)) - FlowOf(o, t) + FlowOf(OrderAfterSync(o, snap), t)
  {
    hide SyncBuy, SellFill, CloseIfEmpty, Delta, Balance, LegOf;
    var delta := Delta(o, snap);
    if o.side.Buy? {
      var bought := SyncBuy(a, o.action, o.level, o.accounted, delta);
      CloseIfEmptyMoves(bought, pending, t);
      SyncBuyBalance(a, o.action, o.level, o.accounted, delta, t);
    } else if delta.quantity > 0.0 {
      SellFillBalance(a, TargetOf(Sell, o.action, o.level), delta, snap.averagePrice, FullExit(o.action, snap.status), t);
    }
  }

  lemma SyncConserves(b: Book, i: nat, snap: Snapshot)
    requires i < |b.orders| && Conserved(b)
    requires Joint(Delta(b.orders[i], snap))
    ensures Conserved(Sync(b, i, snap))
  {
    hide Synced, Balance, LegOf, FlowOf, Flow, OrderAfterSync, OrdersPending, Joint, Delta;
    var orders := b.orders[i := OrderAfterSync(b.orders[i], snap)];
    if Synced(b.account, b.orders[i], snap, OrdersPending(orders)).Some? {
      forall t: Target ensures Balance(LegOf(Sync(b, i, snap).account, t)) == Flow(Sync(b, i, snap).orders, t) {
        SyncedBalance(b.account, b.orders[i], snap, OrdersPending(orders), t);
        FlowUpdate(b.orders, i, OrderAfterSync(b.orders[i], snap), t);
      }
    }
  }
}
