/**
 However an order's fills are split between the reply to the submit and later
 syncs, the position ends as if one reply had reported them all at once. The
 order counters do so exactly when the two code paths agree on the first fill.
 */
module FillPaths {
  import opened Reals
  import opened FillAccounting
  import opened FillRuns

  /** One look at an order of the exchange: how many of its trades are visible, and the reported status. */
  datatype Look = Look(seen: nat, averagePrice: real, status: Status)

  function Report(fills: Fills, look: Look): Snapshot
    requires look.seen <= |fills|
  {
    var seen := fills[..look.seen];
    GrossCovers(seen);
    Snapshot(Amount(Quantity(seen), Quote(seen)), seen, look.averagePrice, look.status)
  }

  /**
   Later looks see no fewer trades. `filled` says whether the exchange executes the order in full;
   FILLED is reported exactly when it has.
   */
  predicate Path(fills: Fills, filled: bool, path: seq<Look>) {
    && path != []
    && (forall i :: 0 <= i < |path| ==> path[i].seen <= |fills|)
    && (forall i, j :: 0 <= i < j < |path| ==> path[i].seen <= path[j].seen)
    && (forall i :: 0 <= i < |path| ==> (path[i].status.Filled? <==> filled && path[i].seen == |fills|))
  }

  datatype Request = Request(side: Side, action: Action, level: nat)

  /** The position an order is accepted on. */
  predicate Accepts(before: Option<Account>, r: Request) {
    && (r.side.Sell? ==> before.Some?)
    && (r.side.Sell? && Independent(r.side, r.action) ==> r.level in before.value.subs)
  }

  datatype Played = Played(account: Account, order: Order)

  function First(before: Option<Account>, r: Request, snap: Snapshot, pending: bool): Played
    requires Accepts(before, r)
  {
    Played(Booked(before, r.side, r.action, r.level, snap, pending), OrderAfterSubmit(r.side, r.action, r.level, snap))
  }

  function Next(p: Played, snap: Snapshot, pending: bool): Played {
    match Synced(p.account, p.order, snap, pending)
    case None => p
    case Some(a) => Played(a, OrderAfterSync(p.order, snap))
  }

  /** Submit at the first look, sync at each further one. */
  function Play(before: Option<Account>, r: Request, fills: Fills, filled: bool, path: seq<Look>, pending: bool): Played
    requires Accepts(before, r) && Path(fills, filled, path)
    decreases |path|
  {
    if |path| == 1 then First(before, r, Report(fills, path[0]), pending)
    else Next(Play(before, r, fills, filled, path[..|path| - 1], pending), Report(fills, path[|path| - 1]), pending)
  }

  /** One reply with everything the last look of the path sees. */
  function OneShot(before: Option<Account>, r: Request, fills: Fills, filled: bool, path: seq<Look>, pending: bool): Account
    requires Accepts(before, r) && Path(fills, filled, path)
  {
    First(before, r, Report(fills, path[|path| - 1]), pending).account
  }

  /** The order row after having seen k trades. */
  predicate OrderSaw(o: Order, r: Request, fills: Fills, k: nat)
    requires k <= |fills|
  {
    && o.side == r.side && o.action == r.action && o.level == r.level
    && o.filledQuantity == Quantity(fills[..k]) && o.accounted == NetAt(fills, r.side, k)
  }

  lemma NetAtNothing(fills: Fills, side: Side, k: nat)
    requires k <= |fills|
    ensures k == 0 ==> NetAt(fills, side, k) == NOTHING
    ensures k > 0 ==> NetAt(fills, side, k).quantity > 0.0 && NetAt(fills, side, k).quote > 0.0
    ensures side.Sell? && k > 0 ==> NetAt(fills, side, k).quantity > DUST
  {
    if k > 0 {
      NetGrows(fills, side, 0, k);
    }
  }

  /** A sync books exactly the net amount of the trades that are new to it. */
  lemma DeltaOfLook(o: Order, r: Request, fills: Fills, j: nat, look: Look)
    requires j <= look.seen <= |fills| && OrderSaw(o, r, fills, j)
    ensures OrderSaw(OrderAfterSync(o, Report(fills, look)), r, fills, look.seen)
    ensures Delta(o, Report(fills, look)).quantity == NetAt(fills, r.side, look.seen).quantity - NetAt(fills, r.side, j).quantity
    ensures Delta(o, Report(fills, look)).quote == NetAt(fills, r.side, look.seen).quote - NetAt(fills, r.side, j).quote
    ensures Joint(Delta(o, Report(fills, look)))
    ensures Delta(o, Report(fills, look)).quantity > 0.0 <==> j < look.seen
  {
    if j < look.seen {
      NetGrows(fills, r.side, j, look.seen);
    }
  }

  lemma PrefixPath(fills: Fills, filled: bool, path: seq<Look>)
    requires Path(fills, filled, path) && |path| > 1
    ensures Path(fills, filled, path[..|path| - 1])
    ensures path[|path| - 2].seen <= path[|path| - 1].seen
  {
  }

  /* ---- Buys ---- */

  /** After seeing k trades, the target leg has bought their net amount and no other leg has moved. */
  predicate Bought(p: Played, before: Option<Account>, r: Request, fills: Fills, k: nat, t: Target)
    requires k <= |fills|
  {
    && OrderSaw(p.order, r, fills, k)
    && LegOf(p.account, t) == if t == TargetOf(Buy, r.action, r.level)
                              then BuyLeg(LegBefore(before, t), NetAt(fills, Buy, k)) else LegBefore(before, t)
  }

  lemma FirstBuys(before: Option<Account>, r: Request, fills: Fills, look: Look, pending: bool, t: Target)
    requires r.side.Buy? && look.seen <= |fills|
    ensures Bought(First(before, r, Report(fills, look), pending), before, r, fills, look.seen, t)
  {
    NetAtNothing(fills, Buy, look.seen);
    BookedBuyMoves(before, r.action, r.level, Report(fills, look), pending, t);
  }

  lemma NextBuys(p: Played, before: Option<Account>, r: Request, fills: Fills, j: nat, look: Look, pending: bool, t: Target)
    requires r.side.Buy? && j <= look.seen <= |fills|
    requires Bought(p, before, r, fills, j, t)
    ensures Bought(Next(p, Report(fills, look), pending), before, r, fills, look.seen, t)
  {
    hide Report, OrderAfterSync, SyncBuy, CloseIfEmpty, NetAt, LegOf, LegBefore, Joint;
    DeltaOfLook(p.order, r, fills, j, look);
    var d := Delta(p.order, Report(fills, look));
    hide Delta;
    SyncBuyLegs(p.account, r.action, r.level, p.order.accounted, d, t);
    CloseIfEmptyMoves(SyncBuy(p.account, r.action, r.level, p.order.accounted, d), pending, t);
    BuyTwice(LegBefore(before, t), NetAt(fills, Buy, j), d);
  }

  lemma BuyTwice(l: Leg, x: Amount, y: Amount)
    ensures BuyLeg(BuyLeg(l, x), y) == BuyLeg(l, Amount(x.quantity + y.quantity, x.quote + y.quote))
  {
  }

  lemma {:induction false} BuyPathLeg(before: Option<Account>, r: Request, fills: Fills, filled: bool, path: seq<Look>,
                                      pending: bool, t: Target)
    requires r.side.Buy? && Path(fills, filled, path)
    ensures Bought(Play(before, r, fills, filled, path, pending), before, r, fills, path[|path| - 1].seen, t)
    decreases |path|
  {
    hide Bought, First, Next;
    var look := path[|path| - 1];
    if |path| == 1 {
      FirstBuys(before, r, fills, look, pending, t);
    } else {
      PrefixPath(fills, filled, path);
      BuyPathLeg(before, r, fills, filled, path[..|path| - 1], pending, t);
      var p := Play(before, r, fills, filled, path[..|path| - 1], pending);
      NextBuys(p, before, r, fills, path[|path| - 2].seen, look, pending, t);
    }
  }

  /** Every leg ends as if one reply had reported all the fills. */
  lemma BuyPathIndependent(before: Option<Account>, r: Request, fills: Fills, filled: bool, path: seq<Look>, pending: bool, t: Target)
    requires r.side.Buy? && Path(fills, filled, path)
    ensures LegOf(Play(before, r, fills, filled, path, pending).account, t)
         == LegOf(OneShot(before, r, fills, filled, path, pending), t)
  {
    BuyPathLeg(before, r, fills, filled, path, pending, t);
    FirstBuys(before, r, fills, path[|path| - 1], pending, t);
  }

  /* ---- Sells ---- */

  /** The same holdings at the same cost, and the same profit apart from what dust closes dropped. */
  predicate SameLeg(l: Leg, m: Leg) {
    l.quantity == m.quantity && l.cost == m.cost && l.realized - l.dropped == m.realized - m.dropped
  }

  /** Of quantity q and cost c, what is left when `sold` has gone. */
  function RestCost(c: real, q: real, sold: real): real {
    if q > 0.0 then c - c * sold / q else c
  }

  /** Selling x and then y leaves the cost that selling x + y at once leaves. */
  lemma RestCostTwice(c: real, q: real, x: real, y: real)
    requires q > 0.0 && 0.0 <= x < q && 0.0 <= y <= q - x
    ensures RestCost(RestCost(c, q, x), q - x, y) == RestCost(c, q, x + y)
  {
    RestShare(c, q, x);
    RestShare(c, q, x + y);
    RestShare(RestCost(c, q, x), q - x, y);
    var once, twice := RestCost(c, q, x + y), RestCost(RestCost(c, q, x), q - x, y);
    var part := RestCost(c, q, x);
    // twice * (q - x) == part * (q - x - y), part * q == c * (q - x), once * q == c * (q - x - y)
    SameProduct(twice, once, part, c, q, q - x, q - x - y);
  }

  lemma RestShare(c: real, q: real, sold: real)
    requires q > 0.0
    ensures RestCost(c, q, sold) * q == c * (q - sold)
  {
    QuotientTimes(c * sold, q);
    Distribute(c, c * sold / q, q);
  }

  lemma SameProduct(twice: real, once: real, part: real, c: real, q: real, rest: real, left: real)
    requires q > 0.0 && rest > 0.0
    requires twice * rest == part * left && part * q == c * rest && once * q == c * left
    ensures twice == once
  {
    TimesSame(twice * rest, part * left, q);
    TimesSame(part * q, c * rest, left);
    TimesSame(once * q, c * left, rest);
    assert (twice * q) * rest == (once * q) * rest;
    CancelFactor(twice * q, once * q, rest);
    CancelFactor(twice, once, q);
  }

  lemma TimesSame(x: real, y: real, z: real)
    requires x == y
    ensures x * z == y * z
  {
  }

  /** The holding of a leg, apart from its profit. */
  datatype Held = Held(quantity: real, cost: real)

  function HeldOf(l: Leg): Held {
    Held(l.quantity, l.cost)
  }

  function SellHeld(h: Held, sold: real, fullExit: bool, mayClose: bool): Held {
    var q := if fullExit then h.quantity else Min(sold, h.quantity);
    if h.quantity - q <= DUST && mayClose then Held(0.0, 0.0)
    else Held(h.quantity - q, RestCost(h.cost, h.quantity, q))
  }

  lemma RestIsUnallocated(l: Leg, q: real)
    requires 0.0 <= q <= l.quantity
    ensures RestCost(l.cost, l.quantity, q) == l.cost - Allocated(l, q)
  {
    if l.quantity > 0.0 {
      assert Allocated(l, q) == l.cost * q / l.quantity;
    }
  }

  lemma SellLegHeld(l: Leg, sold: Amount, price: real, fullExit: bool, mayClose: bool)
    ensures HeldOf(SellLeg(l, sold, price, fullExit, mayClose)) == SellHeld(HeldOf(l), sold.quantity, fullExit, mayClose)
  {
    hide Allocated, RestCost;
    if fullExit {
      RestIsUnallocated(l, l.quantity);
    } else {
      RestIsUnallocated(l, Min(sold.quantity, l.quantity));
    }
  }

  lemma RestOfAll(c: real, q: real)
    requires q > 0.0
    ensures RestCost(c, q, q) == 0.0
  {
    RestShare(c, q, q);
    CancelFactor(RestCost(c, q, q), 0.0, q);
  }

  /**
   Selling an amount in two reports leaves what one report of the whole leaves: also when the first
   report already closed the leg with some dust left over, because the second is more than dust.
   */
  lemma SellTwice(h: Held, x: real, y: real, fullExit: bool, mayClose: bool)
    requires h.quantity >= 0.0 && (h.quantity == 0.0 ==> h.cost == 0.0)
    requires x > 0.0 && y > DUST
    ensures SellHeld(SellHeld(h, x, false, mayClose), y, fullExit, mayClose) == SellHeld(h, x + y, fullExit, mayClose)
  {
    hide RestCost;
    var part := SellHeld(h, x, false, mayClose);
    if h.quantity == 0.0 {
      RestOfNothing(0.0);
    } else {
      RestOfAll(h.cost, h.quantity);
      RestOfNothing(0.0);
      if part.quantity > 0.0 {
        RestOfAll(part.cost, part.quantity);
        if y <= h.quantity - x {
          RestCostTwice(h.cost, h.quantity, x, y);
        }
      }
    }
  }

  lemma RestOfNothing(sold: real)
    ensures RestCost(0.0, 0.0, sold) == 0.0
  {
  }

  /** The exit order is completely executed once all its trades are seen. */
  predicate FullAt(r: Request, fills: Fills, filled: bool, k: nat) {
    (r.action.ParentExit? || r.action.IndependentExit?) && filled && k == |fills|
  }

  function SellTarget(r: Request): Target {
    TargetOf(Sell, r.action, r.level)
  }

  /** What every leg of the position holds after an order has been seen to sell k trades' worth. */
  predicate SoldLeg(l: Leg, was: Leg, r: Request, fills: Fills, filled: bool, k: nat, mayClose: bool, hit: bool)
    requires k <= |fills|
  {
    if !hit || k == 0 then l == was
    else
      && HeldOf(l) == SellHeld(HeldOf(was), NetAt(fills, Sell, k).quantity, FullAt(r, fills, filled, k), mayClose)
      && Balance(l) == Balance(was) + NetAt(fills, Sell, k).quote
  }

  predicate SoldUpTo(p: Played, a: Account, r: Request, fills: Fills, filled: bool, k: nat, t: Target)
    requires k <= |fills|
  {
    && OrderSaw(p.order, r, fills, k)
    && (SellTarget(r).SubLeg? ==> r.level in p.account.subs)
    && MayClose(p.account, SellTarget(r)) == MayClose(a, SellTarget(r))
    && SoldLeg(LegOf(p.account, t), LegOf(a, t), r, fills, filled, k, MayClose(a, SellTarget(r)), t == SellTarget(r))
  }

  lemma SellFillKeeps(a: Account, u: Target, sold: Amount, price: real, fullExit: bool)
    requires u.SubLeg? ==> u.level in a.subs
    ensures u.SubLeg? ==> u.level in SellFill(a, u, sold, price, fullExit).subs
    ensures MayClose(SellFill(a, u, sold, price, fullExit), u) == MayClose(a, u)
  {
  }

  lemma FirstSellLeg(l: Leg, sold: Amount, price: real, r: Request, fills: Fills, filled: bool, k: nat, mayClose: bool)
    requires 0 < k <= |fills| && sold == NetAt(fills, Sell, k)
    ensures SoldLeg(SellLeg(l, sold, price, FullAt(r, fills, filled, k), mayClose), l, r, fills, filled, k, mayClose, true)
  {
    hide SellLeg, SellHeld, NetAt;
    NetAtNothing(fills, Sell, k);
    SellLegHeld(l, sold, price, FullAt(r, fills, filled, k), mayClose);
    SellLegBalance(l, sold, price, FullAt(r, fills, filled, k), mayClose);
  }

  lemma NextSellLeg(l: Leg, was: Leg, rest: Amount, price: real, r: Request, fills: Fills, filled: bool, j: nat, k: nat, mayClose: bool)
    requires j < k <= |fills| && SoundLeg(was)
    requires SoldLeg(l, was, r, fills, filled, j, mayClose, true)
    requires rest.quantity == NetAt(fills, Sell, k).quantity - NetAt(fills, Sell, j).quantity
    requires rest.quote == NetAt(fills, Sell, k).quote - NetAt(fills, Sell, j).quote
    ensures SoldLeg(SellLeg(l, rest, price, FullAt(r, fills, filled, k), mayClose), was, r, fills, filled, k, mayClose, true)
  {
    NetAtNothing(fills, Sell, j);
    if j == 0 {
      assert rest == NetAt(fills, Sell, k);
      FirstSellLeg(l, rest, price, r, fills, filled, k, mayClose);
    } else {
      hide SellLeg, SellHeld, NetAt;
      NetGrows(fills, Sell, j, k);
      SellLegHeld(l, rest, price, FullAt(r, fills, filled, k), mayClose);
      SellLegBalance(l, rest, price, FullAt(r, fills, filled, k), mayClose);
      SellTwice(HeldOf(was), NetAt(fills, Sell, j).quantity, rest.quantity, FullAt(r, fills, filled, k), mayClose);
    }
  }

  lemma FirstSellIs(a: Account, r: Request, fills: Fills, look: Look, pending: bool)
    requires r.side.Sell? && Accepts(Some(a), r) && look.seen <= |fills|
    ensures First(Some(a), r, Report(fills, look), pending).account
         == SellFill(a, SellTarget(r), NetAt(fills, Sell, look.seen), look.averagePrice, FullExit(r.action, look.status))
  {
    hide SellFill;
  }

  lemma FirstSells(a: Account, r: Request, fills: Fills, filled: bool, look: Look, pending: bool, t: Target)
    requires r.side.Sell? && Accepts(Some(a), r) && look.seen <= |fills|
    requires look.status.Filled? <==> filled && look.seen == |fills|
    ensures SoldUpTo(First(Some(a), r, Report(fills, look), pending), a, r, fills, filled, look.seen, t)
  {
    hide First, OrderSaw, SellFill, SellLeg, SoldLeg, LegOf, NetAt, MayClose, Report;
    var net := NetAt(fills, Sell, look.seen);
    var fullExit := FullExit(r.action, look.status);
    NetAtNothing(fills, Sell, look.seen);
    FirstSellIs(a, r, fills, look, pending);
    SellFillKeeps(a, SellTarget(r), net, look.averagePrice, fullExit);
    if look.seen > 0 {
      SellMovesTo(a, SellTarget(r), net, look.averagePrice, fullExit, t);
      FirstSellLeg(LegOf(a, t), net, look.averagePrice, r, fills, filled, look.seen, MayClose(a, SellTarget(r)));
    } else {
      SellNothing(a, SellTarget(r), look.averagePrice, fullExit);
    }
    UnsoldLeg(LegOf(a, t), r, fills, filled, look.seen, MayClose(a, SellTarget(r)), t == SellTarget(r));
    FirstSaw(a, r, fills, look, pending);
  }

  lemma UnsoldLeg(l: Leg, r: Request, fills: Fills, filled: bool, k: nat, mayClose: bool, hit: bool)
    requires k <= |fills|
    ensures !hit || k == 0 ==> SoldLeg(l, l, r, fills, filled, k, mayClose, hit)
  {
  }

  lemma FirstSaw(a: Account, r: Request, fills: Fills, look: Look, pending: bool)
    requires Accepts(Some(a), r) && look.seen <= |fills|
    ensures OrderSaw(First(Some(a), r, Report(fills, look), pending).order, r, fills, look.seen)
  {
    hide Booked;
  }

  lemma SellNothing(a: Account, u: Target, price: real, fullExit: bool)
    requires u.SubLeg? ==> u.level in a.subs
    ensures SellFill(a, u, NOTHING, price, fullExit) == a
  {
  }

  lemma SellMovesTo(a: Account, u: Target, sold: Amount, price: real, fullExit: bool, t: Target)
    requires u.SubLeg? ==> u.level in a.subs
    requires sold.quantity > 0.0
    ensures LegOf(SellFill(a, u, sold, price, fullExit), t)
         == if t == u then SellLeg(LegOf(a, t), sold, price, fullExit, MayClose(a, u)) else LegOf(a, t)
  {
    hide SellFill, SellLeg;
    SellMoves(a, u, sold, price, fullExit, t);
  }

  lemma NextSells(p: Played, a: Account, r: Request, fills: Fills, filled: bool, j: nat, look: Look, pending: bool, t: Target)
    requires r.side.Sell? && j <= look.seen <= |fills| && SoundLeg(LegOf(a, t))
    requires look.status.Filled? <==> filled && look.seen == |fills|
    requires SoldUpTo(p, a, r, fills, filled, j, t)
    ensures SoldUpTo(Next(p, Report(fills, look), pending), a, r, fills, filled, look.seen, t)
  {
    hide SellFill, SellLeg, NetAt, MayClose, Delta, Report, OrderAfterSync;
    var snap := Report(fills, look);
    var rest := Delta(p.order, snap);
    var fullExit := FullExit(r.action, look.status);
    DeltaOfLook(p.order, r, fills, j, look);
    ReportReads(fills, look);
    if j < look.seen {
      SellFillKeeps(p.account, SellTarget(r), rest, look.averagePrice, fullExit);
      SellMovesTo(p.account, SellTarget(r), rest, look.averagePrice, fullExit, t);
      if t == SellTarget(r) {
        NextSellLeg(LegOf(p.account, t), LegOf(a, t), rest, look.averagePrice, r, fills, filled, j, look.seen,
                    MayClose(a, SellTarget(r)));
      }
    }
  }

  lemma ReportReads(fills: Fills, look: Look)
    requires look.seen <= |fills|
    ensures Report(fills, look).averagePrice == look.averagePrice && Report(fills, look).status == look.status
  {
  }

  lemma {:induction false} SellPathLeg(a: Account, r: Request, fills: Fills, filled: bool, path: seq<Look>, pending: bool, t: Target)
    requires r.side.Sell? && Accepts(Some(a), r) && Path(fills, filled, path) && SoundLeg(LegOf(a, t))
    ensures SoldUpTo(Play(Some(a), r, fills, filled, path, pending), a, r, fills, filled, path[|path| - 1].seen, t)
    decreases |path|
  {
    hide SoldUpTo, First, Next, SoundLeg;
    var look := path[|path| - 1];
    if |path| == 1 {
      FirstSells(a, r, fills, filled, look, pending, t);
    } else {
      PrefixPath(fills, filled, path);
      SellPathLeg(a, r, fills, filled, path[..|path| - 1], pending, t);
      var p := Play(Some(a), r, fills, filled, path[..|path| - 1], pending);
      NextSells(p, a, r, fills, filled, path[|path| - 2].seen, look, pending, t);
    }
  }

  /** Every leg ends with the holdings, cost and profit of one reply, up to what dust closes dropped on the way. */
  lemma SellPathIndependent(a: Account, r: Request, fills: Fills, filled: bool, path: seq<Look>, pending: bool, t: Target)
    requires r.side.Sell? && Accepts(Some(a), r) && Path(fills, filled, path) && SoundLeg(LegOf(a, t))
    ensures SameLeg(LegOf(Play(Some(a), r, fills, filled, path, pending).account, t),
                    LegOf(OneShot(Some(a), r, fills, filled, path, pending), t))
  {
    hide Play, First, MayClose, SellHeld, NetAt;
    SellPathLeg(a, r, fills, filled, path, pending, t);
    FirstSells(a, r, fills, filled, path[|path| - 1], pending, t);
  }

  /* ---- What dust closes may drop ---- */

  /** A leg after any number of sells: cost in proportion, and never more dropped than the price of one dust quantity. */
  predicate DropsDust(l: Leg, was: Leg) {
    && l.cost * was.quantity == was.cost * l.quantity
    && 0.0 <= (l.dropped - was.dropped) * was.quantity <= was.cost * DUST
    && (l.dropped != was.dropped ==> l.quantity == 0.0)
  }

  lemma SellDropsDust(l: Leg, was: Leg, sold: Amount, price: real, fullExit: bool, mayClose: bool)
    requires was.quantity > 0.0 && DropsDust(l, was)
    ensures DropsDust(SellLeg(l, sold, price, fullExit, mayClose), was)
  {
    hide Allocated, DropsDust;
    var q := Sold(l, sold, fullExit);
    var rest, left := l.cost - Allocated(l, q), l.quantity - q;
    Distribute(l.cost, Allocated(l, q), l.quantity);
    RestDropsDust(l, was, rest, left, SellLeg(l, sold, price, fullExit, mayClose), Closes(l, sold, fullExit, mayClose));
  }

  lemma RestDropsDust(l: Leg, was: Leg, rest: real, left: real, after: Leg, closed: bool)
    requires was.quantity > 0.0 && DropsDust(l, was)
    requires rest >= 0.0 && left >= 0.0 && (l.quantity > 0.0 ==> rest * l.quantity == l.cost * left)
    requires l.quantity == 0.0 ==> rest == l.cost && left == 0.0
    requires closed ==> left <= DUST && after.quantity == 0.0 && after.cost == 0.0 && after.dropped == l.dropped + rest
    requires !closed ==> after.quantity == left && after.cost == rest && after.dropped == l.dropped
    ensures DropsDust(after, was)
  {
    if l.quantity > 0.0 {
      Proportion(rest, left, l.cost, l.quantity, was.cost, was.quantity);
      if closed { ClosedDropsDust(l, was, rest, left, after); }
    } else {
      CancelFactor(l.cost, 0.0, was.quantity);
    }
  }

  lemma ClosedDropsDust(l: Leg, was: Leg, rest: real, left: real, after: Leg)
    requires l.quantity > 0.0 && DropsDust(l, was) && rest >= 0.0 && rest * was.quantity == was.cost * left && left <= DUST
    requires after.quantity == 0.0 && after.cost == 0.0 && after.dropped == l.dropped + rest
    ensures DropsDust(after, was)
  {
    DropBounds(rest, left, was);
    assert after.dropped - was.dropped == rest;
  }

  lemma DropBounds(rest: real, left: real, was: Leg)
    requires rest >= 0.0 && rest * was.quantity == was.cost * left && left <= DUST
    ensures 0.0 <= rest * was.quantity <= was.cost * DUST
  {
    ProductMonotone(left, DUST, was.cost);
    ProductNonNegative(rest, was.quantity);
  }

  lemma Proportion(rest: real, left: real, cost: real, quantity: real, wasCost: real, wasQuantity: real)
    requires quantity > 0.0
    requires rest * quantity == cost * left && cost * wasQuantity == wasCost * quantity
    ensures rest * wasQuantity == wasCost * left
  {
    TimesSame(rest * quantity, cost * left, wasQuantity);
    TimesSame(cost * wasQuantity, wasCost * quantity, left);
    assert (rest * wasQuantity) * quantity == (wasCost * left) * quantity;
    CancelFactor(rest * wasQuantity, wasCost * left, quantity);
  }

  /** So the profit of a split exit differs from that of one reply by at most the cost of a dust quantity. */
  lemma {:induction false} SellPathDropsDust(a: Account, r: Request, fills: Fills, filled: bool, path: seq<Look>, pending: bool, t: Target)
    requires r.side.Sell? && Accepts(Some(a), r) && Path(fills, filled, path) && LegOf(a, t).quantity > 0.0
    ensures DropsDust(LegOf(Play(Some(a), r, fills, filled, path, pending).account, t), LegOf(a, t))
    ensures SellTarget(r).SubLeg? ==> r.level in Play(Some(a), r, fills, filled, path, pending).account.subs
    ensures var o := Play(Some(a), r, fills, filled, path, pending).order;
            o.side == r.side && o.action == r.action && o.level == r.level
    decreases |path|
  {
    hide SellLeg, DropsDust, Report, Delta, Net, SellFill;
    var look := path[|path| - 1];
    NothingDropped(LegOf(a, t));
    if |path| == 1 {
      SellFillDropsDust(a, SellTarget(r), Net(Report(fills, look).gross, Sell, Report(fills, look).fills), Report(fills, look).averagePrice,
                        FullExit(r.action, Report(fills, look).status), LegOf(a, t), t);
    } else {
      PrefixPath(fills, filled, path);
      SellPathDropsDust(a, r, fills, filled, path[..|path| - 1], pending, t);
      var p := Play(Some(a), r, fills, filled, path[..|path| - 1], pending);
      SellFillDropsDust(p.account, SellTarget(r), Delta(p.order, Report(fills, look)), Report(fills, look).averagePrice,
                        FullExit(r.action, Report(fills, look).status), LegOf(a, t), t);
    }
  }

  lemma NothingDropped(l: Leg)
    ensures DropsDust(l, l)
  {
    ProductNonNegative(l.cost, DUST);
  }

  lemma SellFillDropsDust(a: Account, u: Target, sold: Amount, price: real, fullExit: bool, was: Leg, t: Target)
    requires u.SubLeg? ==> u.level in a.subs
    requires was.quantity > 0.0 && DropsDust(LegOf(a, t), was)
    ensures DropsDust(LegOf(SellFill(a, u, sold, price, fullExit), t), was)
    ensures u.SubLeg? ==> u.level in SellFill(a, u, sold, price, fullExit).subs
  {
    hide DropsDust;
    SellFillKeeps(a, u, sold, price, fullExit);
    if sold.quantity > 0.0 {
      hide SellLeg, SellFill;
      SellMovesTo(a, u, sold, price, fullExit, t);
      SellDropsDust(LegOf(a, t), was, sold, price, fullExit, MayClose(a, u));
    }
  }
}
