/**
 Counting entries. The submit and the sync code decide differently whether a
 first fill advances `dcaCount` or `recoveryDcaCount`, so for the counters it
 can matter whether the first fill was already in the reply to the submit.
 */
module FillCounters {
  import opened Reals
  import opened FillAccounting
  import opened FillRuns
  import opened FillPaths

  datatype Counters = Counters(dca: nat, recovery: nat)

  function CountersOf(a: Account): Counters {
    Counters(a.dcaCount, a.recoveryDcaCount)
  }

  /** The position while nothing of the entry has been filled. */
  function Unfilled(before: Option<Account>): Account {
    match before
    case None => Opened(EMPTY)
    case Some(a) => a
  }

  /** The counters when the reply to the submit already reports a fill. */
  function SubmitCounters(before: Option<Account>, action: Action, level: nat): Counters {
    var was := CountersOf(Unfilled(before));
    if action.IndependentEntry? then
      if level !in Unfilled(before).subs && level == was.dca + 2 then Counters(was.dca + 1, was.recovery) else was
    else if before.None? then was
    else if action.RecoveryEntry? then Counters(was.dca, was.recovery + 1)
    else Counters(was.dca + 1, was.recovery)
  }

  /** The counters when a sync reports the first fill. */
  function SyncCounters(before: Option<Account>, action: Action, level: nat): Counters {
    var was := CountersOf(Unfilled(before));
    if action.IndependentEntry? then if level == was.dca + 2 then Counters(was.dca + 1, was.recovery) else was
    else if action.RecoveryEntry? then Counters(was.dca, was.recovery + 1)
    else if TakenForInitial(Unfilled(before), action) then was
    else Counters(was.dca + 1, was.recovery)
  }

  /**
   The condition under which both agree: an opening entry is no recovery leg; on an open position an
   entry is not an INITIAL_ENTRY, a DCA entry finds a parent that holds something, and an independent
   entry at the expected next level has no earlier sub-position of that level.
   */
  predicate CountsAlike(before: Option<Account>, action: Action, level: nat) {
    match before
    case None => !action.RecoveryEntry?
    case Some(a) =>
      match action
      case InitialEntry => false
      case RecoveryEntry => true
      case IndependentEntry => !(level in a.subs && level == a.dcaCount + 2)
      case _ => !(a.parent.quantity == 0.0 && a.parent.cost == 0.0)
  }

  lemma AlikeExactly(before: Option<Account>, action: Action, level: nat)
    ensures SubmitCounters(before, action, level) == SyncCounters(before, action, level) <==> CountsAlike(before, action, level)
  {
  }

  /** When they agree, a filled entry on an open position advances its own counter by one and the other not at all. */
  lemma AdvancesOnce(a: Account, action: Action, level: nat)
    requires CountsAlike(Some(a), action, level)
    requires action.IndependentEntry? ==> level == a.dcaCount + 2
    ensures SyncCounters(Some(a), action, level)
         == if action.RecoveryEntry? then Counters(a.dcaCount, a.recoveryDcaCount + 1)
            else Counters(a.dcaCount + 1, a.recoveryDcaCount)
  {
  }

  /* ---- Counters along a path of reports ---- */

  /** The counters after k trades have been seen, the first `first` of them in the reply to the submit. */
  predicate Counted(p: Played, before: Option<Account>, r: Request, fills: Fills, first: nat, k: nat)
    requires k <= |fills|
  {
    && OrderSaw(p.order, r, fills, k)
    && (k == 0 ==> p.account.(open := true) == Unfilled(before).(open := true))
    && (k > 0 ==> CountersOf(p.account) == if first > 0 then SubmitCounters(before, r.action, r.level)
                                           else SyncCounters(before, r.action, r.level))
  }

  lemma SubmitBuyCounts(before: Option<Account>, action: Action, level: nat, net: Amount)
    requires Joint(net)
    ensures net.quantity > 0.0 ==> CountersOf(SubmitBuy(before, action, level, net)) == SubmitCounters(before, action, level)
    ensures net.quantity == 0.0 ==> SubmitBuy(before, action, level, net) == Unfilled(before)
  {
    if net.quantity == 0.0 {
      hide SubmitBuy, Unfilled;
      assert net == NOTHING;
      NoFillKeeps(before, action, level);
    } else if action.IndependentEntry? {
      assert SubmitParentBuy(before, action, net) == Unfilled(before);
      hide SubmitParentBuy, Unfilled;
      SubBuyCounts(Unfilled(before), level, net);
    } else {
      hide BuyLeg;
    }
  }

  lemma NoFillKeeps(before: Option<Account>, action: Action, level: nat)
    ensures SubmitBuy(before, action, level, NOTHING) == Unfilled(before)
  {
    hide SubmitParentBuy, BuyLeg, Opened;
    NoFillOpens(before, action);
  }

  lemma NoFillOpens(before: Option<Account>, action: Action)
    ensures SubmitParentBuy(before, action, NOTHING) == Unfilled(before)
  {
  }

  lemma SubBuyCounts(a: Account, level: nat, net: Amount)
    ensures CountersOf(SubmitSubBuy(a, level, net))
         == if level !in a.subs && level == a.dcaCount + 2 then Counters(a.dcaCount + 1, a.recoveryDcaCount) else CountersOf(a)
  {
  }

  lemma FirstCounts(before: Option<Account>, r: Request, fills: Fills, look: Look, pending: bool)
    requires r.side.Buy? && look.seen <= |fills|
    ensures Counted(First(before, r, Report(fills, look), pending), before, r, fills, look.seen, look.seen)
  {
    hide SubmitBuy, SubmitCounters, Net;
    NetAtNothing(fills, Buy, look.seen);
    SubmitBuyCounts(before, r.action, r.level, NetAt(fills, Buy, look.seen));
  }

  lemma NextCounts(p: Played, before: Option<Account>, r: Request, fills: Fills, first: nat, j: nat, look: Look, pending: bool)
    requires r.side.Buy? && first <= j <= look.seen <= |fills|
    requires Counted(p, before, r, fills, first, j)
    ensures Counted(Next(p, Report(fills, look), pending), before, r, fills, first, look.seen)
  {
    hide Report, Delta, OrderAfterSync, SyncBuy, SubmitCounters, SyncCounters;
    DeltaOfLook(p.order, r, fills, j, look);
    NetAtNothing(fills, Buy, j);
    SyncBuyCounts(p.account, before, r.action, r.level, p.order.accounted, Delta(p.order, Report(fills, look)));
  }

  lemma SyncBuyCounts(a: Account, before: Option<Account>, action: Action, level: nat, accounted: Amount, d: Amount)
    ensures d.quantity == 0.0 ==> SyncBuy(a, action, level, accounted, d) == a
    ensures d.quantity > 0.0 && accounted.quantity != 0.0 ==>
              CountersOf(SyncBuy(a, action, level, accounted, d)) == CountersOf(a)
    ensures d.quantity > 0.0 && accounted.quantity == 0.0 && a.(open := true) == Unfilled(before).(open := true) ==>
              CountersOf(SyncBuy(a, action, level, accounted, d)) == SyncCounters(before, action, level)
  {
  }

  lemma {:induction false} PathCounts(before: Option<Account>, r: Request, fills: Fills, filled: bool, path: seq<Look>, pending: bool)
    requires r.side.Buy? && Path(fills, filled, path)
    ensures Counted(Play(before, r, fills, filled, path, pending), before, r, fills, path[0].seen, path[|path| - 1].seen)
    decreases |path|
  {
    hide Counted, First, Next;
    var look := path[|path| - 1];
    if |path| == 1 {
      FirstCounts(before, r, fills, look, pending);
    } else {
      PrefixPath(fills, filled, path);
      PathCounts(before, r, fills, filled, path[..|path| - 1], pending);
      var p := Play(before, r, fills, filled, path[..|path| - 1], pending);
      NextCounts(p, before, r, fills, path[0].seen, path[|path| - 2].seen, look, pending);
    }
  }

  /**
   Once an entry has filled at all, splitting its fills over several reports leaves the counters of one
   reply exactly when the first report had a fill already, or the two code paths count alike.
   */
  lemma CountersPathIndependent(before: Option<Account>, r: Request, fills: Fills, filled: bool, path: seq<Look>, pending: bool)
    requires r.side.Buy? && Path(fills, filled, path) && path[|path| - 1].seen > 0
    ensures CountersOf(Play(before, r, fills, filled, path, pending).account)
              == CountersOf(OneShot(before, r, fills, filled, path, pending))
       <==> path[0].seen > 0 || CountsAlike(before, r.action, r.level)
  {
    hide Play, First, SubmitCounters, SyncCounters, CountsAlike;
    PathCounts(before, r, fills, filled, path, pending);
    FirstCounts(before, r, fills, path[|path| - 1], pending);
    AlikeExactly(before, r.action, r.level);
  }

  /* ---- A run on which they count differently ---- */

  /** One coin bought or sold for a price, without commission. */
  function OneCoin(price: real): Snapshot
    requires price > 0.0
  {
    Snapshot(Amount(1.0, price), [], price, Filled)
  }

  /** The initial entry fills, then an independent one, and then the parent is sold at its take profit. */
  function ParentSoldOut(): Book {
    Run(Open(InitialEntry, 1, OneCoin(10.0)),
        [SubmitEvent(Buy, IndependentEntry, 2, 1.0, OneCoin(9.0))] + [SubmitEvent(Sell, ParentExit, 2, 1.0, OneCoin(11.0))])
  }

  lemma CoinIsNet(price: real, side: Side)
    requires price > 0.0
    ensures Net(OneCoin(price).gross, side, OneCoin(price).fills) == Amount(1.0, price)
  {
  }

  lemma SellTheCoin()
    ensures SellLeg(Leg(1.0, 10.0, 0.0, 0.0), Amount(1.0, 11.0), 11.0, true, false) == Leg(0.0, 0.0, 1.0, 0.0)
  {
    hide Allocated;
  }

  lemma InitialFills()
    ensures Open(InitialEntry, 1, OneCoin(10.0))
         == Book(Opened(Leg(1.0, 10.0, 0.0, 0.0)), [Order(Buy, InitialEntry, 1, 1.0, Amount(1.0, 10.0), Filled)])
  {
    CoinIsNet(10.0, Buy);
    hide Net;
  }

  lemma IndependentFills(b: Book)
    requires b.account == Opened(Leg(1.0, 10.0, 0.0, 0.0))
    ensures Submit(b, Buy, IndependentEntry, 2, 1.0, OneCoin(9.0)).account
         == Account(true, Leg(1.0, 10.0, 0.0, 0.0), 1, 0, map[2 := SubPosition(true, Leg(1.0, 9.0, 0.0, 0.0))])
  {
    CoinIsNet(9.0, Buy);
    hide Net, OrdersPending, OrderAfterSubmit;
  }

  lemma ParentSells(b: Book)
    requires b.account == Account(true, Leg(1.0, 10.0, 0.0, 0.0), 1, 0, map[2 := SubPosition(true, Leg(1.0, 9.0, 0.0, 0.0))])
    ensures Submit(b, Sell, ParentExit, 2, 1.0, OneCoin(11.0)).account
         == Account(true, Leg(0.0, 0.0, 1.0, 0.0), 1, 0, map[2 := SubPosition(true, Leg(1.0, 9.0, 0.0, 0.0))])
  {
    CoinIsNet(11.0, Sell);
    assert HasOpenSub(b.account) by { assert b.account.subs[2].open; }
    SellTheCoin();
    hide Net, OrdersPending, OrderAfterSubmit, SellLeg, HasOpenSub;
  }

  lemma ParentSoldOutIs()
    ensures ParentSoldOut().account
         == Account(true, Leg(0.0, 0.0, 1.0, 0.0), 1, 0, map[2 := SubPosition(true, Leg(1.0, 9.0, 0.0, 0.0))])
  {
    hide Submit, Open;
    var b := Open(InitialEntry, 1, OneCoin(10.0));
    var e1, e2 := SubmitEvent(Buy, IndependentEntry, 2, 1.0, OneCoin(9.0)), SubmitEvent(Sell, ParentExit, 2, 1.0, OneCoin(11.0));
    InitialFills();
    IndependentFills(b);
    ParentSells(Apply(b, e1));
    assert [e1][..0] == [] && ([e1] + [e2])[..1] == [e1];
    assert Run(b, []) == b && Run(b, [e1]) == Apply(b, e1);
  }

  /**
   There an operator's own BUY, which belongs to no action, is counted when its only fill is in the reply,
   and not counted when the fill is first seen by a sync.
   */
  lemma LateFillOnEmptyParent(fills: Fills, pending: bool)
    requires |fills| == 1
    ensures var a := Some(ParentSoldOut().account);
            var r := Request(Buy, NoAction, 0);
            var late := [Look(0, 0.0, Pending), Look(1, 0.0, Filled)];
            && Path(fills, true, late)
            && CountersOf(OneShot(a, r, fills, true, late, pending)) == Counters(2, 0)
            && CountersOf(Play(a, r, fills, true, late, pending).account) == Counters(1, 0)
  {
    ParentSoldOutIs();
    hide Play, First, ParentSoldOut;
    var a := Some(ParentSoldOut().account);
    var r := Request(Buy, NoAction, 0);
    var late := [Look(0, 0.0, Pending), Look(1, 0.0, Filled)];
    PathCounts(a, r, fills, true, late, pending);
    FirstCounts(a, r, fills, late[1], pending);
  }
}
