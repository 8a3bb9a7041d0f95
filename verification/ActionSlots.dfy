/** A ladder or recovery slot is filled at most once, as long as operators only cancel actions that can no longer fill. */
module ActionSlots {
  import opened ActionProtocol
  import opened ActionSafety

  /** The exchange has ended the key's order without any fill; nothing can change that any more. */
  ghost predicate Dead(w: World, key: Key) {
    exists i :: 0 <= i < |w.exchange| && DeadOrder(w.exchange, i, key)
  }

  ghost predicate DeadOrder(exchange: seq<Order>, i: nat, key: Key)
    requires i < |exchange|
  {
    exchange[i].key == key && exchange[i].state.Ended? && exchange[i].filled == 0.0
  }

  /** Cancelled before any order went out, and in nobody's hands: nothing can place an order under the key again. */
  ghost predicate Void(w: World, key: Key) {
    key in w.rows && w.rows[key].status.Cancelled? && Unattended(w, key) && !Known(w, key)
  }

  /** The attempt is over and has no fill. */
  ghost predicate Spent(w: World, key: Key) {
    Dead(w, key) || Void(w, key)
  }

  /** Attempt n + 1 was only claimed after attempt n was spent. */
  ghost predicate Successor(w: World, key: Key) {
    key.attempt >= 1 && (key.attempt > 1 ==> Key(key.slot, key.attempt - 1) in w.rows && Spent(w, Key(key.slot, key.attempt - 1)))
  }

  ghost predicate Chained(w: World) {
    forall k :: k in w.rows ==> Successor(w, k)
  }

  ghost predicate CancelledAreSpent(w: World) {
    forall k :: k in w.rows && w.rows[k].status.Cancelled? ==> Spent(w, k)
  }

  /** What a worker knows stays true: a dead order it is about to save, or a count of spent attempts. */
  ghost predicate WellInformed(w: World, x: nat)
    requires x in w.workers
  {
    match w.workers[x].at
    case Saving(i, state, filled) => state.Ended? && filled == 0.0 ==> Dead(w, w.workers[x].key)
    case Counted(c) => c > 0 ==> CountHolds(w, w.workers[x].key.slot, c)
    case _ => true
  }

  /** The slot has c attempts, all spent, or one more. */
  ghost predicate CountHolds(w: World, slot: nat, c: nat) {
    Key(slot, c) in w.rows && (Spent(w, Key(slot, c)) || Key(slot, c + 1) in w.rows)
  }

  ghost predicate AllInformed(w: World) {
    forall x :: x in w.workers ==> WellInformed(w, x)
  }

  ghost predicate CancelledInSlotAreSpent(w: World, slot: nat) {
    forall k :: k in w.rows && k.slot == slot && w.rows[k].status.Cancelled? ==> Spent(w, k)
  }

  ghost predicate SlotInv(w: World) {
    Chained(w) && CancelledAreSpent(w) && AllInformed(w)
  }

  /** The theorem's conclusion. */
  ghost predicate SlotsFilledOnce(w: World) {
    forall i, j :: 0 <= i < j < |w.exchange| && w.exchange[i].filled != 0.0 && w.exchange[j].filled != 0.0 ==>
      w.exchange[i].key.slot != w.exchange[j].key.slot
  }

  /* ---- From the invariant to the theorem ---- */

  lemma {:induction false} EarlierAttemptsSpent(w: World, slot: nat, n: nat, m: nat)
    requires Chained(w) && Key(slot, m) in w.rows && 1 <= n < m
    ensures Spent(w, Key(slot, n))
  {
    assert Successor(w, Key(slot, m));
    if n < m - 1 {
      EarlierAttemptsSpent(w, slot, n, m - 1);
    }
  }

  lemma FilledIsNotSpent(w: World, i: nat)
    requires OneOrderPerKey(w.exchange) && i < |w.exchange| && w.exchange[i].filled != 0.0
    ensures !Spent(w, w.exchange[i].key)
  {
    forall j | 0 <= j < |w.exchange| ensures !DeadOrder(w.exchange, j, w.exchange[i].key) {
      if i < j { assert w.exchange[i].key != w.exchange[j].key; }
      if j < i { assert w.exchange[j].key != w.exchange[i].key; }
    }
  }

  lemma OnlyOneAttemptFills(w: World)
    requires Safe(w) && Chained(w)
    ensures SlotsFilledOnce(w)
  {
    forall i, j | 0 <= i < j < |w.exchange| && w.exchange[i].filled != 0.0 && w.exchange[j].filled != 0.0
      ensures w.exchange[i].key.slot != w.exchange[j].key.slot
    {
      var a, b := w.exchange[i].key, w.exchange[j].key;
      assert a in w.rows && b in w.rows && a != b;
      assert Successor(w, a) && Successor(w, b);
      FilledIsNotSpent(w, i);
      FilledIsNotSpent(w, j);
      if a.slot == b.slot {
        if a.attempt < b.attempt {
          EarlierAttemptsSpent(w, a.slot, a.attempt, b.attempt);
        } else {
          EarlierAttemptsSpent(w, a.slot, b.attempt, a.attempt);
        }
        assert false;
      }
    }
  }

  /* ---- Counting cancelled attempts ---- */

  function FirstKeys(slot: nat, m: nat): (ks: set<Key>)
    ensures |ks| == m
    ensures forall k :: k in ks <==> k.slot == slot && 1 <= k.attempt <= m
  {
    if m == 0 then {} else FirstKeys(slot, m - 1) + {Key(slot, m)}
  }

  lemma {:induction false} Contiguous(w: World, slot: nat, n: nat, m: nat)
    requires Chained(w) && Key(slot, m) in w.rows && 1 <= n <= m
    ensures Key(slot, n) in w.rows
  {
    if n < m {
      assert Successor(w, Key(slot, m));
      Contiguous(w, slot, n, m - 1);
    }
  }

  lemma SubsetCount(a: set<Key>, b: set<Key>)
    requires a <= b
    ensures |a| <= |b| && (|a| == |b| ==> a == b)
  {
    assert b == a + (b - a);
    assert |b| == |a| + |b - a|;
  }

  /** c cancelled attempts: either they are all the attempts the slot has, or the slot has an attempt c + 1. */
  lemma CountIsTrue(w: World, slot: nat)
    requires Chained(w) && CancelledInSlotAreSpent(w, slot)
    ensures var c := |CancelledKeys(w, slot)|;
            c > 0 ==> CountHolds(w, slot, c) && (w.rows[Key(slot, c)].status.Cancelled? || Key(slot, c + 1) in w.rows)
  {
    var ks := CancelledKeys(w, slot);
    var c := |ks|;
    if c > 0 {
      if !(ks <= FirstKeys(slot, c)) {
        var k :| k in ks && k !in FirstKeys(slot, c);
        assert Successor(w, k);
        Contiguous(w, slot, c, k.attempt);
        Contiguous(w, slot, c + 1, k.attempt);
      } else {
        SubsetCount(ks, FirstKeys(slot, c));
        assert Key(slot, c) in ks;
      }
    }
  }

  /* ---- Steps ---- */

  lemma RowsStay(w: World, e: Event, k: Key)
    requires k in w.rows
    ensures k in Next(w, e).rows
  {
    hide MarkedFailed, Find, CancelledKeys, Due, Resolution;
  }

  /** The exchange only appends orders and only changes working ones. */
  lemma ExchangeGrows(w: World, e: Event, i: nat)
    requires i < |w.exchange|
    ensures i < |Next(w, e).exchange| && Next(w, e).exchange[i].key == w.exchange[i].key
    ensures !w.exchange[i].state.Working? ==> Next(w, e).exchange[i] == w.exchange[i]
  {
    hide MarkedFailed, Find, CancelledKeys, Due, Resolution;
  }

  lemma DeadStays(w: World, e: Event, k: Key)
    requires Dead(w, k)
    ensures Dead(Next(w, e), k)
  {
    var i :| 0 <= i < |w.exchange| && DeadOrder(w.exchange, i, k);
    ExchangeGrows(w, e, i);
    hide Next;
    assert DeadOrder(Next(w, e).exchange, i, k);
  }

  /** Claims find the row, and retries need a failed one. */
  lemma NobodyStarts(w: World, e: Event, k: Key)
    requires k in w.rows && !w.rows[k].status.Failed? && Unattended(w, k)
    ensures Unattended(Next(w, e), k)
  {
    hide MarkedFailed, Find, CancelledKeys, Resolution, SyncedRow;
    var after := Next(w, e);
    forall x | x in after.workers && after.workers[x].key == k ensures !Busy(after.workers[x].at) {
      if x in w.workers && w.workers[x].key == k { assert !Busy(w.workers[x].at); }
    }
  }

  /** Manual retries need a failed row, and a sync needs an order. */
  lemma VoidStaysCancelled(w: World, e: Event, k: Key)
    requires Void(w, k)
    ensures k in Next(w, e).rows && Next(w, e).rows[k].status.Cancelled?
  {
    hide MarkedFailed, CancelledKeys, Resolution;
    if e.Save? || e.RecordFailure? {
      if e.worker in w.workers && w.workers[e.worker].key == k { assert !Busy(w.workers[e.worker].at); }
    }
  }

  lemma VoidStays(w: World, e: Event, k: Key)
    requires Void(w, k)
    ensures Void(Next(w, e), k)
  {
    hide Next;
    VoidStaysCancelled(w, e, k);
    hide Unattended, Known;
    NobodyStarts(w, e, k);
    NoOrderAppears(w, e, k);
  }

  /** Only a worker that has the key places an order under it. */
  lemma NoOrderAppears(w: World, e: Event, k: Key)
    requires Unattended(w, k) && !Known(w, k)
    ensures !Known(Next(w, e), k)
  {
    hide MarkedFailed, Find, CancelledKeys, Due, Resolution;
    var after := Next(w, e);
    forall i | 0 <= i < |after.exchange| ensures after.exchange[i].key != k {
      if i < |w.exchange| {
        ExchangeGrows(w, e, i);
      } else {
        assert e.Place? && e.worker in w.workers && after.exchange[i].key == w.workers[e.worker].key;
      }
    }
  }

  lemma SpentStays(w: World, e: Event, k: Key)
    requires Spent(w, k)
    ensures Spent(Next(w, e), k)
  {
    hide Next, Dead, Void;
    if Dead(w, k) { DeadStays(w, e, k); } else { VoidStays(w, e, k); }
  }

  /** The order a row resolves to CANCELLED on is dead. */
  lemma CancelledResolution(w: World, i: nat)
    requires i < |w.exchange| && Resolution(w.exchange[i].state, w.exchange[i].filled).Cancelled?
    ensures Dead(w, w.exchange[i].key)
  {
    assert DeadOrder(w.exchange, i, w.exchange[i].key);
  }

  predicate Cancels(w: World, key: Key) {
    key in w.rows && (w.rows[key].status.Failed? || w.rows[key].status.Pending?)
  }

  /**
   An operator's cancellation is harmless when the action's order has ended without a fill, or when there is
   no order and no worker that could still place one.
   */
  ghost predicate Harmless(w: World, e: Event) {
    e.CancelRetry? && Cancels(w, e.key) ==> Dead(w, e.key) || (Unattended(w, e.key) && !Known(w, e.key))
  }

  lemma HarmlessCancelSpends(w: World, key: Key)
    requires Cancels(w, key) && Harmless(w, CancelRetry(key))
    ensures Spent(Next(w, CancelRetry(key)), key)
  {
    if Dead(w, key) {
      DeadStays(w, CancelRetry(key), key);
    } else {
      UnattendedAfterRow(w, key, CancelledManually(w.rows[key]));
    }
  }

  /** A row appears as the base attempt, or after a spent one. */
  lemma NewRowFollows(w: World, e: Event, k: Key)
    requires AllInformed(w) && k in Next(w, e).rows && k !in w.rows
    ensures Successor(w, k)
  {
    hide RetryDelay, Find, CancelledKeys, Spent, Due, Resolution;
    if e.ClaimCounted? {
      assert WellInformed(w, e.worker);
    }
  }

  /** A row that a commit or a sync makes CANCELLED has a dead order. */
  lemma NewlyCancelledIsDead(w: World, e: Event, k: Key)
    requires AllInformed(w) && !e.CancelRetry?
    requires k in Next(w, e).rows && Next(w, e).rows[k].status.Cancelled?
    requires !(k in w.rows && w.rows[k].status.Cancelled?)
    ensures Dead(w, k)
  {
    hide RetryDelay, CancelledKeys, Due, Dead, Void;
    if e.Save? {
      assert WellInformed(w, e.worker);
    } else {
      CancelledResolution(w, Find(w.exchange, k));
    }
  }

  /** A row becomes CANCELLED on a dead order, or harmlessly by an operator. */
  lemma NewlyCancelledIsSpent(w: World, e: Event, k: Key)
    requires SlotInv(w) && Harmless(w, e)
    requires k in Next(w, e).rows && Next(w, e).rows[k].status.Cancelled?
    requires !(k in w.rows && w.rows[k].status.Cancelled?)
    ensures Spent(Next(w, e), k)
  {
    hide Dead, Void;
    if e.CancelRetry? {
      HarmlessCancelSpends(w, k);
    } else {
      hide Next;
      NewlyCancelledIsDead(w, e, k);
      DeadStays(w, e, k);
    }
  }

  lemma CountInformed(w: World, y: nat, slot: nat)
    requires Chained(w) && CancelledInSlotAreSpent(w, slot) && Free(w, y)
    ensures WellInformed(Next(w, CountCancelled(y, slot)), y)
  {
    var c := |CancelledKeys(w, slot)|;
    CountIsTrue(w, slot);
    hide Chained, CancelledInSlotAreSpent, CancelledKeys, Dead, Void;
    if c > 0 && Spent(w, Key(slot, c)) { SpentStays(w, CountCancelled(y, slot), Key(slot, c)); }
  }

  lemma LookUpInformed(w: World, x: nat, lookup: Lookup)
    requires x in w.workers && w.workers[x].at.LookingUp?
    ensures WellInformed(Next(w, LookUp(x, lookup)), x)
  {
    var key := w.workers[x].key;
    var i := Find(w.exchange, key);
    hide Find;
    if i < |w.exchange| && w.exchange[i].state.Ended? && w.exchange[i].filled == 0.0 {
      assert DeadOrder(w.exchange, i, key);
      DeadStays(w, LookUp(x, lookup), key);
    }
    hide Dead;
  }

  predicate Moves(w: World, e: Event, x: nat) {
    x in Next(w, e).workers && !(x in w.workers && w.workers[x] == Next(w, e).workers[x])
  }

  lemma PlaceInformed(w: World, x: nat, placement: Placement)
    requires Moves(w, Place(x, placement), x)
    ensures WellInformed(Next(w, Place(x, placement)), x)
  {
    if placement.Accepted? && placement.state.Ended? && placement.filled == 0.0 {
      assert DeadOrder(Next(w, Place(x, placement)).exchange, |w.exchange|, w.workers[x].key);
    }
  }

  /** Every other step of a worker leaves it with nothing read. */
  lemma NothingRead(w: World, e: Event, x: nat)
    requires Moves(w, e, x) && !e.CountCancelled? && !e.LookUp? && !e.Place?
    ensures !Next(w, e).workers[x].at.Saving? && !Next(w, e).workers[x].at.Counted?
  {
    hide SyncedRow, MarkedFailed, Due, CancelledKeys, Resolution;
  }

  lemma ReadsItself(w: World, e: Event, x: nat)
    requires Moves(w, e, x) && (e.CountCancelled? || e.LookUp? || e.Place?)
    ensures e.worker == x
    ensures e.CountCancelled? ==> Free(w, x)
    ensures e.LookUp? ==> x in w.workers && w.workers[x].at.LookingUp?
  {
  }

  /** A worker that has just read something of a dead order, or just counted, is well informed. */
  lemma NewlyInformed(w: World, e: Event, x: nat)
    requires Chained(w) && (e.CountCancelled? ==> CancelledInSlotAreSpent(w, e.slot)) && Moves(w, e, x)
    ensures WellInformed(Next(w, e), x)
  {
    hide Next, Chained, CancelledInSlotAreSpent, Dead, Void, Free;
    if e.CountCancelled? || e.LookUp? || e.Place? {
      ReadsItself(w, e, x);
      match e
      case CountCancelled(_, slot) => CountInformed(w, x, slot);
      case LookUp(_, lookup) => LookUpInformed(w, x, lookup);
      case Place(_, placement) => PlaceInformed(w, x, placement);
    } else {
      NothingRead(w, e, x);
    }
  }

  lemma StaysInformed(w: World, e: Event, x: nat)
    requires x in w.workers && WellInformed(w, x) && x in Next(w, e).workers && Next(w, e).workers[x] == w.workers[x]
    ensures WellInformed(Next(w, e), x)
  {
    hide Next, Dead, Void;
    match w.workers[x].at
    case Saving(i, state, filled) =>
      if Dead(w, w.workers[x].key) { DeadStays(w, e, w.workers[x].key); }
    case Counted(c) =>
      var slot := w.workers[x].key.slot;
      if c > 0 {
        RowsStay(w, e, Key(slot, c));
        if Spent(w, Key(slot, c)) { SpentStays(w, e, Key(slot, c)); } else { RowsStay(w, e, Key(slot, c + 1)); }
      }
    case _ =>
  }

  lemma StaysSuccessor(w: World, e: Event, k: Key)
    requires Successor(w, k)
    ensures Successor(Next(w, e), k)
  {
    hide Next, Spent;
    if k.attempt > 1 {
      RowsStay(w, e, Key(k.slot, k.attempt - 1));
      SpentStays(w, e, Key(k.slot, k.attempt - 1));
    }
  }

  /** No step but a harmful cancellation can break the chain. */
  lemma NextSlots(w: World, e: Event)
    requires SlotInv(w) && Harmless(w, e)
    ensures SlotInv(Next(w, e))
  {
    hide Next, Successor, Spent, WellInformed, Harmless;
    var after := Next(w, e);
    forall k | k in after.rows ensures Successor(after, k) {
      if k !in w.rows { NewRowFollows(w, e, k); }
      StaysSuccessor(w, e, k);
    }
    forall k | k in after.rows && after.rows[k].status.Cancelled? ensures Spent(after, k) {
      if k in w.rows && w.rows[k].status.Cancelled? { SpentStays(w, e, k); } else { NewlyCancelledIsSpent(w, e, k); }
    }
    forall x | x in after.workers ensures WellInformed(after, x) {
      if x in w.workers && w.workers[x] == after.workers[x] { StaysInformed(w, e, x); } else { NewlyInformed(w, e, x); }
    }
  }

  ghost predicate HarmlessRun(w: World, events: seq<Event>) {
    events != [] ==>
      HarmlessRun(w, events[..|events| - 1]) && Harmless(Run(w, events[..|events| - 1]), events[|events| - 1])
  }

  lemma {:induction false} RunSlots(events: seq<Event>)
    requires HarmlessRun(START, events)
    ensures SlotInv(Run(START, events))
  {
    if events != [] {
      RunSlots(events[..|events| - 1]);
      hide Next, SlotInv, Harmless;
      NextSlots(Run(START, events[..|events| - 1]), events[|events| - 1]);
    }
  }

  /**
   However counts, claims, retries, fills, cancellations by the exchange and harmless cancellations by
   operators interleave, at most one attempt of a slot is ever filled, and attempt n + 1 exists only
   after attempt n was over without a fill.
   */
  lemma SlotFilledAtMostOnce(events: seq<Event>)
    requires OrderedRun(START, events) && HarmlessRun(START, events)
    ensures SlotsFilledOnce(Run(START, events)) && Chained(Run(START, events))
  {
    AtMostOneOrder(events);
    RunSlots(events);
    OnlyOneAttemptFills(Run(START, events));
  }

  predicate NoOperatorCancel(events: seq<Event>) {
    forall i :: 0 <= i < |events| ==> !events[i].CancelRetry?
  }

  lemma {:induction false} NoCancelIsHarmless(w: World, events: seq<Event>)
    requires NoOperatorCancel(events)
    ensures HarmlessRun(w, events)
  {
    if events != [] {
      NoCancelIsHarmless(w, events[..|events| - 1]);
    }
  }

  /* ---- Why operator cancellation is excluded ---- */

  /** An action is cancelled while its order is being placed; the next attempt of the slot places too, and both fill. */
  function CancelledInFlight(): seq<Event> {
    [ClaimBase(0, 0)] + ([CancelRetry(Key(0, 1))] + ([CountCancelled(1, 0)] + ([ClaimCounted(1)] + BothFill())))
  }

  function BothFill(): seq<Event> {
    [Place(0, ACCEPTED)] + ([Place(1, ACCEPTED)] + ([Execute(0, 1.0, true)] + ([Execute(1, 1.0, true)] + [])))
  }

  lemma BothFillRun(v: World)
    requires v.exchange == [] && 0 in v.workers && 1 in v.workers
    requires v.workers[0] == Worker(Placing, Key(0, 1), false) && v.workers[1] == Worker(Placing, Key(0, 2), false)
    ensures !SlotsFilledOnce(Run(v, BothFill()))
  {
    var w1 := Next(v, Place(0, ACCEPTED));
    var w2 := Next(w1, Place(1, ACCEPTED));
    assert w2.exchange == [Order(Key(0, 1), Working, 0.0), Order(Key(0, 2), Working, 0.0)];
    var w3 := Next(w2, Execute(0, 1.0, true));
    var w4 := Next(w3, Execute(1, 1.0, true));
    assert w4.exchange == [Order(Key(0, 1), Filled, 1.0), Order(Key(0, 2), Filled, 1.0)];
    assert w4.exchange[0].key.slot == w4.exchange[1].key.slot;
    assert Run(w4, []) == w4;
    hide Next, Run;
    var t3: seq<Event> := [Execute(1, 1.0, true)] + [];
    RunAfter(v, Place(0, ACCEPTED), [Place(1, ACCEPTED)] + ([Execute(0, 1.0, true)] + t3));
    RunAfter(w1, Place(1, ACCEPTED), [Execute(0, 1.0, true)] + t3);
    RunAfter(w2, Execute(0, 1.0, true), t3);
    RunAfter(w3, Execute(1, 1.0, true), []);
  }

  lemma OperatorCancelFillsTwice()
    ensures !SlotsFilledOnce(Run(START, CancelledInFlight()))
  {
    var w1 := Next(START, ClaimBase(0, 0));
    var w2 := Next(w1, CancelRetry(Key(0, 1)));
    assert CancelledKeys(w2, 0) == {Key(0, 1)};
    var w3 := Next(w2, CountCancelled(1, 0));
    var w4 := Next(w3, ClaimCounted(1));
    assert w4.workers[0] == Worker(Placing, Key(0, 1), false) && w4.workers[1] == Worker(Placing, Key(0, 2), false);
    hide Next, Run, BothFill, SlotsFilledOnce, CancelledKeys;
    RunAfter(START, ClaimBase(0, 0), [CancelRetry(Key(0, 1))] + ([CountCancelled(1, 0)] + ([ClaimCounted(1)] + BothFill())));
    RunAfter(w1, CancelRetry(Key(0, 1)), [CountCancelled(1, 0)] + ([ClaimCounted(1)] + BothFill()));
    RunAfter(w2, CountCancelled(1, 0), [ClaimCounted(1)] + BothFill());
    RunAfter(w3, ClaimCounted(1), BothFill());
    BothFillRun(w4);
  }
}
