/**
 The two queries before a new attempt: a tick waits while its strategy has
 anything pending, and a claim is refused while another action or order of the
 position is unresolved. Both are asked about the slot, which is less than the
 source asks. With them more operator cancellations are safe: one of an action
 whose saved order is still on record as working holds the slot until a sync.
 */
module ActionQueries {
  import opened ActionProtocol
  import opened ActionSafety
  import opened ActionSlots

  /** On record the order of the key is working, whatever has become of it at the exchange. */
  predicate OnRecord(w: World, k: Key) {
    k in w.saved && w.saved[k].Working?
  }

  predicate Unresolved(r: Row) {
    r.status.Pending? || r.status.Submitted?
  }

  /** What refuses a claim: an unresolved action, or an order on record as working. */
  predicate Blocks(rows: map<Key, Row>, saved: map<Key, OrderState>, slot: nat) {
    || (exists k :: k in rows && k.slot == slot && Unresolved(rows[k]))
    || (exists k :: k in saved && k.slot == slot && saved[k].Working?)
  }

  predicate ClaimBlocked(w: World, slot: nat) {
    Blocks(w.rows, w.saved, slot)
  }

  /** What a tick waits for: that, or a failure that is up for a retry. */
  predicate TickWaits(w: World, slot: nat) {
    ClaimBlocked(w, slot) || exists k :: k in w.rows && k.slot == slot && w.rows[k].status.Failed? && w.rows[k].retryable
  }

  /** Attempts are counted by a tick that has found nothing pending, and no new one is claimed against the query. */
  predicate Queried(w: World, e: Event) {
    && (e.CountCancelled? ==> !TickWaits(w, e.slot))
    && (e.ClaimCounted? && e.worker in w.workers && w.workers[e.worker].at.Counted? ==>
          var slot := w.workers[e.worker].key.slot;
          NextKey(slot, w.workers[e.worker].at.count) in w.rows || !ClaimBlocked(w, slot))
  }

  /** An operator's cancellation is harmless, or its action's saved order is on record as working. */
  ghost predicate Covered(w: World, e: Event) {
    Harmless(w, e) || (e.CancelRetry? && OnRecord(w, e.key))
  }

  ghost predicate GuardedRun(w: World, events: seq<Event>) {
    events != [] ==>
      var before := Run(w, events[..|events| - 1]);
      GuardedRun(w, events[..|events| - 1]) && Queried(before, events[|events| - 1]) && Covered(before, events[|events| - 1])
  }

  /** A CANCELLED attempt is spent, or holds the slot. */
  ghost predicate CancelledAreOver(w: World) {
    forall k :: k in w.rows && w.rows[k].status.Cancelled? ==> Spent(w, k) || OnRecord(w, k)
  }

  ghost predicate GuardedInv(w: World) {
    Chained(w) && CancelledAreOver(w) && AllInformed(w)
  }

  lemma NothingHoldsTheSlot(w: World, slot: nat)
    requires CancelledAreOver(w) && !TickWaits(w, slot)
    ensures CancelledInSlotAreSpent(w, slot)
  {
  }

  /** Only a sync changes what is on record, and then it leaves the action CANCELLED only if the order is dead. */
  lemma OnRecordUntilSynced(w: World, e: Event, k: Key)
    requires OnRecord(w, k) && k in Next(w, e).rows && Next(w, e).rows[k].status.Cancelled?
    ensures OnRecord(Next(w, e), k) || Dead(w, k)
  {
    hide MarkedFailed, CancelledKeys, Due, Dead;
    if e.SyncOrder? && e.key == k && Find(w.exchange, k) < |w.exchange| {
      if Resolution(w.exchange[Find(w.exchange, k)].state, w.exchange[Find(w.exchange, k)].filled).Cancelled? {
        CancelledResolution(w, Find(w.exchange, k));
      }
    }
  }

  lemma CancelledIsOver(w: World, e: Event, k: Key)
    requires GuardedInv(w) && Covered(w, e)
    requires k in Next(w, e).rows && Next(w, e).rows[k].status.Cancelled?
    ensures Spent(Next(w, e), k) || OnRecord(Next(w, e), k)
  {
    if k in w.rows && w.rows[k].status.Cancelled? {
      assert Spent(w, k) || OnRecord(w, k);
      hide Next, GuardedInv, Dead, Void, OnRecord;
      if Spent(w, k) {
        SpentStays(w, e, k);
      } else {
        OnRecordUntilSynced(w, e, k);
        if Dead(w, k) { DeadStays(w, e, k); }
      }
    } else if e.CancelRetry? {
      hide GuardedInv, Dead, Void;
      if Harmless(w, e) { HarmlessCancelSpends(w, k); }
    } else {
      hide Next, Dead, Void;
      NewlyCancelledIsDead(w, e, k);
      DeadStays(w, e, k);
    }
  }

  lemma NextGuarded(w: World, e: Event)
    requires GuardedInv(w) && Queried(w, e) && Covered(w, e)
    ensures GuardedInv(Next(w, e))
  {
    hide Next, Successor, Spent, WellInformed, Covered, OnRecord, TickWaits, CancelledInSlotAreSpent;
    var after := Next(w, e);
    forall k | k in after.rows ensures Successor(after, k) {
      if k !in w.rows { NewRowFollows(w, e, k); }
      StaysSuccessor(w, e, k);
    }
    forall k | k in after.rows && after.rows[k].status.Cancelled? ensures Spent(after, k) || OnRecord(after, k) { CancelledIsOver(w, e, k); }
    if e.CountCancelled? { NothingHoldsTheSlot(w, e.slot); }
    forall x | x in after.workers ensures WellInformed(after, x) {
      if x in w.workers && w.workers[x] == after.workers[x] { StaysInformed(w, e, x); } else { NewlyInformed(w, e, x); }
    }
  }

  lemma {:induction false} RunGuarded(w: World, events: seq<Event>)
    requires GuardedInv(w) && GuardedRun(w, events)
    ensures GuardedInv(Run(w, events))
  {
    if events != [] {
      hide Next, GuardedInv, Queried, Covered;
      RunGuarded(w, events[..|events| - 1]);
      NextGuarded(Run(w, events[..|events| - 1]), events[|events| - 1]);
    }
  }

  lemma StartGuarded()
    ensures GuardedInv(START)
  {
  }

  /**
   With the queries a slot is filled at most once also when operators cancel actions whose saved orders are
   still on record as working.
   */
  lemma QueriedSlotFilledAtMostOnce(events: seq<Event>)
    requires OrderedRun(START, events) && GuardedRun(START, events)
    ensures SlotsFilledOnce(Run(START, events)) && Chained(Run(START, events))
  {
    AtMostOneOrder(events);
    StartGuarded();
    RunGuarded(START, events);
    OnlyOneAttemptFills(Run(START, events));
  }
}
