/**
 What a saved order says about its action. A commit and a sync write the answer
 of the exchange on the order's row and on the action's: while the order works
 the action holds its slot, and once it is over the action is COMPLETED, or
 CANCELLED when nothing was filled.
 */
module ActionRecords {
  import opened ActionProtocol
  import opened ActionSafety
  import opened ActionSlots
  import opened ActionQuiet
  import opened ActionQueries

  /** The answer for an order in a given state. */
  predicate Answers(s: Status, state: OrderState, filled: Volume) {
    match state
    case Working => s.Submitted?
    case Filled => s.Completed?
    case Ended => (s.Cancelled? <==> filled == 0.0) && (s.Completed? <==> filled > 0.0)
  }

  /** What the exchange has: the key's order, over and done with, in the recorded state. */
  ghost predicate OverAt(w: World, i: nat, k: Key, state: OrderState) {
    i < |w.exchange| && w.exchange[i].key == k && w.exchange[i].state == state
  }

  /** Record and action agree; what is on record as over is over at the exchange, with the fill that the action was resolved on. */
  ghost predicate Told(w: World, k: Key)
    requires k in w.saved
  {
    k in w.rows &&
    if w.saved[k].Working? then w.rows[k].status.Submitted?
    else exists i: nat :: OverAt(w, i, k, w.saved[k]) && Answers(w.rows[k].status, w.saved[k], w.exchange[i].filled)
  }

  /** A worker about to save an order that is over has read its final state. */
  ghost predicate ReadsFinal(w: World, x: nat)
    requires x in w.workers
  {
    w.workers[x].at.Saving? && !w.workers[x].at.state.Working? ==>
      OverAt(w, w.workers[x].at.order, w.workers[x].key, w.workers[x].at.state)
      && w.exchange[w.workers[x].at.order].filled == w.workers[x].at.filled
  }

  ghost predicate Recording(w: World) {
    && (forall k :: k in w.saved ==> Told(w, k))
    && (forall x :: x in w.workers ==> ReadsFinal(w, x))
  }

  /* ---- One answer ---- */

  /** An acknowledged commit records the state it read and answers it. */
  lemma CommitAnswers(w: World, x: nat)
    requires x in w.workers && w.workers[x].at.Saving? && w.workers[x].key in w.rows && w.workers[x].key !in w.saved
    ensures var after, at, k := Next(w, Save(x, Committed)), w.workers[x].at, w.workers[x].key;
            && k in after.rows && k in after.saved && after.saved[k] == at.state
            && Answers(after.rows[k].status, at.state, at.filled)
            && after.workers[x].at.Idle?
  {
  }

  /** A sync of a saved order records its state at the exchange and answers it. */
  lemma SyncAnswers(w: World, k: Key, i: nat)
    requires Safe(w) && k in w.saved && k in w.rows && i < |w.exchange| && w.exchange[i].key == k
    ensures var after := Next(w, SyncOrder(k));
            && k in after.rows && k in after.saved && after.saved[k] == w.exchange[i].state
            && Answers(after.rows[k].status, w.exchange[i].state, w.exchange[i].filled)
  {
    FindOnly(w.exchange, i);
  }

  /* ---- Every step ---- */

  /** What is over at the exchange stays as it is. */
  lemma OverStays(w: World, e: Event, i: nat, k: Key, state: OrderState)
    requires OverAt(w, i, k, state) && !state.Working?
    ensures OverAt(Next(w, e), i, k, state) && Next(w, e).exchange[i] == w.exchange[i]
  {
    hide Next;
    ExchangeGrows(w, e, i);
  }

  /** A settled action that is not synced keeps its status, and its record. */
  lemma RecordStays(w: World, e: Event, k: Key)
    requires k in w.saved && SettledKey(w, k) && !(e.SyncOrder? && e.key == k)
    ensures k in Next(w, e).saved && Next(w, e).saved[k] == w.saved[k]
    ensures k in Next(w, e).rows && Next(w, e).rows[k].status == w.rows[k].status
  {
    hide MarkedFailed, Find, CancelledKeys, Resolution;
    if e.Save? || e.RecordFailure? {
      if e.worker in w.workers && w.workers[e.worker].key == k { assert !Busy(w.workers[e.worker].at); }
    }
  }

  lemma ToldStays(w: World, e: Event, k: Key)
    requires k in w.saved && Told(w, k) && SettledKey(w, k) && !(e.SyncOrder? && e.key == k)
    ensures k in Next(w, e).saved && Told(Next(w, e), k)
  {
    hide Next, Answers;
    RecordStays(w, e, k);
    if !w.saved[k].Working? {
      var i: nat :| OverAt(w, i, k, w.saved[k]) && Answers(w.rows[k].status, w.saved[k], w.exchange[i].filled);
      OverStays(w, e, i, k, w.saved[k]);
    }
  }

  lemma SyncKeepsExchange(w: World, k: Key)
    ensures Next(w, SyncOrder(k)).exchange == w.exchange
  {
  }

  lemma SyncTells(w: World, k: Key)
    requires Safe(w) && k in w.saved && k in w.rows
    ensures k in Next(w, SyncOrder(k)).saved && Told(Next(w, SyncOrder(k)), k)
  {
    assert Known(w, k);
    var i :| 0 <= i < |w.exchange| && w.exchange[i].key == k;
    hide Safe, Next;
    SyncKeepsExchange(w, k);
    SyncAnswers(w, k, i);
    var after := Next(w, SyncOrder(k));
    assert after.saved[k].Working? || OverAt(after, i, k, after.saved[k]);
  }

  /** A key that a step saves was committed by a worker that had read its order. */
  lemma CommitIsSave(w: World, e: Event, k: Key)
    requires Acknowledged(e) && k in Next(w, e).saved && k !in w.saved
    ensures e.Save? && e.commit.Committed? && e.worker in w.workers && w.workers[e.worker].at.Saving? && w.workers[e.worker].key == k
    ensures k in w.rows && Next(w, e).exchange == w.exchange
  {
    hide MarkedFailed, Find, CancelledKeys, Due, Resolution;
  }

  lemma CommitTells(w: World, e: Event, k: Key)
    requires Recording(w) && Acknowledged(e) && k in Next(w, e).saved && k !in w.saved
    ensures Told(Next(w, e), k)
  {
    CommitIsSave(w, e, k);
    CommitAnswers(w, e.worker);
    assert ReadsFinal(w, e.worker);
    var after, at := Next(w, e), w.workers[e.worker].at;
    hide Next, Recording;
    assert at.state.Working? || OverAt(after, at.order, k, at.state);
  }

  /** A worker that comes to save has just placed its order or just found it. */
  lemma NewlyReads(w: World, e: Event, x: nat)
    requires Moves(w, e, x)
    ensures ReadsFinal(Next(w, e), x)
  {
    if e.LookUp? || e.Place? {
      ReadsItself(w, e, x);
    } else if !e.CountCancelled? {
      NothingRead(w, e, x);
      hide Next;
    }
  }

  lemma StillReads(w: World, e: Event, x: nat)
    requires x in w.workers && ReadsFinal(w, x) && x in Next(w, e).workers && Next(w, e).workers[x] == w.workers[x]
    ensures ReadsFinal(Next(w, e), x)
  {
    hide Next;
    if w.workers[x].at.Saving? && !w.workers[x].at.state.Working? {
      OverStays(w, e, w.workers[x].at.order, w.workers[x].key, w.workers[x].at.state);
    }
  }

  lemma NextRecording(w: World, e: Event)
    requires Safe(w) && Tidy(w) && Recording(w) && Acknowledged(e)
    ensures Recording(Next(w, e))
  {
    hide Next, Safe, AllTidy, SettledKey, Told, ReadsFinal;
    var after := Next(w, e);
    forall k | k in after.saved ensures Told(after, k) {
      if k !in w.saved {
        CommitTells(w, e, k);
      } else {
        assert Told(w, k) && SettledKey(w, k);
        if e.SyncOrder? && e.key == k {
          SavedHasRow(w, k);
          SyncTells(w, k);
        } else {
          ToldStays(w, e, k);
        }
      }
    }
    forall x | x in after.workers ensures ReadsFinal(after, x) {
      if Moves(w, e, x) { NewlyReads(w, e, x); } else { StillReads(w, e, x); }
    }
  }

  lemma SavedHasRow(w: World, k: Key)
    requires SettledKey(w, k)
    ensures k in w.rows
  {
  }

  /* ---- Every run ---- */

  /**
   In every ordered run with acknowledged commits a saved action is SUBMITTED exactly while its order is on record
   as working; after that it is CANCELLED exactly when the exchange ended the order without a fill, and COMPLETED
   in every other case.
   */
  lemma {:induction false} ActionsFollowTheirOrders(events: seq<Event>)
    requires OrderedRun(START, events) && AllAcknowledged(events)
    ensures Recording(Run(START, events))
  {
    if events != [] {
      var before, e := events[..|events| - 1], events[|events| - 1];
      ActionsFollowTheirOrders(before);
      AtMostOneOrder(before);
      RetryableExactlyWhenFailed(before);
      hide Next, Recording, Safe, Tidy, Ordered;
      NextRecording(Run(START, before), e);
    }
  }

  /** So a saved action is unresolved exactly while its order is on record as working. */
  lemma UnresolvedWhileWorking(events: seq<Event>, k: Key)
    requires OrderedRun(START, events) && AllAcknowledged(events) && k in Run(START, events).saved
    ensures var w := Run(START, events);
            && k in w.rows
            && (w.rows[k].status.Pending? || w.rows[k].status.Submitted? <==> w.saved[k].Working?)
            && (!w.saved[k].Working? ==> w.rows[k].status.Completed? || w.rows[k].status.Cancelled?)
  {
    ActionsFollowTheirOrders(events);
    assert Told(Run(START, events), k);
  }

  /** And a slot refuses a new attempt exactly while one of its orders is on record as working, or an action without a saved order is unresolved. */
  lemma BlockedByWorkingOrders(events: seq<Event>, slot: nat)
    requires OrderedRun(START, events) && AllAcknowledged(events)
    ensures var w := Run(START, events);
            ClaimBlocked(w, slot) <==>
              || (exists k :: k in w.saved && k.slot == slot && w.saved[k].Working?)
              || (exists k :: k in w.rows && k !in w.saved && k.slot == slot
                              && (w.rows[k].status.Pending? || w.rows[k].status.Submitted?))
  {
    var w := Run(START, events);
    hide Run;
    forall k | k in w.saved ensures k in w.rows && (Unresolved(w.rows[k]) <==> w.saved[k].Working?) {
      UnresolvedWhileWorking(events, k);
    }
  }
}
