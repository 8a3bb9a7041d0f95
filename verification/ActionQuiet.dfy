/**
 When an action's columns agree. A commit whose acknowledgement is lost is
 followed by a recorded failure on an action that is already resolved; a sync
 of such an action, and nothing else, leaves it resolved and still retryable.
 */
module ActionQuiet {
  import opened Reals
  import opened ActionProtocol
  import opened ActionSafety
  import opened ActionSlots

  predicate Acknowledged(e: Event) {
    e.Save? ==> !e.commit.AcknowledgementLost?
  }

  /** Retryable, with a time for it, exactly when FAILED. */
  predicate TidyRow(r: Row) {
    (r.retryable <==> r.status.Failed?) && (r.nextRetryAt.Some? <==> r.status.Failed?)
  }

  predicate Resolved(s: Status) {
    s.Submitted? || s.Completed? || s.Cancelled?
  }

  /** An action whose order is saved is resolved, and no worker has it. */
  ghost predicate SettledKey(w: World, k: Key) {
    k in w.rows && Resolved(w.rows[k].status) && Unattended(w, k)
  }

  ghost predicate Tidy(w: World) {
    && AllTidy(w)
    && (forall k :: k in w.saved ==> SettledKey(w, k))
  }

  ghost predicate AllTidy(w: World) {
    forall k :: k in w.rows ==> TidyRow(w.rows[k])
  }

  /** A sync of a saved action on which a failure has been recorded. */
  predicate SyncsFailed(w: World, e: Event) {
    e.SyncOrder? && e.key in w.saved && e.key in w.rows && w.rows[e.key].status.Failed?
  }

  lemma RowTidy(w: World, e: Event, k: Key)
    requires Safe(w) && AllTidy(w) && !SyncsFailed(w, e) && k in Next(w, e).rows
    ensures TidyRow(Next(w, e).rows[k])
  {
    hide RetryDelay, Find;
    assert k in w.rows ==> TidyRow(w.rows[k]);
    if e.Save? && e.worker in w.workers && w.workers[e.worker].at.Saving? && w.workers[e.worker].key == k && k in w.rows {
      assert !w.rows[k].status.Failed?;
      hide Safe, AllTidy;
    } else {
      hide Safe, AllTidy;
      OtherRowsTidy(w, e, k);
    }
  }

  /** Every other transition writes status, retryable and retry time together. */
  lemma OtherRowsTidy(w: World, e: Event, k: Key)
    requires k in Next(w, e).rows && (k in w.rows ==> TidyRow(w.rows[k]))
    requires e.Save? ==> !(e.worker in w.workers && w.workers[e.worker].at.Saving? && w.workers[e.worker].key == k)
    requires !SyncsFailed(w, e)
    ensures TidyRow(Next(w, e).rows[k])
  {
    hide RetryDelay, Find, CancelledKeys;
  }

  /**
   A sync overwrites the status alone. So once a lost acknowledgement has let a failure be recorded on a
   saved action, the next sync leaves it resolved but still marked retryable; on any other action it is harmless.
   */
  lemma SyncKeepsTidyExactly(w: World, key: Key)
    requires key in w.rows && key in w.saved && Known(w, key) && TidyRow(w.rows[key])
    ensures key in SyncedRow(w, key).rows
    ensures TidyRow(SyncedRow(w, key).rows[key]) <==> !w.rows[key].status.Failed?
  {
    var i :| 0 <= i < |w.exchange| && w.exchange[i].key == key;
    assert Find(w.exchange, key) < |w.exchange|;
  }

  /** A step keeps the agreement of all actions if and only if it is no such sync. */
  lemma TidyKeptExactly(w: World, e: Event)
    requires Safe(w) && AllTidy(w)
    ensures AllTidy(Next(w, e)) <==> !SyncsFailed(w, e)
  {
    if SyncsFailed(w, e) {
      assert Known(w, e.key);
      hide Safe, AllTidy, SyncedRow;
      SyncKeepsTidyExactly(w, e.key);
    } else {
      hide Next, Safe, SyncsFailed, TidyRow;
      forall k | k in Next(w, e).rows ensures TidyRow(Next(w, e).rows[k]) { RowTidy(w, e, k); }
    }
  }

  ghost predicate TidyThroughout(events: seq<Event>) {
    forall n :: 0 <= n <= |events| ==> AllTidy(Run(START, events[..n]))
  }

  predicate NeverSyncsFailed(events: seq<Event>) {
    events != [] ==>
      NeverSyncsFailed(events[..|events| - 1]) && !SyncsFailed(Run(START, events[..|events| - 1]), events[|events| - 1])
  }

  lemma TidyThroughoutPrefix(events: seq<Event>)
    requires events != []
    ensures TidyThroughout(events) <==> TidyThroughout(events[..|events| - 1]) && AllTidy(Run(START, events))
  {
    hide AllTidy, Run;
    var before := events[..|events| - 1];
    assert events[..|events|] == events;
    assert forall n :: 0 <= n <= |before| ==> before[..n] == events[..n];
  }

  /**
   Over a whole run every action is retryable, with a retry time, exactly while it is FAILED, if and only if
   no sync is made of a saved action that is FAILED.
   */
  lemma {:induction false} RetryableHoldsExactly(events: seq<Event>)
    requires OrderedRun(START, events)
    ensures TidyThroughout(events) <==> NeverSyncsFailed(events)
  {
    if events != [] {
      var before, e := events[..|events| - 1], events[|events| - 1];
      RetryableHoldsExactly(before);
      AtMostOneOrder(before);
      hide Next, AllTidy, Safe, Ordered, SyncsFailed;
      TidyThroughoutPrefix(events);
      if TidyThroughout(before) {
        assert before[..|before|] == before;
        TidyKeptExactly(Run(START, before), e);
      }
    }
  }

  lemma StaysResolved(w: World, e: Event, k: Key)
    requires SettledKey(w, k)
    ensures k in Next(w, e).rows && Resolved(Next(w, e).rows[k].status)
  {
    hide MarkedFailed, Find, CancelledKeys;
    if e.Save? || e.RecordFailure? {
      if e.worker in w.workers && w.workers[e.worker].key == k { assert !Busy(w.workers[e.worker].at); }
    }
  }

  /** A commit settles the key: its worker was alone with it. */
  lemma CommitSettles(w: World, e: Event, k: Key)
    requires Safe(w) && Acknowledged(e) && k in Next(w, e).saved && k !in w.saved
    ensures SettledKey(Next(w, e), k)
  {
    hide MarkedFailed, Find, CancelledKeys;
    assert e.Save? && e.worker in w.workers && w.workers[e.worker].at.Saving? && w.workers[e.worker].key == k;
    forall y | y in Next(w, e).workers && Next(w, e).workers[y].key == k ensures !Busy(Next(w, e).workers[y].at) {
      assert Contend(w, e.worker, y) ==> y == e.worker;
    }
  }

  lemma NextTidy(w: World, e: Event)
    requires Safe(w) && Tidy(w) && Acknowledged(e)
    ensures Tidy(Next(w, e))
  {
    assert !SyncsFailed(w, e) by { assert e.SyncOrder? && e.key in w.saved ==> SettledKey(w, e.key); }
    TidyKeptExactly(w, e);
    hide AllTidy;
    forall k | k in Next(w, e).saved ensures SettledKey(Next(w, e), k) {
      hide Next, Safe;
      if k in w.saved {
        assert SettledKey(w, k);
        StaysResolved(w, e, k);
        NobodyStarts(w, e, k);
      } else {
        CommitSettles(w, e, k);
      }
    }
  }

  predicate AllAcknowledged(events: seq<Event>) {
    forall i :: 0 <= i < |events| ==> Acknowledged(events[i])
  }

  /** In such a run an action is retryable, with a retry time, exactly when it is FAILED; a saved one never is. */
  lemma {:induction false} RetryableExactlyWhenFailed(events: seq<Event>)
    requires OrderedRun(START, events) && AllAcknowledged(events)
    ensures Tidy(Run(START, events))
  {
    if events != [] {
      var before := events[..|events| - 1];
      RetryableExactlyWhenFailed(before);
      AtMostOneOrder(before);
      hide Next, Tidy, Safe, Ordered;
      NextTidy(Run(START, before), events[|events| - 1]);
    }
  }

  /* ---- Why acknowledgements are assumed ---- */

  /** An order goes out and is saved, but the acknowledgement of the commit is lost, so a failure is recorded. */
  function AcknowledgementIsLost(placement: Placement, rest: seq<Event>): seq<Event> {
    [ClaimBase(0, 0)] + ([Place(0, placement)] + ([Save(0, AcknowledgementLost(true))] + rest))
  }

  lemma AcknowledgementIsLostRun(placement: Placement, rest: seq<Event>) returns (w: World)
    requires placement.Accepted? && Reportable(placement.state, placement.filled)
    ensures w.rows == map[CONTESTED := CLAIMED.(status := Resolution(placement.state, placement.filled))]
    ensures w.exchange == [Order(CONTESTED, placement.state, placement.filled)] && w.saved.Keys == {CONTESTED} && w.now == 0
    ensures w.workers == map[0 := Worker(Failing(true), CONTESTED, false)]
    ensures Run(START, AcknowledgementIsLost(placement, rest)) == Run(w, rest)
  {
    var w1 := Next(START, ClaimBase(0, 0));
    var w2 := Next(w1, Place(0, placement));
    assert w2.exchange == [Order(CONTESTED, placement.state, placement.filled)];
    w := Next(w2, Save(0, AcknowledgementLost(true)));
    hide Next, Run;
    RunAfter(START, ClaimBase(0, 0), [Place(0, placement)] + ([Save(0, AcknowledgementLost(true))] + rest));
    RunAfter(w1, Place(0, placement), [Save(0, AcknowledgementLost(true))] + rest);
    RunAfter(w2, Save(0, AcknowledgementLost(true)), rest);
  }

  /** The recorded failure, then a sync of the saved order. */
  function FailedThenSynced(): seq<Event> {
    [RecordFailure(0)] + ([SyncOrder(CONTESTED)] + [])
  }

  /** A run that ends with an action that is SUBMITTED and still marked retryable, with a retry time. */
  lemma LostAcknowledgementLeavesRetryable()
    ensures var w := Run(START, AcknowledgementIsLost(ACCEPTED, FailedThenSynced()));
            CONTESTED in w.rows && w.rows[CONTESTED] == Row(Submitted, true, Some(30_000), 0, MAX_ATTEMPTS, 0)
  {
    var w1 := AcknowledgementIsLostRun(ACCEPTED, FailedThenSynced());
    var w2 := Next(w1, RecordFailure(0));
    assert w2.rows[CONTESTED] == Row(Failed, true, Some(30_000), 0, MAX_ATTEMPTS, 0);
    assert Find(w2.exchange, CONTESTED) == 0;
    var w3 := Next(w2, SyncOrder(CONTESTED));
    assert Run(w3, []) == w3;
    hide Next, Run;
    RunAfter(w1, RecordFailure(0), [SyncOrder(CONTESTED)] + []);
    RunAfter(w2, SyncOrder(CONTESTED), []);
  }
}
