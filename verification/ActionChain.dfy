/**
 All attempts of a slot but the last are CANCELLED: which steps keep that, and
 a run on which a lost acknowledgement breaks it.
 */
module ActionChain {
  import opened ActionProtocol
  import opened ActionSafety
  import opened ActionSlots
  import opened ActionQuiet

  ghost predicate PredecessorCancelled(w: World, k: Key) {
    k.attempt > 1 ==> Key(k.slot, k.attempt - 1) in w.rows && w.rows[Key(k.slot, k.attempt - 1)].status.Cancelled?
  }

  /** The keys of a slot are the base key, attempt-2, and so on; all but the last are CANCELLED. */
  ghost predicate AllButLast(w: World) {
    forall k :: k in w.rows ==> PredecessorCancelled(w, k)
  }

  /* ---- The steps that break it ---- */

  function Following(k: Key): Key {
    Key(k.slot, k.attempt + 1)
  }

  /**
   The worker's key is CANCELLED, and the worker records a failure on it, or commits an order of it that has
   not ended unfilled.
   */
  predicate Overwrites(w: World, e: Event) {
    (e.RecordFailure? || e.Save?) && e.worker in w.workers &&
    var at, k := w.workers[e.worker].at, w.workers[e.worker].key;
    && k in w.rows && w.rows[k].status.Cancelled?
    && if e.RecordFailure? then at.Failing? || at.FailingAgain?
       else at.Saving? && k !in w.saved && !e.commit.RolledBack? && !Resolution(at.state, at.filled).Cancelled?
  }

  /** The worker's count is out of date: the last attempt it counted is not CANCELLED, and it is about to claim the next. */
  predicate ClaimsOnStaleCount(w: World, e: Event) {
    e.ClaimCounted? && e.worker in w.workers && w.workers[e.worker].at.Counted? && w.workers[e.worker].at.count > 0 &&
    var k := Key(w.workers[e.worker].key.slot, w.workers[e.worker].at.count);
    Following(k) !in w.rows && !(k in w.rows && w.rows[k].status.Cancelled?)
  }

  /** A CANCELLED attempt is overwritten although the next one exists, or the next one is made after it has been. */
  predicate BreaksChain(w: World, e: Event) {
    (Overwrites(w, e) && Following(w.workers[e.worker].key) in w.rows) || ClaimsOnStaleCount(w, e)
  }

  /** A sync finds no order of a CANCELLED key, or a dead one. */
  lemma SyncKeepsCancelled(w: World, k: Key)
    requires Safe(w) && Spent(w, k) && k in w.rows && w.rows[k].status.Cancelled?
    ensures k in SyncedRow(w, k).rows && SyncedRow(w, k).rows[k].status.Cancelled?
  {
    if Dead(w, k) {
      var j :| 0 <= j < |w.exchange| && DeadOrder(w.exchange, j, k);
      FindOnly(w.exchange, j);
    }
  }

  lemma OtherStepsKeepCancelled(w: World, e: Event, k: Key)
    requires k in w.rows && w.rows[k].status.Cancelled? && !(e.SyncOrder? && e.key == k)
    requires Overwrites(w, e) ==> w.workers[e.worker].key != k
    ensures k in Next(w, e).rows && Next(w, e).rows[k].status.Cancelled?
  {
    hide MarkedFailed, CancelledKeys, Find, Resolution;
  }

  /** Nothing else takes CANCELLED away. */
  lemma CancelledStays(w: World, e: Event, k: Key)
    requires Safe(w) && CancelledAreSpent(w) && k in w.rows && w.rows[k].status.Cancelled?
    requires Overwrites(w, e) ==> w.workers[e.worker].key != k
    ensures k in Next(w, e).rows && Next(w, e).rows[k].status.Cancelled?
  {
    if e.SyncOrder? && e.key == k {
      hide SyncedRow;
      SyncKeepsCancelled(w, k);
    } else {
      hide Next, Overwrites;
      OtherStepsKeepCancelled(w, e, k);
    }
  }

  /** A new row is the first attempt of its slot or follows a cancelled one. */
  lemma NewRowFollows(w: World, e: Event, k: Key)
    requires !ClaimsOnStaleCount(w, e) && k in Next(w, e).rows && k !in w.rows
    ensures PredecessorCancelled(w, k)
  {
    hide RetryDelay, Find, CancelledKeys;
  }

  lemma BreaksIt(w: World, e: Event)
    requires Chained(w) && BreaksChain(w, e)
    ensures !AllButLast(Next(w, e))
  {
    hide Find, CancelledKeys;
    var worker := w.workers[e.worker];
    if e.ClaimCounted? {
      assert !PredecessorCancelled(Next(w, e), Key(worker.key.slot, worker.at.count + 1));
    } else {
      assert Successor(w, worker.key);
      assert !PredecessorCancelled(Next(w, e), Following(worker.key));
    }
  }

  /** A step keeps all attempts but the last CANCELLED if and only if it is none of these. */
  lemma ChainKeptExactly(w: World, e: Event)
    requires Safe(w) && SlotInv(w) && AllButLast(w)
    ensures AllButLast(Next(w, e)) <==> !BreaksChain(w, e)
  {
    if BreaksChain(w, e) {
      BreaksIt(w, e);
    } else {
      var after := Next(w, e);
      hide Next, Safe, Chained, CancelledAreSpent, Overwrites, ClaimsOnStaleCount;
      forall k | k in after.rows ensures PredecessorCancelled(after, k) {
        if k !in w.rows { NewRowFollows(w, e, k); }
        assert PredecessorCancelled(w, k);
        if k.attempt > 1 {
          NotOverwritten(w, e, k);
          CancelledStays(w, e, Key(k.slot, k.attempt - 1));
        }
      }
    }
  }

  lemma NotOverwritten(w: World, e: Event, k: Key)
    requires !BreaksChain(w, e) && k in Next(w, e).rows && k.attempt > 1
    ensures Overwrites(w, e) ==> w.workers[e.worker].key != Key(k.slot, k.attempt - 1)
  {
    hide MarkedFailed, Resolution, Find;
  }

  ghost predicate ChainThroughout(events: seq<Event>) {
    forall n :: 0 <= n <= |events| ==> AllButLast(Run(START, events[..n]))
  }

  predicate NeverBreaksChain(events: seq<Event>) {
    events != [] ==>
      NeverBreaksChain(events[..|events| - 1]) && !BreaksChain(Run(START, events[..|events| - 1]), events[|events| - 1])
  }

  lemma ChainThroughoutPrefix(events: seq<Event>)
    requires events != []
    ensures ChainThroughout(events) <==> ChainThroughout(events[..|events| - 1]) && AllButLast(Run(START, events))
  {
    hide AllButLast, Run;
    var before := events[..|events| - 1];
    assert events[..|events|] == events;
    assert forall n :: 0 <= n <= |before| ==> before[..n] == events[..n];
  }

  /** Over a whole run all attempts but the last of every slot are CANCELLED, if and only if none of its steps is one of these. */
  lemma {:induction false} ChainHoldsExactly(events: seq<Event>)
    requires OrderedRun(START, events) && HarmlessRun(START, events)
    ensures ChainThroughout(events) <==> NeverBreaksChain(events)
  {
    if events != [] {
      var before, e := events[..|events| - 1], events[|events| - 1];
      ChainHoldsExactly(before);
      AtMostOneOrder(before);
      RunSlots(before);
      hide Next, AllButLast, Safe, SlotInv, Ordered, Harmless, BreaksChain;
      ChainThroughoutPrefix(events);
      if ChainThroughout(before) {
        assert before[..|before|] == before;
        ChainKeptExactly(Run(START, before), e);
      }
    }
  }

  /* ---- Acknowledged commits and no operator cancellation ---- */

  ghost predicate CancelledAreSaved(w: World) {
    forall k :: k in w.rows && w.rows[k].status.Cancelled? ==> k in w.saved
  }

  /** A counted number of attempts is all the slot had, the last of them CANCELLED, or one more has been made. */
  ghost predicate CountCurrent(w: World, x: nat)
    requires x in w.workers
  {
    w.workers[x].at.Counted? && w.workers[x].at.count > 0 ==>
      var k := Key(w.workers[x].key.slot, w.workers[x].at.count);
      k in w.rows && (w.rows[k].status.Cancelled? || Following(k) in w.rows)
  }

  ghost predicate CountsCurrent(w: World) {
    forall x :: x in w.workers ==> CountCurrent(w, x)
  }

  ghost predicate Quiet(w: World) {
    Tidy(w) && CancelledAreSaved(w) && CountsCurrent(w)
  }

  /** Nobody has a CANCELLED key, and no count is out of date. */
  lemma QuietNeverBreaks(w: World, e: Event)
    requires Quiet(w)
    ensures !Overwrites(w, e) && !BreaksChain(w, e)
  {
    if (e.RecordFailure? || e.Save?) && e.worker in w.workers {
      var k := w.workers[e.worker].key;
      assert k in w.rows && w.rows[k].status.Cancelled? ==> SettledKey(w, k);
    } else if e.ClaimCounted? && e.worker in w.workers {
      assert CountCurrent(w, e.worker);
    }
  }

  /** A row becomes CANCELLED only through its saved order. */
  lemma CancelledIsSaved(w: World, e: Event, k: Key)
    requires !e.CancelRetry? && k in Next(w, e).rows && Next(w, e).rows[k].status.Cancelled?
    requires k in w.rows && w.rows[k].status.Cancelled? ==> k in w.saved
    ensures k in Next(w, e).saved
  {
    hide RetryDelay, Find, CancelledKeys, Due;
  }

  /** Only counting creates a count. */
  lemma CountsStay(w: World, e: Event, x: nat)
    requires x in Next(w, e).workers && Next(w, e).workers[x].at.Counted? && !e.CountCancelled?
    ensures x in w.workers && Next(w, e).workers[x] == w.workers[x]
  {
    hide MarkedFailed, Find, CancelledKeys, Due, Resolution, SyncedRow;
  }

  /** A new count is current, an old one stays so while no CANCELLED attempt is overwritten. */
  lemma CountStaysCurrent(w: World, e: Event, x: nat)
    requires Safe(w) && SlotInv(w) && CountsCurrent(w) && !Overwrites(w, e) && x in Next(w, e).workers
    ensures CountCurrent(Next(w, e), x)
  {
    var after := Next(w, e);
    if after.workers[x].at.Counted? && after.workers[x].at.count > 0 {
      if e.CountCancelled? { CountIsTrue(w, e.slot); } else { CountsStay(w, e, x); }
      if x in w.workers && after.workers[x] == w.workers[x] { assert CountCurrent(w, x); }
      var k := Key(after.workers[x].key.slot, after.workers[x].at.count);
      assert k in w.rows && (w.rows[k].status.Cancelled? || Following(k) in w.rows);
      hide Next, Safe, Chained, CancelledAreSpent, CountsCurrent, Overwrites;
      RowsStay(w, e, k);
      if w.rows[k].status.Cancelled? { CancelledStays(w, e, k); } else { RowsStay(w, e, Following(k)); }
    }
  }

  lemma NextQuiet(w: World, e: Event)
    requires Safe(w) && SlotInv(w) && Quiet(w) && Acknowledged(e) && !e.CancelRetry?
    ensures Quiet(Next(w, e))
  {
    var after := Next(w, e);
    QuietNeverBreaks(w, e);
    hide Next, Safe, SlotInv, Tidy, CountCurrent;
    NextTidy(w, e);
    forall k | k in after.rows && after.rows[k].status.Cancelled? ensures k in after.saved { CancelledIsSaved(w, e, k); }
    forall x | x in after.workers ensures CountCurrent(after, x) { CountStaysCurrent(w, e, x); }
  }

  lemma {:induction false} QuietRun(events: seq<Event>)
    requires OrderedRun(START, events) && AllAcknowledged(events) && NoOperatorCancel(events)
    ensures Quiet(Run(START, events)) && NeverBreaksChain(events)
  {
    if events != [] {
      var before, e := events[..|events| - 1], events[|events| - 1];
      QuietRun(before);
      AtMostOneOrder(before);
      NoCancelIsHarmless(START, before);
      RunSlots(before);
      hide Next, Safe, SlotInv, Quiet, Ordered, BreaksChain;
      QuietNeverBreaks(Run(START, before), e);
      NextQuiet(Run(START, before), e);
    }
  }

  /** There, all attempts of a slot but the last are always CANCELLED, and their orders unfilled. */
  lemma AllButTheLastCancelled(events: seq<Event>)
    requires OrderedRun(START, events) && AllAcknowledged(events) && NoOperatorCancel(events)
    ensures ChainThroughout(events) && AllButLast(Run(START, events)) && Chained(Run(START, events))
  {
    QuietRun(events);
    NoCancelIsHarmless(START, events);
    RunSlots(events);
    ChainHoldsExactly(events);
    assert events[..|events|] == events;
  }

  /* ---- A run that breaks it ---- */

  /** The next attempt is counted and claimed before the failure is recorded on the cancelled one. */
  function FailedAfterNextClaim(): seq<Event> {
    [CountCancelled(1, 0)] + ([ClaimCounted(1)] + ([RecordFailure(0)] + []))
  }

  /** A run that ends with an earlier attempt of the slot FAILED instead of CANCELLED. */
  lemma LostAcknowledgementBreaksTheChain()
    ensures var w := Run(START, AcknowledgementIsLost(Accepted(Ended, 0.0), FailedAfterNextClaim()));
            && Key(0, 1) in w.rows && Key(0, 2) in w.rows && w.rows[Key(0, 1)].status.Failed?
            && !AllButLast(w)
  {
    hide AcknowledgementIsLost, CancelledKeys, Find, SyncedRow, Saved, Placed, LookedUp;
    var w1 := AcknowledgementIsLostRun(Accepted(Ended, 0.0), FailedAfterNextClaim());
    var w2 := SecondAttempt(w1, [RecordFailure(0)] + []);
    assert w2.workers[0] == Worker(Failing(true), CONTESTED, false);
    var w3 := Next(w2, RecordFailure(0));
    assert Run(w3, []) == w3;
    assert !PredecessorCancelled(w3, Key(0, 2));
    hide Next, Run;
    RunAfter(w2, RecordFailure(0), []);
  }

  lemma SecondAttempt(v: World, rest: seq<Event>) returns (w: World)
    requires v.rows == map[Key(0, 1) := CLAIMED.(status := Cancelled)] && 1 !in v.workers
    ensures w.rows == v.rows[Key(0, 2) := CLAIMED] && w.workers == v.workers[1 := Worker(Placing, Key(0, 2), false)]
    ensures Run(v, [CountCancelled(1, 0)] + ([ClaimCounted(1)] + rest)) == Run(w, rest)
  {
    assert CancelledKeys(v, 0) == {Key(0, 1)};
    hide CancelledKeys;
    var w1 := Next(v, CountCancelled(1, 0));
    assert w1 == Put(v, 1, Worker(Counted(1), Key(0, 0), false));
    w := Next(w1, ClaimCounted(1));
    assert w == Put(w1.(rows := w1.rows[Key(0, 2) := CLAIMED]), 1, Worker(Placing, Key(0, 2), false));
    hide Next, Run;
    RunAfter(v, CountCancelled(1, 0), [ClaimCounted(1)] + rest);
    RunAfter(w1, ClaimCounted(1), rest);
  }
}
