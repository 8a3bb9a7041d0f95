/** How often an action can be retried, when, and what its columns say about it. */
module ActionRetries {
  import opened Reals
  import opened ActionProtocol

  /* ---- The delay before a retry ---- */

  lemma {:induction false} DoubledBounds(delay: nat, times: nat)
    ensures Doubled(delay, times) >= delay
    ensures Doubled(delay, times + 1) == 2 * Doubled(delay, times)
    decreases times
  {
    if times > 0 {
      DoubledBounds(2 * delay, times - 1);
    }
  }

  function AtMost(x: nat, y: nat): nat {
    if x < y then x else y
  }

  /** Between thirty seconds and fifteen minutes, doubling with every attempt until the cap. */
  lemma RetryDelayBounds(attemptCount: nat)
    ensures BASE_RETRY_DELAY_MS <= RetryDelay(attemptCount) <= MAX_RETRY_DELAY_MS
    ensures attemptCount >= 1 ==> RetryDelay(attemptCount + 1) == AtMost(2 * RetryDelay(attemptCount), MAX_RETRY_DELAY_MS)
  {
    DoubledBounds(BASE_RETRY_DELAY_MS, if attemptCount > 1 then attemptCount - 1 else 0);
  }

  /* ---- The number of retries ---- */

  /** Attempts are bounded by the limit plus one for every manual retry; a FAILED action has one left, and says when. */
  predicate Bounded(r: Row) {
    && r.maxAttempts == MAX_ATTEMPTS
    && r.attemptCount <= r.maxAttempts + r.manualRetries
    && (r.status.Failed? ==> r.attemptCount < r.maxAttempts + r.manualRetries && r.retryable && r.nextRetryAt.Some?)
  }

  ghost predicate AllBounded(w: World) {
    forall k :: k in w.rows ==> Bounded(w.rows[k])
  }

  lemma NextBounded(w: World, e: Event)
    requires AllBounded(w)
    ensures AllBounded(Next(w, e))
  {
    forall k | k in Next(w, e).rows ensures Bounded(Next(w, e).rows[k]) {
      RowBounded(w, e, k);
    }
  }

  /** What one step does to one row. */
  lemma RowBounded(w: World, e: Event, k: Key)
    requires AllBounded(w) && k in Next(w, e).rows
    ensures Bounded(Next(w, e).rows[k])
  {
    assert k in w.rows ==> Bounded(w.rows[k]);
    hide AllBounded, RetryDelay, Find, CancelledKeys;
    if e.Save? || e.SyncOrder? {
      hide MarkedFailed;
    } else {
      hide Saved, SyncedRow;
    }
  }

  /** How often claimRetry has admitted a worker to a key. */
  function RetriesAdmitted(w: World, events: seq<Event>, key: Key): nat {
    if events == [] then 0
    else
      var before := events[..|events| - 1];
      RetriesAdmitted(w, before, key) + if Admits(Run(w, before), events[|events| - 1], key) then 1 else 0
  }

  predicate Admits(w: World, e: Event, key: Key) {
    e.ClaimRetry? && e.key == key && Free(w, e.worker) && key in w.rows && Due(w.rows[key], w.now)
  }

  function ManualRetries(w: World, events: seq<Event>, key: Key): nat {
    if events == [] then 0
    else
      var before := events[..|events| - 1];
      ManualRetries(w, before, key) + if Reopens(Run(w, before), events[|events| - 1], key) then 1 else 0
  }

  predicate Reopens(w: World, e: Event, key: Key) {
    e.ManualRetry? && e.key == key && key in w.rows && (w.rows[key].status.Failed? || w.rows[key].status.PermanentlyFailed?)
  }

  /** attemptCount is the number of admissions, whatever else happens to the row. */
  lemma StepCounts(w: World, e: Event, key: Key)
    ensures key in w.rows ==> key in Next(w, e).rows
    ensures key in Next(w, e).rows ==>
              && Next(w, e).rows[key].attemptCount
                 == (if key in w.rows then w.rows[key].attemptCount else 0) + (if Admits(w, e, key) then 1 else 0)
              && Next(w, e).rows[key].manualRetries
                 == (if key in w.rows then w.rows[key].manualRetries else 0) + (if Reopens(w, e, key) then 1 else 0)
  {
    hide RetryDelay;
  }

  lemma {:induction false} RunCounts(events: seq<Event>, key: Key)
    ensures AllBounded(Run(START, events))
    ensures key in Run(START, events).rows ==>
              && Run(START, events).rows[key].attemptCount == RetriesAdmitted(START, events, key)
              && Run(START, events).rows[key].manualRetries == ManualRetries(START, events, key)
    ensures key !in Run(START, events).rows ==> RetriesAdmitted(START, events, key) == 0 == ManualRetries(START, events, key)
  {
    if events != [] {
      var before := Run(START, events[..|events| - 1]);
      RunCounts(events[..|events| - 1], key);
      StepCounts(before, events[|events| - 1], key);
      NextBounded(before, events[|events| - 1]);
      hide Next, AllBounded;
    }
  }

  /** Retries end: claimRetry admits a key at most four times, and once more for every manual retry. */
  lemma RetriesEnd(events: seq<Event>, key: Key)
    ensures RetriesAdmitted(START, events, key) <= MAX_ATTEMPTS + ManualRetries(START, events, key)
  {
    RunCounts(events, key);
    if key in Run(START, events).rows {
      assert Bounded(Run(START, events).rows[key]);
    }
  }

  /* ---- Not before its time ---- */

  /** The last thing that could have put a key up for a retry. */
  datatype Cause = Nothing | Failure(at: nat) | Operator

  /** A step that records a failure on the key. */
  predicate RecordsFailure(w: World, e: Event, key: Key) {
    && e.RecordFailure? && key in w.rows && e.worker in w.workers && w.workers[e.worker].key == key
    && (w.workers[e.worker].at.Failing? || w.workers[e.worker].at.FailingAgain?)
  }

  function CauseOf(events: seq<Event>, key: Key): Cause {
    if events == [] then Nothing
    else
      var before, e := Run(START, events[..|events| - 1]), events[|events| - 1];
      if RecordsFailure(before, e, key) then Failure(before.now)
      else if Reopens(before, e, key) then Operator
      else CauseOf(events[..|events| - 1], key)
  }

  /** A FAILED action has a cause; after a recorded failure its retry time is the delay later. */
  predicate Paced(r: Row, cause: Cause) {
    r.status.Failed? ==>
      && r.nextRetryAt.Some? && !cause.Nothing?
      && (cause.Failure? ==> r.nextRetryAt.value >= cause.at + RetryDelay(r.attemptCount))
  }

  lemma StepPaced(w: World, e: Event, key: Key, cause: Cause)
    requires key in w.rows ==> Paced(w.rows[key], cause)
    requires key in Next(w, e).rows
    ensures Paced(Next(w, e).rows[key],
                  if RecordsFailure(w, e, key) then Failure(w.now) else if Reopens(w, e, key) then Operator else cause)
  {
    hide RetryDelay, Find, CancelledKeys;
    if e.Save? || e.SyncOrder? {
      hide MarkedFailed;
    } else {
      hide Saved, SyncedRow;
    }
  }

  lemma {:induction false} RunPaced(events: seq<Event>, key: Key)
    ensures key in Run(START, events).rows ==> Paced(Run(START, events).rows[key], CauseOf(events, key))
  {
    if events != [] {
      RunPaced(events[..|events| - 1], key);
      var before, e := Run(START, events[..|events| - 1]), events[|events| - 1];
      hide Next, RecordsFailure, Reopens, Paced;
      if key in Next(before, e).rows { StepPaced(before, e, key, CauseOf(events[..|events| - 1], key)); }
    }
  }

  /** claimRetry admits a free worker exactly to a FAILED action that is retryable and whose time has come, and takes it back to PENDING. */
  lemma AdmittedExactly(w: World, e: Event, key: Key)
    requires key in w.rows && key in Next(w, e).rows
    ensures var r, r' := w.rows[key], Next(w, e).rows[key];
            && (r'.attemptCount > r.attemptCount <==>
                  && e.ClaimRetry? && e.key == key && (e.worker in w.workers ==> w.workers[e.worker].at.Idle?)
                  && r.status.Failed? && r.retryable && r.nextRetryAt.Some? && r.nextRetryAt.value <= w.now)
            && (r'.attemptCount > r.attemptCount ==> r'.status.Pending? && !r'.retryable && r'.nextRetryAt.None?)
  {
    hide RetryDelay, Find, CancelledKeys, Resolution;
  }

  /**
   No retry is admitted before its time: unless an operator has reopened the action since, its last failure was
   recorded at least thirty seconds, and at least the delay of its attempt, ago.
   */
  lemma RetriesWait(events: seq<Event>, e: Event, key: Key)
    requires key in Run(START, events).rows && key in Next(Run(START, events), e).rows
    requires Next(Run(START, events), e).rows[key].attemptCount > Run(START, events).rows[key].attemptCount
    ensures !CauseOf(events, key).Nothing?
    ensures CauseOf(events, key).Failure? ==>
              && Run(START, events).now >= CauseOf(events, key).at + 30_000
              && Run(START, events).now >= CauseOf(events, key).at + RetryDelay(Run(START, events).rows[key].attemptCount)
  {
    RunPaced(events, key);
    AdmittedExactly(Run(START, events), e, key);
    RetryDelayBounds(Run(START, events).rows[key].attemptCount);
    hide Next, Run, RetryDelay;
  }
}
