/** In every interleaving the exchange holds at most one order per action key. */
module ActionSafety {
  import opened Reals
  import opened ActionProtocol

  ghost predicate Engaged(s: Step) {
    s.LookingUp? || s.Placing? || s.Saving? || s.Failing?
  }

  ghost predicate Busy(s: Step) {
    Engaged(s) || s.FailingAgain?
  }

  /** The theorem's conclusion. */
  ghost predicate OneOrderPerKey(exchange: seq<Order>) {
    forall i, j :: 0 <= i < j < |exchange| ==> exchange[i].key != exchange[j].key
  }

  /** Every order and every busy worker belongs to a claimed key. */
  ghost predicate Rooted(w: World) {
    && (forall i :: 0 <= i < |w.exchange| ==> w.exchange[i].key in w.rows)
    && (forall x :: x in w.workers && Busy(w.workers[x].at) ==> w.workers[x].key in w.rows)
    && (forall k :: k in w.saved ==> Known(w, k))
  }

  ghost predicate Contend(w: World, x: nat, y: nat) {
    && x in w.workers && y in w.workers && w.workers[x].key == w.workers[y].key
    && Busy(w.workers[x].at) && Busy(w.workers[y].at)
  }

  /** A key is in the hands of one worker at a time, and while it is, it is not up for a retry. */
  ghost predicate Exclusive(w: World) {
    && (forall x, y :: Contend(w, x, y) ==> x == y)
    && (forall x :: x in w.workers && Engaged(w.workers[x].at) && w.workers[x].key in w.rows ==>
                      !w.rows[w.workers[x].key].status.Failed? && !w.rows[w.workers[x].key].status.PermanentlyFailed?)
  }

  /** Who is about to place finds no order there; who is about to save holds the key's order. */
  ghost predicate Informed(w: World) {
    && (forall x :: x in w.workers && w.workers[x].at.Placing? ==> !Known(w, w.workers[x].key))
    && (forall x :: x in w.workers && w.workers[x].at.Saving? ==>
                      w.workers[x].at.order < |w.exchange| && w.exchange[w.workers[x].at.order].key == w.workers[x].key)
  }

  ghost predicate Safe(w: World) {
    OneOrderPerKey(w.exchange) && Rooted(w) && Exclusive(w) && Informed(w)
  }

  lemma StartSafe()
    ensures Safe(START)
  {
  }

  ghost predicate Gone(r: Row) {
    r.status.Failed? || r.status.PermanentlyFailed?
  }

  /** No worker has the key. */
  ghost predicate Unattended(w: World, key: Key) {
    forall x :: x in w.workers && w.workers[x].key == key ==> !Busy(w.workers[x].at)
  }

  ghost predicate NoneEngaged(w: World, key: Key) {
    forall x :: x in w.workers && w.workers[x].key == key ==> !Engaged(w.workers[x].at)
  }

  /** With one order per key, a lookup finds the key's order. */
  lemma FindOnly(exchange: seq<Order>, j: nat)
    requires OneOrderPerKey(exchange) && j < |exchange|
    ensures Find(exchange, exchange[j].key) == j
  {
    forall h | 0 <= h < |exchange| && h != j ensures exchange[h].key != exchange[j].key {
      if h < j { assert exchange[h].key != exchange[j].key; } else { assert exchange[j].key != exchange[h].key; }
    }
  }

  /* ---- Elementary changes ---- */

  lemma RestSafe(w: World, x: nat, worker: Worker)
    requires Safe(w) && !Busy(worker.at)
    ensures Safe(Put(w, x, worker))
  {
    var after := Put(w, x, worker);
    forall a, b | Contend(after, a, b) ensures a == b {
      assert Contend(w, a, b);
    }
    assert forall k :: Known(after, k) == Known(w, k);
  }

  lemma ContinueSafe(w: World, x: nat, at: Step)
    requires Safe(w) && x in w.workers && Engaged(w.workers[x].at) && Busy(at)
    requires at.Placing? ==> !Known(w, w.workers[x].key)
    requires at.Saving? ==> at.order < |w.exchange| && w.exchange[at.order].key == w.workers[x].key
    ensures Safe(MoveTo(w, x, at))
  {
    var after := MoveTo(w, x, at);
    forall a, b | Contend(after, a, b) ensures a == b {
      assert Contend(w, a, b);
    }
    assert forall k :: Known(after, k) == Known(w, k);
  }

  lemma EnterSafe(w: World, x: nat, worker: Worker)
    requires Safe(w) && Unattended(w, worker.key)
    requires worker.at.LookingUp? || worker.at.Placing?
    requires worker.key in w.rows && !Gone(w.rows[worker.key])
    requires worker.at.Placing? ==> !Known(w, worker.key)
    ensures Safe(Put(w, x, worker))
  {
    var after := Put(w, x, worker);
    forall a, b | Contend(after, a, b) ensures a == b {
      if a != x && b != x { assert Contend(w, a, b); }
    }
    assert forall k :: Known(after, k) == Known(w, k);
  }

  lemma RowSafe(w: World, key: Key, row: Row)
    requires Safe(w) && (Gone(row) ==> NoneEngaged(w, key))
    ensures Safe(w.(rows := w.rows[key := row]))
  {
    var after := w.(rows := w.rows[key := row]);
    forall a, b | Contend(after, a, b) ensures a == b {
      assert Contend(w, a, b);
    }
    assert forall k :: Known(after, k) == Known(w, k);
  }

  lemma SavedSafe(w: World, key: Key, state: OrderState)
    requires Safe(w) && Known(w, key)
    ensures Safe(w.(saved := w.saved[key := state]))
  {
    var after := w.(saved := w.saved[key := state]);
    forall a, b | Contend(after, a, b) ensures a == b {
      assert Contend(w, a, b);
    }
    assert forall k :: Known(after, k) == Known(w, k);
  }

  /** The exchange accepts the order of a worker that is placing, which then holds it. */
  lemma AcceptSafe(w: World, x: nat, order: Order, at: Step)
    requires Safe(w) && x in w.workers && w.workers[x].at.Placing? && order.key == w.workers[x].key
    requires (at.Saving? && at.order == |w.exchange|) || at.Failing?
    ensures Safe(MoveTo(Accept(w, order), x, at))
  {
    var key := w.workers[x].key;
    var after := MoveTo(Accept(w, order), x, at);
    forall a, b | Contend(after, a, b) ensures a == b {
      assert Contend(w, a, b);
    }
    forall k | Known(w, k) ensures Known(after, k) {
      var i :| 0 <= i < |w.exchange| && w.exchange[i].key == k;
      assert after.exchange[i].key == k;
    }
    forall y | y in after.workers && after.workers[y].at.Placing? ensures !Known(after, after.workers[y].key) {
      if after.workers[y].key == key { assert Contend(w, y, x); }
    }
  }

  lemma ExchangeSafe(w: World, i: nat, order: Order)
    requires Safe(w) && i < |w.exchange| && order.key == w.exchange[i].key
    ensures Safe(w.(exchange := w.exchange[i := order]))
  {
    var after := w.(exchange := w.exchange[i := order]);
    forall a, b | Contend(after, a, b) ensures a == b {
      assert Contend(w, a, b);
    }
    forall k ensures Known(after, k) == Known(w, k) {
      if Known(w, k) {
        var j :| 0 <= j < |w.exchange| && w.exchange[j].key == k;
        assert after.exchange[j].key == k;
      }
      if Known(after, k) {
        var j :| 0 <= j < |after.exchange| && after.exchange[j].key == k;
        assert w.exchange[j].key == k;
      }
    }
  }

  /* ---- Steps ---- */

  lemma UnclaimedIsUnattended(w: World, key: Key)
    requires Safe(w) && key !in w.rows
    ensures Unattended(w, key) && !Known(w, key)
  {
  }

  lemma ClaimKeySafe(w: World, x: nat, key: Key)
    requires Safe(w)
    ensures Safe(ClaimKey(w, x, key))
  {
    hide Safe, Unattended, Known;
    if key in w.rows {
      RestSafe(w, x, Worker(Idle, key, false));
    } else {
      UnclaimedIsUnattended(w, key);
      RowSafe(w, key, CLAIMED);
      UnattendedAfterRow(w, key, CLAIMED);
      EnterSafe(w.(rows := w.rows[key := CLAIMED]), x, Worker(Placing, key, false));
    }
  }

  lemma UnattendedAfterRow(w: World, key: Key, row: Row)
    ensures Unattended(w.(rows := w.rows[key := row]), key) == Unattended(w, key)
    ensures Known(w.(rows := w.rows[key := row]), key) == Known(w, key)
  {
  }

  /** A key that is due for a retry is in nobody's hands once every failure has been recorded twice. */
  lemma DueIsUnattended(w: World, key: Key)
    requires Safe(w) && NoneFailingAgain(w, key) && key in w.rows && Due(w.rows[key], w.now)
    ensures Unattended(w, key)
  {
  }

  lemma ClaimRetrySafe(w: World, x: nat, key: Key)
    requires Safe(w) && NoneFailingAgain(w, key)
    ensures Safe(Next(w, ClaimRetry(x, key)))
  {
    if Free(w, x) && key in w.rows && Due(w.rows[key], w.now) {
      hide Safe, Unattended, Known, Due;
      var row := RetryClaimed(w.rows[key]);
      DueIsUnattended(w, key);
      RowSafe(w, key, row);
      UnattendedAfterRow(w, key, row);
      EnterSafe(w.(rows := w.rows[key := row]), x, Worker(LookingUp, key, true));
    }
  }

  lemma LookedUpSafe(w: World, x: nat, lookup: Lookup)
    requires Safe(w) && x in w.workers && w.workers[x].at.LookingUp?
    ensures Safe(LookedUp(w, x, lookup))
  {
    hide Safe;
    var i := Find(w.exchange, w.workers[x].key);
    match lookup
    case LookupFailed(retryable) => ContinueSafe(w, x, Failing(retryable));
    case Answered =>
      if i < |w.exchange| {
        ContinueSafe(w, x, Saving(i, w.exchange[i].state, w.exchange[i].filled));
      } else {
        ContinueSafe(w, x, Placing);
      }
  }

  lemma PlacedSafe(w: World, x: nat, placement: Placement)
    requires Safe(w) && x in w.workers && w.workers[x].at.Placing?
    ensures Safe(Placed(w, x, placement))
  {
    hide Safe;
    match placement
    case Accepted(state, filled) => AcceptSafe(w, x, Order(w.workers[x].key, state, filled), Saving(|w.exchange|, state, filled));
    case ReplyLost(retryable) => AcceptSafe(w, x, Order(w.workers[x].key, Working, 0.0), Failing(retryable));
    case NotPlaced(retryable) => ContinueSafe(w, x, Failing(retryable));
  }

  lemma SavingKnows(w: World, x: nat)
    requires Safe(w) && x in w.workers && w.workers[x].at.Saving?
    ensures Known(w, w.workers[x].key)
  {
    assert w.exchange[w.workers[x].at.order].key == w.workers[x].key;
  }

  lemma SavedStepSafe(w: World, x: nat, commit: Commit)
    requires Safe(w) && x in w.workers && w.workers[x].at.Saving?
    ensures Safe(Saved(w, x, commit))
  {
    hide Safe, Known;
    var key, at := w.workers[x].key, w.workers[x].at;
    ContinueSafe(w, x, Failing(false));
    SavingKnows(w, x);
    if key !in w.saved && key in w.rows {
      var row := w.rows[key].(status := Resolution(at.state, at.filled));
      SavedSafe(w, key, at.state);
      RowSafe(w.(saved := w.saved[key := at.state]), key, row);
      var done := w.(saved := w.saved[key := at.state], rows := w.rows[key := row]);
      match commit
      case Committed => RestSafe(done, x, w.workers[x].(at := Idle));
      case AcknowledgementLost(retryable) => ContinueSafe(done, x, Failing(retryable));
      case RolledBack(retryable) => ContinueSafe(w, x, Failing(retryable));
    }
  }

  /** Once the only worker of a key gives it up, or only waits to record its failure again, nobody is engaged with it. */
  lemma LetsGo(w: World, x: nat, at: Step)
    requires Safe(w) && x in w.workers && Busy(w.workers[x].at) && !Engaged(at)
    ensures NoneEngaged(MoveTo(w, x, at), w.workers[x].key)
  {
    var after := MoveTo(w, x, at);
    forall y | y in after.workers && after.workers[y].key == w.workers[x].key ensures !Engaged(after.workers[y].at) {
      assert Contend(w, y, x) ==> y == x;
    }
  }

  lemma FailureRecordedSafe(w: World, x: nat)
    requires Safe(w) && x in w.workers && (w.workers[x].at.Failing? || w.workers[x].at.FailingAgain?)
    ensures Safe(FailureRecorded(w, x))
  {
    hide Safe, NoneEngaged;
    var worker := w.workers[x];
    var again := worker.at.Failing? && worker.retry && worker.key in w.rows;
    var at := if again then FailingAgain(worker.at.retryable) else Idle;
    if again { ContinueSafe(w, x, at); } else { RestSafe(w, x, worker.(at := at)); }
    LetsGo(w, x, at);
    if worker.key in w.rows {
      var row := MarkedFailed(w.rows[worker.key], w.now, worker.at.retryable);
      RowSafe(MoveTo(w, x, at), worker.key, row);
      assert FailureRecorded(w, x) == MoveTo(w, x, at).(rows := w.rows[worker.key := row]);
    }
  }

  lemma GoneIsUnengaged(w: World, key: Key)
    requires Safe(w) && key in w.rows && Gone(w.rows[key])
    ensures NoneEngaged(w, key)
  {
  }

  lemma OperatorSafe(w: World, key: Key)
    requires Safe(w)
    ensures Safe(Next(w, ManualRetry(key))) && Safe(Next(w, CancelRetry(key))) && Safe(Next(w, SyncOrder(key)))
  {
    hide Safe, NoneEngaged;
    if key in w.rows {
      if Gone(w.rows[key]) {
        GoneIsUnengaged(w, key);
        RowSafe(w, key, ManuallyRetried(w.rows[key], w.now));
      }
      RowSafe(w, key, CancelledManually(w.rows[key]));
      var i := Find(w.exchange, key);
      if i < |w.exchange| {
        assert Known(w, key);
        SavedSafe(w, key, w.exchange[i].state);
        RowSafe(w.(saved := w.saved[key := w.exchange[i].state]), key,
                w.rows[key].(status := Resolution(w.exchange[i].state, w.exchange[i].filled)));
      }
    }
  }

  lemma TickSafe(w: World, milliseconds: nat)
    requires Safe(w)
    ensures Safe(w.(now := w.now + milliseconds))
  {
    var after := w.(now := w.now + milliseconds);
    forall a, b | Contend(after, a, b) ensures a == b {
      assert Contend(w, a, b);
    }
    assert forall k :: Known(after, k) == Known(w, k);
  }

  lemma NextSafe(w: World, e: Event)
    requires Safe(w) && Ordered(w, e)
    ensures Safe(Next(w, e))
  {
    hide Safe, NoneFailingAgain, ClaimKey, LookedUp, Placed, Saved, FailureRecorded, Due;
    match e
    case Tick(milliseconds) => TickSafe(w, milliseconds);
    case CountCancelled(x, slot) => RestSafe(w, x, Worker(Counted(|CancelledKeys(w, slot)|), Key(slot, 0), false));
    case ClaimCounted(x) =>
      if x in w.workers && w.workers[x].at.Counted? {
        ClaimKeySafe(w, x, NextKey(w.workers[x].key.slot, w.workers[x].at.count));
      }
    case ClaimBase(x, slot) => ClaimKeySafe(w, x, Key(slot, 1));
    case ClaimRetry(x, key) => ClaimRetrySafe(w, x, key);
    case RefuseRetry(x, retryable) =>
      if x in w.workers && w.workers[x].at.LookingUp? { ContinueSafe(w, x, FailingAgain(retryable)); }
    case LookUp(x, lookup) =>
      if x in w.workers && w.workers[x].at.LookingUp? { LookedUpSafe(w, x, lookup); }
    case Place(x, placement) =>
      if x in w.workers && w.workers[x].at.Placing? { PlacedSafe(w, x, placement); }
    case Save(x, commit) =>
      if x in w.workers && w.workers[x].at.Saving? { SavedStepSafe(w, x, commit); }
    case RecordFailure(x) =>
      if x in w.workers && (w.workers[x].at.Failing? || w.workers[x].at.FailingAgain?) { FailureRecordedSafe(w, x); }
    case ManualRetry(key) => OperatorSafe(w, key);
    case CancelRetry(key) => OperatorSafe(w, key);
    case SyncOrder(key) => OperatorSafe(w, key);
    case Execute(i, quantity, complete) =>
      if i < |w.exchange| {
        ExchangeSafe(w, i, w.exchange[i].(filled := w.exchange[i].filled + quantity, state := if complete then Filled else Working));
      }
    case EndOrder(i) =>
      if i < |w.exchange| { ExchangeSafe(w, i, w.exchange[i].(state := Ended)); }
  }

  /**
   Whatever the interleaving of claims, lost replies, failures, retries, syncs and operator actions, the
   exchange never holds two orders of one key.
   */
  lemma {:induction false} AtMostOneOrder(events: seq<Event>)
    requires OrderedRun(START, events)
    ensures Safe(Run(START, events)) && OneOrderPerKey(Run(START, events).exchange)
  {
    if events == [] {
      StartSafe();
    } else {
      AtMostOneOrder(events[..|events| - 1]);
      hide Next, Ordered;
      NextSafe(Run(START, events[..|events| - 1]), events[|events| - 1]);
    }
  }

  /* ---- Why the second record of a failure must come first ---- */

  lemma {:induction false} RunAfter(w: World, first: Event, rest: seq<Event>)
    ensures Run(w, [first] + rest) == Run(Next(w, first), rest)
  {
    if rest == [] {
      assert Run(w, [first]) == Next(Run(w, []), first);
      assert [first] + rest == [first];
    } else {
      RunAfter(w, first, rest[..|rest| - 1]);
      assert ([first] + rest)[..|rest|] == [first] + rest[..|rest| - 1];
    }
  }

  const CONTESTED: Key := Key(0, 1)

  /** The usual reply: accepted, nothing executed yet. */
  const ACCEPTED: Placement := Accepted(Working, 0.0)

  /** A first attempt that fails. */
  function FirstFails(rest: seq<Event>): seq<Event> {
    [ClaimBase(0, 0)] + ([Place(0, NotPlaced(true))] + ([RecordFailure(0)] + rest))
  }

  /** A retry that cannot look the order up; its failure is recorded once, by executeMarketOrder. */
  function RetryFails(rest: seq<Event>): seq<Event> {
    [Tick(30_000)] + ([ClaimRetry(1, CONTESTED)] + ([LookUp(1, LookupFailed(true))] + ([RecordFailure(1)] + rest)))
  }

  /** The next retry is claimed before the scheduler records that failure again. */
  function RecordedLate(rest: seq<Event>): seq<Event> {
    [Tick(30_000)] + ([ClaimRetry(2, CONTESTED)] + ([LookUp(2, Answered)] + ([RecordFailure(1)] + rest)))
  }

  /** The late record has put the key up for one more retry, so two workers place. */
  function BothPlace(): seq<Event> {
    [Tick(60_000)] + ([ClaimRetry(3, CONTESTED)] + ([LookUp(3, Answered)] + ([Place(2, ACCEPTED)] + ([Place(3, ACCEPTED)] + []))))
  }

  /** The key is up for a retry at `due`, and the workers from x on are free. */
  ghost predicate Waiting(w: World, x: nat, due: nat, attempts: nat) {
    && w.exchange == [] && w.now <= due
    && (forall y :: y in w.workers ==> y < x)
    && CONTESTED in w.rows && w.rows[CONTESTED] == Row(Failed, true, Some(due), attempts, MAX_ATTEMPTS, 0)
  }

  lemma FirstFailsRun(rest: seq<Event>) returns (w: World)
    ensures Waiting(w, 1, 30_000, 0) && w.now == 0
    ensures Run(START, FirstFails(rest)) == Run(w, rest)
  {
    var w1 := Next(START, ClaimBase(0, 0));
    var w2 := Next(w1, Place(0, NotPlaced(true)));
    assert w2.workers[0] == Worker(Failing(true), CONTESTED, false) && w2.rows[CONTESTED] == CLAIMED;
    w := Next(w2, RecordFailure(0));
    hide Next, Run;
    RunAfter(START, ClaimBase(0, 0), [Place(0, NotPlaced(true))] + ([RecordFailure(0)] + rest));
    RunAfter(w1, Place(0, NotPlaced(true)), [RecordFailure(0)] + rest);
    RunAfter(w2, RecordFailure(0), rest);
  }

  lemma RetryFailsRun(v: World, rest: seq<Event>) returns (w: World)
    requires Waiting(v, 1, 30_000, 0) && v.now == 0
    ensures Waiting(w, 2, 60_000, 1) && w.now == 30_000
    ensures 1 in w.workers && w.workers[1] == Worker(FailingAgain(true), CONTESTED, true)
    ensures Run(v, RetryFails(rest)) == Run(w, rest)
  {
    hide Find, CancelledKeys, SyncedRow, Saved;
    var w1 := Next(v, Tick(30_000));
    var w2 := Next(w1, ClaimRetry(1, CONTESTED));
    var w3 := Next(w2, LookUp(1, LookupFailed(true)));
    assert w3.workers[1] == Worker(Failing(true), CONTESTED, true) && w3.rows[CONTESTED] == RetryClaimed(v.rows[CONTESTED]);
    w := Next(w3, RecordFailure(1));
    hide Next, Run, Waiting;
    RunAfter(v, Tick(30_000), [ClaimRetry(1, CONTESTED)] + ([LookUp(1, LookupFailed(true))] + ([RecordFailure(1)] + rest)));
    RunAfter(w1, ClaimRetry(1, CONTESTED), [LookUp(1, LookupFailed(true))] + ([RecordFailure(1)] + rest));
    RunAfter(w2, LookUp(1, LookupFailed(true)), [RecordFailure(1)] + rest);
    RunAfter(w3, RecordFailure(1), rest);
  }

  /** A worker claims the retry once it is due, and finds no order. */
  lemma RetryPlacesRun(v: World, x: nat, wait: nat, due: nat, attempts: nat, rest: seq<Event>) returns (w: World)
    requires Waiting(v, x, due, attempts) && v.now + wait >= due
    ensures w.exchange == [] && w.now == v.now + wait
    ensures w.rows == v.rows[CONTESTED := RetryClaimed(v.rows[CONTESTED])]
    ensures w.workers == v.workers[x := Worker(Placing, CONTESTED, true)]
    ensures Run(v, [Tick(wait)] + ([ClaimRetry(x, CONTESTED)] + ([LookUp(x, Answered)] + rest))) == Run(w, rest)
  {
    hide CancelledKeys, SyncedRow, Saved, Find;
    var w1 := Next(v, Tick(wait));
    var w2 := Next(w1, ClaimRetry(x, CONTESTED));
    w := Next(w2, LookUp(x, Answered));
    assert w == Put(w2, x, Worker(Placing, CONTESTED, true));
    assert w.workers == v.workers[x := Worker(Placing, CONTESTED, true)];
    hide Next, Run, Waiting;
    RunAfter(v, Tick(wait), [ClaimRetry(x, CONTESTED)] + ([LookUp(x, Answered)] + rest));
    RunAfter(w1, ClaimRetry(x, CONTESTED), [LookUp(x, Answered)] + rest);
    RunAfter(w2, LookUp(x, Answered), rest);
  }

  lemma RecordedLateRun(v: World, rest: seq<Event>) returns (w: World)
    requires Waiting(v, 2, 60_000, 1) && v.now == 30_000
    requires 1 in v.workers && v.workers[1] == Worker(FailingAgain(true), CONTESTED, true)
    ensures Waiting(w, 3, 120_000, 2) && w.now == 60_000
    ensures 2 in w.workers && w.workers[2] == Worker(Placing, CONTESTED, true)
    ensures Run(v, RecordedLate(rest)) == Run(w, rest)
  {
    hide Run;
    var w1 := RetryPlacesRun(v, 2, 30_000, 60_000, 1, [RecordFailure(1)] + rest);
    w := Next(w1, RecordFailure(1));
    hide Next;
    RunAfter(w1, RecordFailure(1), rest);
  }

  lemma BothPlaceRun(v: World)
    requires Waiting(v, 3, 120_000, 2) && v.now == 60_000
    requires 2 in v.workers && v.workers[2] == Worker(Placing, CONTESTED, true)
    ensures !OneOrderPerKey(Run(v, BothPlace()).exchange)
  {
    var t: seq<Event> := [Place(3, ACCEPTED)] + [];
    var w1 := RetryPlacesRun(v, 3, 60_000, 120_000, 2, [Place(2, ACCEPTED)] + t);
    var w2 := Next(w1, Place(2, ACCEPTED));
    var w3 := Next(w2, Place(3, ACCEPTED));
    assert |w3.exchange| == 2 && w3.exchange[0].key == w3.exchange[1].key;
    assert Run(w3, []) == w3;
    hide Next, Run, Waiting;
    RunAfter(w1, Place(2, ACCEPTED), t);
    RunAfter(w2, Place(3, ACCEPTED), []);
  }

  /** Without the ordering assumption the exchange can end up with two orders of one key. */
  lemma LateRecordDoublesTheOrder()
    ensures !OneOrderPerKey(Run(START, FirstFails(RetryFails(RecordedLate(BothPlace())))).exchange)
  {
    hide Run, FirstFails, RetryFails, RecordedLate, BothPlace, Waiting, OneOrderPerKey;
    var w1 := FirstFailsRun(RetryFails(RecordedLate(BothPlace())));
    var w2 := RetryFailsRun(w1, RecordedLate(BothPlace()));
    var w3 := RecordedLateRun(w2, BothPlace());
    BothPlaceRun(w3);
  }
}
