/**
 The order protocol: strategy actions are claimed under an idempotency key,
 sent to an exchange whose reply may be lost, failed, retried by compare-and-set
 and resolved by what the exchange reports. Workers interleave in any way.

 The client order ID is an injective image of the action key, so orders of the
 exchange are tagged with the key itself. A request that fails is settled by
 then: it has been accepted, or it never will be.
 */
module ActionProtocol {
  import opened Reals

  /** An entry slot (one ladder or recovery level of one position) and the attempt at it; 1 is the base key. */
  datatype Key = Key(slot: nat, attempt: nat)

  datatype Status = Pending | Submitted | Completed | Failed | PermanentlyFailed | Cancelled

  /** `manualRetries` counts operator retries; the source keeps no such column, the bound needs the number. */
  datatype Row = Row(status: Status, retryable: bool, nextRetryAt: Option<nat>, attemptCount: nat, maxAttempts: nat,
                     manualRetries: nat)

  const MAX_ATTEMPTS: nat := 4
  const BASE_RETRY_DELAY_MS: nat := 30_000
  const MAX_RETRY_DELAY_MS: nat := 900_000

  /* ---- Row transitions ---- */

  const CLAIMED: Row := Row(Pending, false, None, 0, MAX_ATTEMPTS, 0)

  function Doubled(delay: nat, times: nat): nat
    decreases times
  {
    if times == 0 then delay else Doubled(2 * delay, times - 1)
  }

  function RetryDelay(attemptCount: nat): nat {
    var delay := Doubled(BASE_RETRY_DELAY_MS, if attemptCount > 1 then attemptCount - 1 else 0);
    if delay < MAX_RETRY_DELAY_MS then delay else MAX_RETRY_DELAY_MS
  }

  /** markFailed: scheduled for a retry, or given up when the failure is final or the attempts are used up. */
  function MarkedFailed(r: Row, now: nat, retryable: bool): Row {
    if !retryable || r.attemptCount >= r.maxAttempts
    then r.(status := PermanentlyFailed, retryable := false, nextRetryAt := None)
    else r.(status := Failed, retryable := true, nextRetryAt := Some(now + RetryDelay(r.attemptCount)))
  }

  predicate Due(r: Row, now: nat) {
    r.status.Failed? && r.retryable && r.nextRetryAt.Some? && r.nextRetryAt.value <= now
  }

  function RetryClaimed(r: Row): Row {
    r.(status := Pending, retryable := false, nextRetryAt := None, attemptCount := r.attemptCount + 1)
  }

  function ManuallyRetried(r: Row, now: nat): Row {
    r.(status := Failed, retryable := true, nextRetryAt := Some(now), manualRetries := r.manualRetries + 1)
  }

  function CancelledManually(r: Row): Row {
    r.(status := Cancelled, retryable := false, nextRetryAt := None)
  }

  /* ---- The exchange ---- */

  /** Working, completely filled, or ended early (cancelled, rejected, expired). */
  datatype OrderState = Working | Filled | Ended

  type Volume = q: real | q >= 0.0

  datatype Order = Order(key: Key, state: OrderState, filled: Volume)

  /** An order that is completely filled has a fill. */
  predicate Reportable(state: OrderState, filled: Volume) {
    state.Filled? ==> filled > 0.0
  }

  /** How a report of an order resolves its action. */
  function Resolution(state: OrderState, filled: Volume): Status {
    if state.Filled? || (state.Ended? && filled > 0.0) then Completed
    else if state.Ended? then Cancelled
    else Submitted
  }

  /* ---- Workers ---- */

  datatype Step =
    | Idle
    | Counted(count: nat)
    | LookingUp
    | Placing
    | Saving(order: nat, state: OrderState, filled: Volume)
    | Failing(retryable: bool)
    | FailingAgain(retryable: bool)

  /** A worker running executeMarketOrder for a key; `retry` when the retry scheduler called it. */
  datatype Worker = Worker(at: Step, key: Key, retry: bool)

  datatype World = World(now: nat, rows: map<Key, Row>, workers: map<nat, Worker>, exchange: seq<Order>,
                         saved: map<Key, OrderState>)

  const START: World := World(0, map[], map[], [], map[])

  datatype Lookup = Answered | LookupFailed(retryable: bool)
  /** An accepted order may have been executed, in part or in full, or ended before the reply arrives. */
  datatype Placement = Accepted(state: OrderState, filled: Volume) | ReplyLost(retryable: bool) | NotPlaced(retryable: bool)
  datatype Commit = Committed | RolledBack(retryable: bool) | AcknowledgementLost(retryable: bool)

  datatype Event =
    | Tick(milliseconds: nat)
    | CountCancelled(worker: nat, slot: nat)
    | ClaimCounted(worker: nat)
    | ClaimBase(worker: nat, slot: nat)
    | ClaimRetry(worker: nat, key: Key)
    | RefuseRetry(worker: nat, retryable: bool)
    | LookUp(worker: nat, lookup: Lookup)
    | Place(worker: nat, placement: Placement)
    | Save(worker: nat, commit: Commit)
    | RecordFailure(worker: nat)
    | ManualRetry(key: Key)
    | CancelRetry(key: Key)
    | SyncOrder(key: Key)
    | Execute(order: nat, quantity: Volume, complete: bool)
    | EndOrder(order: nat)

  predicate Free(w: World, x: nat) {
    x in w.workers ==> w.workers[x].at.Idle?
  }

  function Put(w: World, x: nat, worker: Worker): World {
    w.(workers := w.workers[x := worker])
  }

  function MoveTo(w: World, x: nat, at: Step): World
    requires x in w.workers
  {
    Put(w, x, w.workers[x].(at := at))
  }

  function CancelledKeys(w: World, slot: nat): set<Key> {
    set k | k in w.rows && k.slot == slot && w.rows[k].status.Cancelled?
  }

  /** The key of the next attempt: the base key, or the attempt after as many as were cancelled. */
  function NextKey(slot: nat, cancelled: nat): Key {
    if cancelled == 0 then Key(slot, 1) else Key(slot, cancelled + 1)
  }

  predicate Known(w: World, key: Key) {
    exists i :: 0 <= i < |w.exchange| && w.exchange[i].key == key
  }

  /** The first order of the exchange under a key. */
  function Find(orders: seq<Order>, key: Key): (i: nat)
    ensures i <= |orders|
    ensures i < |orders| ==> orders[i].key == key
    ensures i == |orders| ==> forall j :: 0 <= j < |orders| ==> orders[j].key != key
  {
    if orders == [] then 0 else if orders[0].key == key then 0 else 1 + Find(orders[1..], key)
  }

  /** Only the creator of the row goes on to place an order. */
  function ClaimKey(w: World, x: nat, key: Key): World {
    if key in w.rows then Put(w, x, Worker(Idle, key, false))
    else Put(w.(rows := w.rows[key := CLAIMED]), x, Worker(Placing, key, false))
  }

  function Accept(w: World, order: Order): World {
    w.(exchange := w.exchange + [order])
  }

  function Placed(w: World, x: nat, placement: Placement): World
    requires x in w.workers
  {
    var key := w.workers[x].key;
    match placement
    case Accepted(state, filled) => MoveTo(Accept(w, Order(key, state, filled)), x, Saving(|w.exchange|, state, filled))
    case ReplyLost(retryable) => MoveTo(Accept(w, Order(key, Working, 0.0)), x, Failing(retryable))
    case NotPlaced(retryable) => MoveTo(w, x, Failing(retryable))
  }

  function LookedUp(w: World, x: nat, lookup: Lookup): World
    requires x in w.workers
  {
    var i := Find(w.exchange, w.workers[x].key);
    match lookup
    case LookupFailed(retryable) => MoveTo(w, x, Failing(retryable))
    case Answered =>
      if i < |w.exchange| then MoveTo(w, x, Saving(i, w.exchange[i].state, w.exchange[i].filled))
      else MoveTo(w, x, Placing)
  }

  /** The transaction: an order row under a unique client ID, and the action's resolution. */
  function Saved(w: World, x: nat, commit: Commit): World
    requires x in w.workers && w.workers[x].at.Saving?
  {
    var key, at := w.workers[x].key, w.workers[x].at;
    if key in w.saved || key !in w.rows then MoveTo(w, x, Failing(false))
    else
      var done := w.(saved := w.saved[key := at.state],
                     rows := w.rows[key := w.rows[key].(status := Resolution(at.state, at.filled))]);
      match commit
      case Committed => MoveTo(done, x, Idle)
      case AcknowledgementLost(retryable) => MoveTo(done, x, Failing(retryable))
      case RolledBack(retryable) => MoveTo(w, x, Failing(retryable))
  }

  /** executeMarketOrder records the failure; the retry scheduler, catching the same error, records it again. */
  function FailureRecorded(w: World, x: nat): World
    requires x in w.workers && (w.workers[x].at.Failing? || w.workers[x].at.FailingAgain?)
  {
    var worker := w.workers[x];
    if worker.key !in w.rows then MoveTo(w, x, Idle)
    else
      var failed := w.(rows := w.rows[worker.key := MarkedFailed(w.rows[worker.key], w.now, worker.at.retryable)]);
      if worker.at.Failing? && worker.retry then MoveTo(failed, x, FailingAgain(worker.at.retryable))
      else MoveTo(failed, x, Idle)
  }

  /** A sync records what the exchange reports of a saved order, on the order and on its action. */
  function SyncedRow(w: World, key: Key): (v: World)
    ensures v.workers == w.workers && v.exchange == w.exchange && v.now == w.now
    ensures v.rows.Keys == w.rows.Keys && v.saved.Keys == w.saved.Keys
  {
    var i := Find(w.exchange, key);
    if key !in w.saved || key !in w.rows || i >= |w.exchange| then w
    else w.(saved := w.saved[key := w.exchange[i].state],
            rows := w.rows[key := w.rows[key].(status := Resolution(w.exchange[i].state, w.exchange[i].filled))])
  }

  /** One step; an event whose guard does not hold changes nothing. */
  function Next(w: World, e: Event): World {
    match e
    case Tick(milliseconds) => w.(now := w.now + milliseconds)
    case CountCancelled(x, slot) =>
      if Free(w, x) then Put(w, x, Worker(Counted(|CancelledKeys(w, slot)|), Key(slot, 0), false)) else w
    case ClaimCounted(x) =>
      if x in w.workers && w.workers[x].at.Counted? then ClaimKey(w, x, NextKey(w.workers[x].key.slot, w.workers[x].at.count)) else w
    case ClaimBase(x, slot) =>
      if Free(w, x) then ClaimKey(w, x, Key(slot, 1)) else w
    case ClaimRetry(x, key) =>
      if Free(w, x) && key in w.rows && Due(w.rows[key], w.now)
      then Put(w.(rows := w.rows[key := RetryClaimed(w.rows[key])]), x, Worker(LookingUp, key, true)) else w
    case RefuseRetry(x, retryable) =>
      if x in w.workers && w.workers[x].at.LookingUp? then MoveTo(w, x, FailingAgain(retryable)) else w
    case LookUp(x, lookup) =>
      if x in w.workers && w.workers[x].at.LookingUp? then LookedUp(w, x, lookup) else w
    case Place(x, placement) =>
      if x in w.workers && w.workers[x].at.Placing? && (placement.Accepted? ==> Reportable(placement.state, placement.filled))
      then Placed(w, x, placement) else w
    case Save(x, commit) =>
      if x in w.workers && w.workers[x].at.Saving? then Saved(w, x, commit) else w
    case RecordFailure(x) =>
      if x in w.workers && (w.workers[x].at.Failing? || w.workers[x].at.FailingAgain?) then FailureRecorded(w, x) else w
    case ManualRetry(key) =>
      if key in w.rows && (w.rows[key].status.Failed? || w.rows[key].status.PermanentlyFailed?)
      then w.(rows := w.rows[key := ManuallyRetried(w.rows[key], w.now)]) else w
    case CancelRetry(key) =>
      if key in w.rows && (w.rows[key].status.Failed? || w.rows[key].status.Pending?)
      then w.(rows := w.rows[key := CancelledManually(w.rows[key])]) else w
    case SyncOrder(key) => SyncedRow(w, key)
    case Execute(i, quantity, complete) =>
      if i < |w.exchange| && w.exchange[i].state.Working? && quantity > 0.0
      then w.(exchange := w.exchange[i := w.exchange[i].(filled := w.exchange[i].filled + quantity,
                                                         state := if complete then Filled else Working)]) else w
    case EndOrder(i) =>
      if i < |w.exchange| && w.exchange[i].state.Working?
      then w.(exchange := w.exchange[i := w.exchange[i].(state := Ended)]) else w
  }

  function Run(w: World, events: seq<Event>): World {
    if events == [] then w else Next(Run(w, events[..|events| - 1]), events[|events| - 1])
  }

  /** No worker still has to record a failure of this key for the second time. */
  predicate NoneFailingAgain(w: World, key: Key) {
    forall x :: x in w.workers && w.workers[x].key == key ==> !w.workers[x].at.FailingAgain?
  }

  /** The scheduler's second record of a failure comes before the key is claimed for a retry again. */
  predicate Ordered(w: World, e: Event) {
    e.ClaimRetry? ==> NoneFailingAgain(w, e.key)
  }

  predicate OrderedRun(w: World, events: seq<Event>) {
    events != [] ==>
      OrderedRun(w, events[..|events| - 1]) && Ordered(Run(w, events[..|events| - 1]), events[|events| - 1])
  }
}
