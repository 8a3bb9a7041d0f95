/**
 Which operator cancellations are safe, when ticks and claims make their
 queries. `ActionQueries` shows that the covered ones never let two attempts of
 a slot fill; here every other cancellation is continued to a world in which
 two have filled.
 */
module ActionCancel {
  import opened ActionProtocol
  import opened ActionSafety
  import opened ActionSlots
  import opened ActionQueries

  /** A run leads from w to v, its failures recorded in order, its queries made, and all its cancellations covered. */
  ghost predicate Leads(w: World, v: World) {
    exists events :: OrderedRun(w, events) && GuardedRun(w, events) && Run(w, events) == v
  }

  /** Two attempts of one slot can still fill. */
  ghost predicate CanFillTwice(w: World) {
    exists v :: Leads(w, v) && !SlotsFilledOnce(v)
  }

  lemma LeadsToItself(w: World)
    ensures Leads(w, w)
  {
    assert OrderedRun(w, []) && GuardedRun(w, []) && Run(w, []) == w;
  }

  lemma LeadsOn(w: World, v: World, e: Event)
    requires Leads(w, v) && Ordered(v, e) && Queried(v, e) && Covered(v, e)
    ensures Leads(w, Next(v, e))
  {
    hide Next, Ordered, Queried, Covered;
    var events :| OrderedRun(w, events) && GuardedRun(w, events) && Run(w, events) == v;
    var longer := events + [e];
    assert longer[..|longer| - 1] == events && longer[|longer| - 1] == e;
    assert OrderedRun(w, longer) && GuardedRun(w, longer) && Run(w, longer) == Next(v, e);
  }

  /** Steps that neither count, claim nor cancel need no query and no cover. */
  lemma LeadsFreely(w: World, v: World, e: Event)
    requires Leads(w, v) && Ordered(v, e) && !e.CountCancelled? && !e.ClaimCounted? && !e.CancelRetry?
    ensures Leads(w, Next(v, e))
  {
    hide Leads, Ordered;
    LeadsOn(w, v, e);
  }

  /* ---- A covered cancellation keeps the theorem ---- */

  lemma {:induction false} LedSafe(w: World, events: seq<Event>)
    requires Safe(w) && OrderedRun(w, events)
    ensures Safe(Run(w, events))
  {
    if events != [] {
      LedSafe(w, events[..|events| - 1]);
      hide Next, Safe, Ordered;
      NextSafe(Run(w, events[..|events| - 1]), events[|events| - 1]);
    }
  }

  lemma SoundCannotFillTwice(w: World)
    requires Safe(w) && GuardedInv(w)
    ensures !CanFillTwice(w)
  {
    forall v | Leads(w, v) ensures SlotsFilledOnce(v) {
      var events :| OrderedRun(w, events) && GuardedRun(w, events) && Run(w, events) == v;
      LedSafe(w, events);
      RunGuarded(w, events);
      OnlyOneAttemptFills(v);
    }
  }

  /* ---- Two more facts about every reachable world ---- */

  /** What is resolved is saved, and a filled order has a fill. */
  ghost predicate Recorded(w: World) {
    && (forall k :: k in w.rows && (w.rows[k].status.Submitted? || w.rows[k].status.Completed?) ==> k in w.saved)
    && (forall i :: 0 <= i < |w.exchange| ==> Reportable(w.exchange[i].state, w.exchange[i].filled))
  }

  lemma RowRecorded(w: World, e: Event, k: Key)
    requires k in Next(w, e).rows && (Next(w, e).rows[k].status.Submitted? || Next(w, e).rows[k].status.Completed?)
    requires k in w.rows && (w.rows[k].status.Submitted? || w.rows[k].status.Completed?) ==> k in w.saved
    ensures k in Next(w, e).saved
  {
    hide RetryDelay, Find, CancelledKeys, Due, Resolution;
  }

  lemma OrderReportable(w: World, e: Event, i: nat)
    requires i < |Next(w, e).exchange|
    requires i < |w.exchange| ==> Reportable(w.exchange[i].state, w.exchange[i].filled)
    ensures Reportable(Next(w, e).exchange[i].state, Next(w, e).exchange[i].filled)
  {
    hide MarkedFailed, Find, CancelledKeys, Due, Resolution;
  }

  lemma {:induction false} RunRecorded(events: seq<Event>)
    ensures Recorded(Run(START, events))
  {
    if events != [] {
      var w, e := Run(START, events[..|events| - 1]), events[|events| - 1];
      RunRecorded(events[..|events| - 1]);
      hide Next, Reportable;
      forall k | k in Next(w, e).rows && (Next(w, e).rows[k].status.Submitted? || Next(w, e).rows[k].status.Completed?)
        ensures k in Next(w, e).saved
      {
        RowRecorded(w, e, k);
      }
      forall i | 0 <= i < |Next(w, e).exchange|
        ensures Reportable(Next(w, e).exchange[i].state, Next(w, e).exchange[i].filled)
      {
        OrderReportable(w, e, i);
      }
    }
  }

  /* ---- First the earlier attempts are made to count as cancelled again ---- */

  /** Nothing on record holds the slot because of the key: its action is CANCELLED and no saved order of it counts as working. */
  ghost predicate CountsFreely(w: World, key: Key) {
    key in w.rows && w.rows[key].status.Cancelled? && !OnRecord(w, key)
  }

  /** The attempt is CANCELLED without an order on record, or its order is dead and a sync or a harmless cancellation can settle it. */
  ghost predicate Countable(w: World, key: Key) {
    key in w.rows &&
    ((w.rows[key].status.Cancelled? && key !in w.saved)
     || (Dead(w, key) && (w.rows[key].status.Submitted? || w.rows[key].status.Completed? ==> key in w.saved)))
  }

  /** Only what concerns the key may differ. */
  ghost predicate SameBut(u: World, v: World, key: Key) {
    && key in u.rows && u.rows == v.rows[key := u.rows[key]]
    && (forall k :: k != key ==> (OnRecord(u, k) <==> OnRecord(v, k))) && u.saved.Keys == v.saved.Keys
    && u.exchange == v.exchange && u.workers == v.workers
  }

  lemma CountOne(w: World, v: World, key: Key) returns (u: World)
    requires Leads(w, v) && OneOrderPerKey(v.exchange) && Countable(v, key)
    ensures Leads(w, u) && CountsFreely(u, key) && SameBut(u, v, key)
  {
    if key in v.saved {
      u := SyncCounts(w, v, key);
    } else if v.rows[key].status.Cancelled? {
      u := v;
    } else {
      hide Leads, Dead;
      var x := v;
      if v.rows[key].status.PermanentlyFailed? {
        LeadsFreely(w, v, ManualRetry(key));
        x := Next(v, ManualRetry(key));
        DeadSame(v, x, key);
      }
      LeadsOn(w, x, CancelRetry(key));
      u := Next(x, CancelRetry(key));
    }
  }

  /** A sync of an order that has died makes its action CANCELLED. */
  lemma SyncCounts(w: World, v: World, key: Key) returns (u: World)
    requires Leads(w, v) && OneOrderPerKey(v.exchange) && key in v.rows && key in v.saved && Dead(v, key)
    ensures Leads(w, u) && CountsFreely(u, key) && SameBut(u, v, key)
  {
    var i :| 0 <= i < |v.exchange| && DeadOrder(v.exchange, i, key);
    FindOnly(v.exchange, i);
    hide Leads, Find, OneOrderPerKey;
    LeadsFreely(w, v, SyncOrder(key));
    u := Next(v, SyncOrder(key));
  }

  lemma DeadSame(w: World, after: World, key: Key)
    requires after.exchange == w.exchange
    ensures Dead(after, key) == Dead(w, key)
  {
  }

  /** The attempts 1 to m of the slot count; nothing else has changed. */
  ghost predicate CountedUpTo(w: World, u: World, slot: nat, m: nat) {
    && u.rows.Keys == w.rows.Keys && u.saved.Keys == w.saved.Keys && u.exchange == w.exchange && u.workers == w.workers
    && (forall k :: k in w.rows && !(k.slot == slot && 1 <= k.attempt <= m) ==> u.rows[k] == w.rows[k])
    && (forall k: Key :: !(k.slot == slot && 1 <= k.attempt <= m) ==> (OnRecord(u, k) <==> OnRecord(w, k)))
    && (forall j :: 1 <= j <= m ==> CountsFreely(u, Key(slot, j)))
  }

  lemma {:induction false} CountAll(w: World, slot: nat, m: nat) returns (u: World)
    requires OneOrderPerKey(w.exchange)
    requires forall j :: 1 <= j <= m ==> Countable(w, Key(slot, j))
    ensures Leads(w, u) && CountedUpTo(w, u, slot, m)
  {
    if m == 0 {
      LeadsToItself(w);
      u := w;
    } else {
      hide Leads, OneOrderPerKey, Dead, OnRecord, SameBut, CountsFreely;
      var v := CountAll(w, slot, m - 1);
      StillCountable(w, v, slot, m);
      hide Countable, CountedUpTo;
      u := CountOne(w, v, Key(slot, m));
      CountedOneMore(w, v, u, slot, m);
    }
  }

  lemma StillCountable(w: World, v: World, slot: nat, m: nat)
    requires m > 0 && CountedUpTo(w, v, slot, m - 1) && Countable(w, Key(slot, m))
    ensures Countable(v, Key(slot, m)) && v.exchange == w.exchange
  {
    DeadSame(w, v, Key(slot, m));
    hide Dead, OnRecord, CountsFreely;
  }

  lemma CountedOneMore(w: World, v: World, u: World, slot: nat, m: nat)
    requires m > 0 && CountedUpTo(w, v, slot, m - 1) && SameBut(u, v, Key(slot, m)) && CountsFreely(u, Key(slot, m))
    requires Key(slot, m) in v.rows
    ensures CountedUpTo(w, u, slot, m)
  {
    hide OnRecord;
    forall j | 1 <= j <= m ensures CountsFreely(u, Key(slot, j)) {
      if j < m { assert CountsFreely(v, Key(slot, j)) && Key(slot, j) != Key(slot, m); }
    }
  }

  /* ---- Then the next attempt is made, and fills ---- */

  lemma {:induction false} Bounded(xs: set<nat>) returns (n: nat)
    ensures forall x :: x in xs ==> x < n
  {
    if xs == {} {
      n := 0;
    } else {
      var x :| x in xs;
      var m := Bounded(xs - {x});
      n := if x < m then m else x + 1;
      forall y | y in xs ensures y < n {
        if y != x { assert y in xs - {x}; }
      }
    }
  }

  /** With all n attempts of the slot counting, the tick and the claim go ahead. */
  lemma NothingPending(u: World, slot: nat, n: nat)
    requires forall k :: k in u.rows && k.slot == slot <==> k in FirstKeys(slot, n)
    requires forall k :: k in FirstKeys(slot, n) ==> CountsFreely(u, k)
    requires forall k :: k in u.saved ==> k in u.rows
    ensures |CancelledKeys(u, slot)| == n && !TickWaits(u, slot) && !ClaimBlocked(u, slot)
  {
    hide FirstKeys;
    assert CancelledKeys(u, slot) == FirstKeys(slot, n);
  }

  lemma SameQuery(u: World, v: World, slot: nat)
    requires u.rows == v.rows && u.saved == v.saved
    ensures ClaimBlocked(u, slot) == ClaimBlocked(v, slot)
  {
    assert forall k :: OnRecord(u, k) == OnRecord(v, k);
  }

  lemma NextAttemptFills(w: World, u: World, slot: nat, n: nat) returns (v: World)
    requires Leads(w, u) && n >= 1
    requires forall k :: k in u.rows && k.slot == slot <==> k in FirstKeys(slot, n)
    requires forall k :: k in FirstKeys(slot, n) ==> CountsFreely(u, k)
    requires forall k :: k in u.saved ==> k in u.rows
    ensures Leads(w, v)
    ensures v.exchange == u.exchange + [Order(Key(slot, n + 1), Filled, 1.0)]
    ensures v.rows == u.rows[Key(slot, n + 1) := CLAIMED]
    ensures forall y :: y in u.workers ==> y in v.workers && v.workers[y] == u.workers[y]
    ensures forall y :: y in v.workers && y !in u.workers ==> v.workers[y].key == Key(slot, n + 1)
  {
    hide Leads, FirstKeys, CancelledKeys, Next, TickWaits, ClaimBlocked, CountsFreely;
    var x := Bounded(u.workers.Keys);
    assert x !in u.workers;
    assert Key(slot, n + 1) !in u.rows;
    NothingPending(u, slot, n);
    var v1 := CountLeads(w, u, x, slot, n);
    SameQuery(u, v1, slot);
    var v2 := ClaimLeads(w, v1, x, slot, n);
    v := PlaceLeads(w, v2, x, Key(slot, n + 1));
  }

  lemma CountLeads(w: World, u: World, x: nat, slot: nat, n: nat) returns (v: World)
    requires Leads(w, u) && Free(u, x) && |CancelledKeys(u, slot)| == n && !TickWaits(u, slot)
    ensures Leads(w, v) && v == Put(u, x, Worker(Counted(n), Key(slot, 0), false))
  {
    hide Leads, CancelledKeys;
    LeadsOn(w, u, CountCancelled(x, slot));
    v := Next(u, CountCancelled(x, slot));
  }

  lemma PlaceLeads(w: World, u: World, x: nat, key: Key) returns (v: World)
    requires Leads(w, u) && x in u.workers && u.workers[x] == Worker(Placing, key, false)
    ensures Leads(w, v)
    ensures v == Put(Accept(u, Order(key, Filled, 1.0)), x, Worker(Saving(|u.exchange|, Filled, 1.0), key, false))
  {
    hide Leads;
    LeadsFreely(w, u, Place(x, Accepted(Filled, 1.0)));
    v := Next(u, Place(x, Accepted(Filled, 1.0)));
  }

  lemma ClaimLeads(w: World, u: World, x: nat, slot: nat, n: nat) returns (v: World)
    requires Leads(w, u) && x in u.workers && u.workers[x] == Worker(Counted(n), Key(slot, 0), false) && n >= 1
    requires Key(slot, n + 1) !in u.rows && !ClaimBlocked(u, slot)
    ensures Leads(w, v)
    ensures v == Put(u.(rows := u.rows[Key(slot, n + 1) := CLAIMED]), x, Worker(Placing, Key(slot, n + 1), false))
  {
    hide Leads;
    LeadsOn(w, u, ClaimCounted(x));
    v := Next(u, ClaimCounted(x));
  }

  /* ---- Last the cancelled attempt fills, too ---- */

  /** An order of another attempt of the key's slot has filled. */
  ghost predicate Rival(v: World, j: nat, key: Key) {
    j < |v.exchange| && v.exchange[j].filled != 0.0 && v.exchange[j].key.slot == key.slot && v.exchange[j].key != key
  }

  lemma FilledTwice(w: World, v: World, i: nat, j: nat, key: Key)
    requires Leads(w, v) && Rival(v, j, key)
    requires i < |v.exchange| && v.exchange[i].key == key && v.exchange[i].filled != 0.0
    ensures CanFillTwice(w)
  {
    if i < j { assert v.exchange[i].key.slot == v.exchange[j].key.slot; } else { assert v.exchange[j].key.slot == v.exchange[i].key.slot; }
    assert !SlotsFilledOnce(v);
  }

  lemma KnownFills(w: World, v: World, i: nat, j: nat, key: Key)
    requires Leads(w, v) && Rival(v, j, key)
    requires i < |v.exchange| && v.exchange[i].key == key && !DeadOrder(v.exchange, i, key)
    requires Reportable(v.exchange[i].state, v.exchange[i].filled)
    ensures CanFillTwice(w)
  {
    hide Leads, CanFillTwice;
    if v.exchange[i].state.Working? {
      LeadsFreely(w, v, Execute(i, 1.0, true));
      FilledTwice(w, Next(v, Execute(i, 1.0, true)), i, j, key);
    } else {
      FilledTwice(w, v, i, j, key);
    }
  }

  lemma PlacingFills(w: World, v: World, z: nat, j: nat, key: Key)
    requires Leads(w, v) && Rival(v, j, key)
    requires z in v.workers && v.workers[z].key == key && v.workers[z].at.Placing?
    ensures CanFillTwice(w)
  {
    hide Leads, CanFillTwice;
    var e := Place(z, Accepted(Filled, 1.0));
    LeadsFreely(w, v, e);
    assert Rival(Next(v, e), j, key);
    FilledTwice(w, Next(v, e), |v.exchange|, j, key);
  }

  lemma LookingUpFills(w: World, v: World, z: nat, j: nat, key: Key)
    requires Leads(w, v) && Rival(v, j, key) && !Known(v, key)
    requires z in v.workers && v.workers[z].key == key && v.workers[z].at.LookingUp?
    ensures CanFillTwice(w)
  {
    hide Leads, CanFillTwice;
    LeadsFreely(w, v, LookUp(z, Answered));
    PlacingFills(w, Next(v, LookUp(z, Answered)), z, j, key);
  }

  /** No worker but z has the key. */
  ghost predicate Alone(v: World, z: nat, key: Key) {
    forall y :: y in v.workers && v.workers[y].key == key && Busy(v.workers[y].at) ==> y == z
  }

  lemma GoneFills(w: World, v: World, z: nat, j: nat, key: Key)
    requires Leads(w, v) && Rival(v, j, key) && !Known(v, key)
    requires Free(v, z) && Alone(v, z, key) && key in v.rows && Gone(v.rows[key])
    ensures CanFillTwice(w)
  {
    hide Leads, CanFillTwice;
    LeadsFreely(w, v, ManualRetry(key));
    var v1 := Next(v, ManualRetry(key));
    forall y | y in v1.workers && v1.workers[y].key == key ensures !v1.workers[y].at.FailingAgain? {
      if Busy(v.workers[y].at) { assert y == z; }
    }
    assert NoneFailingAgain(v1, key);
    LeadsFreely(w, v1, ClaimRetry(z, key));
    var v2 := Next(v1, ClaimRetry(z, key));
    assert v2.exchange == v.exchange;
    LookingUpFills(w, v2, z, j, key);
  }

  lemma FailingFills(w: World, v: World, z: nat, j: nat, key: Key)
    requires Leads(w, v) && Rival(v, j, key) && !Known(v, key)
    requires z in v.workers && v.workers[z].key == key && Alone(v, z, key) && key in v.rows
    requires v.workers[z].at.Failing? || v.workers[z].at.FailingAgain?
    ensures CanFillTwice(w)
    decreases if v.workers[z].at.Failing? then 1 else 0
  {
    hide Leads, CanFillTwice;
    LeadsFreely(w, v, RecordFailure(z));
    var v1 := Next(v, RecordFailure(z));
    assert v1.exchange == v.exchange && Alone(v1, z, key) && Gone(v1.rows[key]);
    if v1.workers[z].at.Idle? {
      GoneFills(w, v1, z, j, key);
    } else {
      FailingFills(w, v1, z, j, key);
    }
  }

  /** Whoever still has the key of a cancelled action can have its order filled. */
  lemma AttendedFills(w: World, v: World, z: nat, j: nat, key: Key)
    requires Leads(w, v) && Rival(v, j, key) && !Known(v, key)
    requires z in v.workers && v.workers[z].key == key && Alone(v, z, key) && key in v.rows
    requires Busy(v.workers[z].at) && !v.workers[z].at.Saving?
    ensures CanFillTwice(w)
  {
    hide Leads, CanFillTwice;
    match v.workers[z].at
    case LookingUp => LookingUpFills(w, v, z, j, key);
    case Placing => PlacingFills(w, v, z, j, key);
    case _ => FailingFills(w, v, z, j, key);
  }

  /* ---- The exact condition ---- */

  /** The attempts of the slot of an action that has not ended are those up to it, and the earlier ones are spent. */
  lemma LiveAttemptIsLast(w: World, key: Key)
    requires Chained(w) && key in w.rows && !w.rows[key].status.Cancelled? && !Dead(w, key)
    ensures key.attempt >= 1
    ensures forall k :: k in w.rows && k.slot == key.slot <==> k in FirstKeys(key.slot, key.attempt)
    ensures forall j :: 1 <= j < key.attempt ==> Key(key.slot, j) in w.rows && Spent(w, Key(key.slot, j))
  {
    assert Successor(w, key);
    forall k | k in w.rows && k.slot == key.slot ensures 1 <= k.attempt <= key.attempt {
      assert Successor(w, k);
      if k.attempt > key.attempt { EarlierAttemptsSpent(w, key.slot, key.attempt, k.attempt); }
    }
    forall j | 1 <= j < key.attempt ensures Key(key.slot, j) in w.rows && Spent(w, Key(key.slot, j)) {
      Contiguous(w, key.slot, j, key.attempt);
      EarlierAttemptsSpent(w, key.slot, j, key.attempt);
    }
  }

  lemma EarlierAreCountable(w: World, key: Key, j: nat)
    requires Safe(w) && Recorded(w) && Key(key.slot, j) in w.rows && Spent(w, Key(key.slot, j)) && j != key.attempt && key in w.rows
    ensures Countable(Next(w, CancelRetry(key)), Key(key.slot, j))
  {
    assert Key(key.slot, j) in w.saved ==> Known(w, Key(key.slot, j));
    DeadSame(w, Next(w, CancelRetry(key)), Key(key.slot, j));
    hide Dead, Reportable;
  }

  lemma CancelKeepsOrders(w: World, key: Key)
    requires Safe(w)
    ensures OneOrderPerKey(Next(w, CancelRetry(key)).exchange)
  {
  }

  /** After the cancellation the earlier attempts can be made to count again, and then all of them do. */
  lemma AllCount(w: World, key: Key) returns (u: World)
    requires Safe(w) && Chained(w) && Recorded(w) && Cancels(w, key) && !Dead(w, key) && !OnRecord(w, key)
    ensures Leads(Next(w, CancelRetry(key)), u) && u.rows.Keys == w.rows.Keys && u.saved.Keys == w.saved.Keys
    ensures u.exchange == w.exchange && u.workers == w.workers && key.attempt >= 1
    ensures forall k :: k in u.rows && k.slot == key.slot <==> k in FirstKeys(key.slot, key.attempt)
    ensures forall k :: k in FirstKeys(key.slot, key.attempt) ==> CountsFreely(u, k)
  {
    hide Leads, Spent, Countable, Dead, Safe, Chained, Recorded, OneOrderPerKey;
    var w1 := Next(w, CancelRetry(key));
    LiveAttemptIsLast(w, key);
    CancelKeepsOrders(w, key);
    forall j | 1 <= j <= key.attempt - 1 ensures Countable(w1, Key(key.slot, j)) { EarlierAreCountable(w, key, j); }
    u := CountAll(w1, key.slot, key.attempt - 1);
    forall k | k in FirstKeys(key.slot, key.attempt) ensures CountsFreely(u, k) {
      assert k == Key(key.slot, k.attempt);
      if k == key { assert CountsFreely(w1, key); }
    }
  }

  lemma SavedHaveRows(w: World, k: Key)
    requires Safe(w) && k in w.saved
    ensures k in w.rows
  {
    assert Known(w, k);
    var i :| 0 <= i < |w.exchange| && w.exchange[i].key == k;
  }

  lemma UncoveredCancelFillsTwice(w: World, key: Key)
    requires Safe(w) && GuardedInv(w) && Recorded(w)
    requires Cancels(w, key) && !Covered(w, CancelRetry(key))
    ensures CanFillTwice(Next(w, CancelRetry(key)))
  {
    var u := AllCount(w, key);
    hide Safe, GuardedInv, Recorded, Dead, CountsFreely, FirstKeys, CanFillTwice, Leads, Known, Unattended;
    forall k | k in u.saved ensures k in u.rows { SavedHaveRows(w, k); }
    var v := NextAttemptFills(Next(w, CancelRetry(key)), u, key.slot, key.attempt);
    CancelledFills(w, Next(w, CancelRetry(key)), v, key);
  }

  /** In the world where the next attempt has filled, everything that concerns the cancelled one is as it was. */
  lemma CancelledFills(w: World, w1: World, v: World, key: Key)
    requires Safe(w) && Recorded(w) && key in w.rows && !Dead(w, key) && !(Unattended(w, key) && !Known(w, key))
    requires Leads(w1, v) && key in v.rows
    requires v.exchange == w.exchange + [Order(Key(key.slot, key.attempt + 1), Filled, 1.0)]
    requires forall y :: y in w.workers ==> y in v.workers && v.workers[y] == w.workers[y]
    requires forall y :: y in v.workers && y !in w.workers ==> v.workers[y].key == Key(key.slot, key.attempt + 1)
    ensures CanFillTwice(w1)
  {
    hide Leads, CanFillTwice;
    var j := |w.exchange|;
    assert Rival(v, j, key);
    if Known(w, key) {
      var i :| 0 <= i < |w.exchange| && w.exchange[i].key == key;
      assert !DeadOrder(w.exchange, i, key);
      KnownFills(w1, v, i, j, key);
    } else {
      var z :| z in w.workers && w.workers[z].key == key && Busy(w.workers[z].at);
      forall y | y in v.workers && v.workers[y].key == key && Busy(v.workers[y].at) ensures y == z {
        assert Contend(w, y, z);
      }
      assert !w.workers[z].at.Saving? by { if w.workers[z].at.Saving? { SavingKnows(w, z); } }
      AttendedFills(w1, v, z, j, key);
    }
  }

  /**
   After an operator's cancellation two attempts of the slot can still fill, every tick and claim making its
   query, if and only if the cancellation was not covered: its action had an order that could fill and was not
   on record as working, or a worker that could place one.
   */
  lemma CancellationIsSafeExactly(events: seq<Event>, key: Key)
    requires OrderedRun(START, events) && GuardedRun(START, events) && Cancels(Run(START, events), key)
    ensures CanFillTwice(Next(Run(START, events), CancelRetry(key))) <==> !Covered(Run(START, events), CancelRetry(key))
  {
    var w := Run(START, events);
    AtMostOneOrder(events);
    StartGuarded();
    RunGuarded(START, events);
    RunRecorded(events);
    hide Run, Next, Safe, GuardedInv, Recorded, Covered, CanFillTwice;
    if Covered(w, CancelRetry(key)) {
      NextSafe(w, CancelRetry(key));
      NextGuarded(w, CancelRetry(key));
      SoundCannotFillTwice(Next(w, CancelRetry(key)));
    } else {
      UncoveredCancelFillsTwice(w, key);
    }
  }
}
