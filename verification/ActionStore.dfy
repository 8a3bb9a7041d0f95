/** The table of strategy actions, updated in place by the action service and the retry scheduler. */
module ActionStore {
  import opened Reals
  import opened ActionProtocol
  import opened ActionQueries

  datatype ClaimResult = Claimed | Existing | Blocked

  class ActionTable {
    var rows: map<Key, Row>

    constructor ()
      ensures rows == map[]
    {
      rows := map[];
    }

    /**
     Creates the row of a new key, unless another action or order is unresolved: one of the slot, or, as
     `elsewhere` says, one of another slot of the position.
     */
    method Claim(key: Key, saved: map<Key, OrderState>, elsewhere: bool) returns (result: ClaimResult)
      modifies this
      ensures result == if key in old(rows) then Existing else if Blocks(old(rows), saved, key.slot) || elsewhere then Blocked else Claimed
      ensures rows == if result.Claimed? then old(rows)[key := CLAIMED] else old(rows)
    {
      if key in rows { return Existing; }
      var blockingAction := exists k :: k in rows && k.slot == key.slot && Unresolved(rows[k]);
      if blockingAction || elsewhere { return Blocked; }
      var blockingOrder := exists k :: k in saved && k.slot == key.slot && saved[k].Working?;
      if blockingOrder { return Blocked; }
      rows := rows[key := CLAIMED];
      return Claimed;
    }

    /** Compare-and-set: takes a due action back to PENDING and says whether it did. */
    method ClaimRetry(key: Key, now: nat) returns (claimed: bool)
      modifies this
      ensures claimed <==> key in old(rows) && Due(old(rows)[key], now)
      ensures rows == if claimed then old(rows)[key := RetryClaimed(old(rows)[key])] else old(rows)
    {
      if key !in rows { return false; }
      var row := rows[key];
      if !row.status.Failed? || !row.retryable || row.nextRetryAt.None? || row.nextRetryAt.value > now { return false; }
      rows := rows[key := row.(status := Pending, retryable := false, nextRetryAt := None, attemptCount := row.attemptCount + 1)];
      return true;
    }

    method GetClaimedRetry(key: Key) returns (found: bool)
      ensures found <==> key in rows && rows[key].status.Pending?
    {
      found := key in rows && rows[key].status.Pending?;
    }

    method MarkFailed(key: Key, now: nat, retryable: bool) returns (found: bool)
      modifies this
      ensures found <==> key in old(rows)
      ensures rows == if found then old(rows)[key := MarkedFailed(old(rows)[key], now, retryable)] else old(rows)
    {
      if key !in rows { return false; }
      var row := rows[key];
      var exhausted := row.attemptCount >= row.maxAttempts;
      var permanentlyFailed := !retryable || exhausted;
      var nextRetryAt := if permanentlyFailed then None else Some(now + RetryDelay(row.attemptCount));
      rows := rows[key := row.(status := if permanentlyFailed then PermanentlyFailed else Failed,
                               retryable := !permanentlyFailed, nextRetryAt := nextRetryAt)];
      return true;
    }

    /** An operator puts a failed action up again, unless its linked order is still unresolved. */
    method ManualRetry(key: Key, now: nat, orderUnresolved: bool) returns (done: bool)
      modifies this
      ensures done <==> key in old(rows) && !orderUnresolved
                        && (old(rows)[key].status.Failed? || old(rows)[key].status.PermanentlyFailed?)
      ensures rows == if done then old(rows)[key := ManuallyRetried(old(rows)[key], now)] else old(rows)
    {
      if key !in rows || orderUnresolved { return false; }
      var row := rows[key];
      if !row.status.Failed? && !row.status.PermanentlyFailed? { return false; }
      rows := rows[key := row.(status := Failed, retryable := true, nextRetryAt := Some(now), manualRetries := row.manualRetries + 1)];
      return true;
    }

    method CancelRetry(key: Key) returns (done: bool)
      modifies this
      ensures done <==> key in old(rows) && (old(rows)[key].status.Failed? || old(rows)[key].status.Pending?)
      ensures rows == if done then old(rows)[key := CancelledManually(old(rows)[key])] else old(rows)
    {
      if key !in rows { return false; }
      var row := rows[key];
      if !row.status.Failed? && !row.status.Pending? { return false; }
      rows := rows[key := row.(status := Cancelled, retryable := false, nextRetryAt := None)];
      return true;
    }

    /**
     The claiming half of one scheduler run over a list of actions that were due when it was read. Of every
     key that still is, and whose order is resolved, exactly one attempt is started, however often it is listed.
     */
    method ClaimDue(listed: seq<Key>, unresolved: set<Key>, now: nat) returns (started: seq<Key>)
      modifies this
      ensures forall k :: k in started <==>
                k in listed && k !in unresolved && k in old(rows) && Due(old(rows)[k], now)
      ensures forall i, j :: 0 <= i < j < |started| ==> started[i] != started[j]
      ensures rows.Keys == old(rows).Keys
      ensures forall k :: k in rows ==> rows[k] == if k in started then RetryClaimed(old(rows)[k]) else old(rows)[k]
    {
      started := [];
      for i := 0 to |listed|
        invariant forall k :: k in started <==>
                    k in listed[..i] && k !in unresolved && k in old(rows) && Due(old(rows)[k], now)
        invariant forall a, b :: 0 <= a < b < |started| ==> started[a] != started[b]
        invariant rows.Keys == old(rows).Keys
        invariant forall k :: k in rows ==> rows[k] == if k in started then RetryClaimed(old(rows)[k]) else old(rows)[k]
      {
        assert listed[..i + 1] == listed[..i] + [listed[i]];
        if listed[i] !in unresolved {
          var claimed := ClaimRetry(listed[i], now);
          if claimed {
            var found := GetClaimedRetry(listed[i]);
            assert found;
            started := started + [listed[i]];
          }
        }
      }
      assert listed[..|listed|] == listed;
    }
  }
}
