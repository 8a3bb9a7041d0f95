/** Deposits are credited exactly once, whatever the runs and crashes. */
module DepositLaws {
  import opened Reals
  import Billing
  import opened DepositScanner

  /* ---- Deposits in the ledger ---- */

  predicate IsDeposit(e: Billing.Entry, t: nat) {
    e.kind.Deposit? && e.reference == Billing.OfTransfer(t)
  }

  /** How many entries credit a transfer. */
  function DepositCount(entries: seq<Billing.Entry>, t: nat): nat {
    if entries == [] then 0
    else DepositCount(entries[..|entries| - 1], t) + (if IsDeposit(entries[|entries| - 1], t) then 1 else 0)
  }

  lemma CountAppend(entries: seq<Billing.Entry>, e: Billing.Entry, t: nat)
    ensures DepositCount(entries + [e], t) == DepositCount(entries, t) + (if IsDeposit(e, t) then 1 else 0)
  {
    assert (entries + [e])[..|entries|] == entries;
  }

  lemma {:induction false} CountedIfPresent(entries: seq<Billing.Entry>, t: nat, i: nat)
    requires i < |entries| && IsDeposit(entries[i], t)
    ensures DepositCount(entries, t) > 0
  {
    if i < |entries| - 1 {
      CountedIfPresent(entries[..|entries| - 1], t, i);
    }
  }

  /** A transfer has one entry once it is credited and none before. */
  predicate TransferMatches(l: Billing.Ledger, t: nat) {
    DepositCount(l.entries, t) == if t in l.transfers then 1 else 0
  }

  ghost predicate DepositsMatch(l: Billing.Ledger) {
    forall t: nat :: TransferMatches(l, t)
  }

  /** Whole units of 1e-8, rounded down. */
  predicate InUnits(units: int, amountQuote: real) {
    units as real <= amountQuote * 100000000.0 < units as real + 1.0
  }

  lemma FloorIsInUnits(amountQuote: real)
    ensures InUnits(Billing.FloorQuote(amountQuote), amountQuote)
    ensures Billing.FloorQuote(amountQuote) > 0 <==> amountQuote * 100000000.0 >= 1.0
  {
  }

  /** The entry a log must have caused: for its owner, with its amount. */
  predicate EntryOf(w: World, e: Billing.Entry, log: Log) {
    IsDeposit(e, log.id) && log.to in w.owners && w.owners[log.to] == e.user && InUnits(e.amount, log.amountQuote)
  }

  predicate HasEntry(w: World, entries: seq<Billing.Entry>, log: Log) {
    exists i :: 0 <= i < |entries| && EntryOf(w, entries[i], log)
  }

  predicate CreditedRight(w: World, l: Billing.Ledger) {
    forall i :: 0 <= i < |w.chain| && w.chain[i].id in l.transfers ==> HasEntry(w, l.entries, w.chain[i])
  }

  /* ---- The invariant ---- */

  /** Saved ranges follow one another without a gap, up to the last scanned block, none beyond its safe head. */
  predicate Contiguous(s: State) {
    && (s.ranges == [] <==> s.lastScanned.None?)
    && (s.ranges != [] ==> s.lastScanned == Some(s.ranges[|s.ranges| - 1].to))
    && (forall i :: 0 <= i < |s.ranges| ==> s.ranges[i].from <= s.ranges[i].to <= s.ranges[i].safeHead)
    && (forall i :: 0 < i < |s.ranges| ==> s.ranges[i].from == s.ranges[i - 1].to + 1)
  }

  /** Every creditable transfer in a saved range to an address its run knew has been credited. */
  predicate RangeCovered(w: World, l: Billing.Ledger, range: Saved) {
    forall i :: 0 <= i < |w.chain| && Due(w.chain[i], range.from, range.to, range.addresses) ==> w.chain[i].id in l.transfers
  }

  /** In the range, to one of the addresses, and worth a unit at least. */
  predicate Due(log: Log, from: int, to: int, addresses: seq<Address>) {
    from <= log.block <= to && log.to in addresses && log.amountQuote * 100000000.0 >= 1.0
  }

  predicate Covered(w: World, s: State) {
    forall i :: 0 <= i < |s.ranges| ==> RangeCovered(w, s.ledger, s.ranges[i])
  }

  ghost predicate Inv(w: World, s: State) {
    DepositsMatch(s.ledger) && CreditedRight(w, s.ledger) && Contiguous(s) && Covered(w, s)
  }

  /** The addresses a run reads belong to accounts. */
  predicate Known(w: World, l: Billing.Ledger, addresses: seq<Address>) {
    forall i :: 0 <= i < |addresses| ==> addresses[i] in w.owners && w.owners[addresses[i]] in l.accounts
  }

  /* ---- One credit ---- */

  lemma CreditMatches(w: World, l: Billing.Ledger, log: Log)
    requires DepositsMatch(l)
    ensures DepositsMatch(Billing.CreditDeposit(l, OwnerOf(w, log.to), log.id, log.amountQuote))
    ensures var after := Billing.CreditDeposit(l, OwnerOf(w, log.to), log.id, log.amountQuote);
            && l.entries <= after.entries && l.transfers <= after.transfers <= l.transfers + {log.id}
            && after.accounts.Keys == l.accounts.Keys
            && (log.id in after.transfers && log.id !in l.transfers ==> HasEntry(w, after.entries, log))
            && (OwnerOf(w, log.to).Some? && OwnerOf(w, log.to).value in l.accounts && Billing.FloorQuote(log.amountQuote) > 0 ==>
                  log.id in after.transfers)
  {
    var after := Billing.CreditDeposit(l, OwnerOf(w, log.to), log.id, log.amountQuote);
    if log.id in after.transfers && log.id !in l.transfers {
      var user := OwnerOf(w, log.to).value;
      assert TransferMatches(l, log.id);
      forall i | 0 <= i < |l.entries| ensures !Billing.SameKey(l.entries[i], user, Billing.Deposit, Billing.OfTransfer(log.id)) {
        if IsDeposit(l.entries[i], log.id) { CountedIfPresent(l.entries, log.id, i); }
      }
      var e := after.entries[|l.entries|];
      FloorIsInUnits(log.amountQuote);
      assert EntryOf(w, e, log);
      forall t: nat ensures TransferMatches(after, t) {
        assert TransferMatches(l, t);
        CountAppend(l.entries, e, t);
      }
    }
  }

  lemma EntriesStay(w: World, entries: seq<Billing.Entry>, more: seq<Billing.Entry>, log: Log)
    requires HasEntry(w, entries, log) && entries <= more
    ensures HasEntry(w, more, log)
  {
    var i :| 0 <= i < |entries| && EntryOf(w, entries[i], log);
    assert more[i] == entries[i];
  }

  lemma CreditKeeps(w: World, s: State, log: Log)
    requires Inv(w, s) && log in w.chain
    ensures Inv(w, ApplyWrite(w, s, Credit(log)))
  {
    hide Billing.CreditDeposit, DepositsMatch, HasEntry, Contiguous;
    var after := ApplyWrite(w, s, Credit(log));
    CreditMatches(w, s.ledger, log);
    forall i | 0 <= i < |w.chain| && w.chain[i].id in after.ledger.transfers ensures HasEntry(w, after.ledger.entries, w.chain[i]) {
      if w.chain[i].id in s.ledger.transfers {
        EntriesStay(w, s.ledger.entries, after.ledger.entries, w.chain[i]);
      } else {
        SameLog(w, w.chain[i], log);
      }
    }
    SameRanges(s, after);
    forall r | 0 <= r < |after.ranges| ensures RangeCovered(w, after.ledger, after.ranges[r]) {
      assert RangeCovered(w, s.ledger, s.ranges[r]);
    }
  }

  lemma SameLog(w: World, a: Log, b: Log)
    requires a in w.chain && b in w.chain && a.id == b.id
    ensures a == b
  {
    var i :| 0 <= i < |w.chain| && w.chain[i] == a;
    var j :| 0 <= j < |w.chain| && w.chain[j] == b;
    assert w.chain[i].id == w.chain[j].id;
  }

  lemma SameRanges(s: State, after: State)
    requires after.ranges == s.ranges && after.lastScanned == s.lastScanned
    ensures Contiguous(after) == Contiguous(s)
  {
  }

  /* ---- All credits of a range ---- */

  predicate AllCredits(w: World, writes: seq<Write>) {
    forall x :: x in writes ==> x.Credit? && x.log in w.chain
  }

  predicate Creditable(w: World, l: Billing.Ledger, log: Log) {
    OwnerOf(w, log.to).Some? && OwnerOf(w, log.to).value in l.accounts && Billing.FloorQuote(log.amountQuote) > 0
  }

  predicate AllDone(w: World, before: State, after: State, writes: seq<Write>) {
    && after.ranges == before.ranges && after.lastScanned == before.lastScanned
    && after.ledger.accounts.Keys == before.ledger.accounts.Keys
    && before.ledger.transfers <= after.ledger.transfers
    && (forall x :: x in writes && x.Credit? && Creditable(w, before.ledger, x.log) ==> x.log.id in after.ledger.transfers)
  }

  lemma {:induction false} CreditsKeep(w: World, s: State, writes: seq<Write>)
    requires Inv(w, s) && AllCredits(w, writes)
    ensures Inv(w, ApplyWrites(w, s, writes))
    ensures AllDone(w, s, ApplyWrites(w, s, writes), writes)
  {
    hide Billing.CreditDeposit, Inv, Billing.FloorQuote;
    if writes != [] {
      var rest, last := writes[..|writes| - 1], writes[|writes| - 1];
      assert AllCredits(w, rest);
      CreditsKeep(w, s, rest);
      var before := ApplyWrites(w, s, rest);
      assert last in writes && last.log in w.chain;
      CreditKeeps(w, before, last.log);
      MatchesOfInv(w, before);
      CreditMatches(w, before.ledger, last.log);
      assert writes == rest + [last];
    }
  }

  lemma MatchesOfInv(w: World, s: State)
    requires Inv(w, s)
    ensures DepositsMatch(s.ledger)
  {
  }

  lemma {:induction false} LogsFound(chain: seq<Log>, from: int, to: int, addresses: seq<Address>)
    ensures forall log :: log in GetLogs(chain, from, to, addresses) <==> log in chain && Matches(log, from, to, addresses)
  {
    hide Matches;
    if chain != [] {
      LogsFound(chain[..|chain| - 1], from, to, addresses);
      assert chain == chain[..|chain| - 1] + [chain[|chain| - 1]];
    }
  }

  lemma {:induction false} CreditsOfLogs(logs: seq<Log>)
    ensures forall x :: x in Credits(logs) <==> x.Credit? && x.log in logs
  {
    if logs != [] {
      CreditsOfLogs(logs[..|logs| - 1]);
      assert logs == logs[..|logs| - 1] + [logs[|logs| - 1]];
    }
  }

  /** The chunks together ask for every address, so the range's writes are the credits of every matching log. */
  lemma {:induction false} ChunksCover(chain: seq<Log>, from: int, to: int, addresses: seq<Address>, index: nat)
    requires index <= |addresses|
    ensures forall x :: x in RangeWrites(chain, from, to, addresses, index) <==>
              x.Credit? && x.log in chain && Matches(x.log, from, to, addresses[index..])
    decreases |addresses| - index
  {
    if index < |addresses| {
      var end := ChunkEnd(addresses, index);
      var chunk := addresses[index..end];
      ChunksCover(chain, from, to, addresses, end);
      LogsFound(chain, from, to, chunk);
      CreditsOfLogs(GetLogs(chain, from, to, chunk));
      assert addresses[index..] == chunk + addresses[end..];
    }
  }

  /* ---- Saving progress ---- */

  lemma SaveKeeps(w: World, s: State, range: Saved)
    requires Inv(w, s) && RangeCovered(w, s.ledger, range)
    requires range.from <= range.to <= range.safeHead
    requires s.lastScanned.Some? ==> range.from == s.lastScanned.value + 1
    ensures Inv(w, ApplyWrite(w, s, Save(range)))
  {
    hide RangeCovered, DepositsMatch, CreditedRight;
    var after := ApplyWrite(w, s, Save(range));
    forall i | 0 <= i < |after.ranges| ensures RangeCovered(w, after.ledger, after.ranges[i]) {
      if i < |s.ranges| { assert RangeCovered(w, s.ledger, s.ranges[i]); }
    }
  }

  lemma RangeIsCovered(w: World, s: State, credited: State, from: int, to: int, addresses: seq<Address>, safeHead: int)
    requires Known(w, s.ledger, addresses)
    requires AllDone(w, s, credited, RangeWrites(w.chain, from, to, addresses, 0))
    ensures RangeCovered(w, credited.ledger, Saved(from, to, addresses, safeHead))
  {
    hide RangeWrites, Billing.FloorQuote;
    ChunksCover(w.chain, from, to, addresses, 0);
    assert addresses[0..] == addresses;
    forall i | 0 <= i < |w.chain| && Due(w.chain[i], from, to, addresses) ensures w.chain[i].id in credited.ledger.transfers {
      FloorIsInUnits(w.chain[i].amountQuote);
      assert Credit(w.chain[i]) in RangeWrites(w.chain, from, to, addresses, 0);
      assert Creditable(w, s.ledger, w.chain[i]);
    }
  }

  /** A completed range: everything in it is credited, and its progress follows the last. */
  lemma RangeDoneKeeps(w: World, s: State, scan: Scan, from: int)
    requires Inv(w, s) && Known(w, s.ledger, scan.addresses) && from <= scan.safeHead
    requires s.lastScanned.Some? ==> from == s.lastScanned.value + 1
    ensures Inv(w, RangeDone(w, s, scan, from)) && Known(w, RangeDone(w, s, scan, from).ledger, scan.addresses)
    ensures RangeDone(w, s, scan, from).lastScanned == Some(RangeEnd(scan, from))
  {
    hide Inv, RangeWrites, RangeCovered, ApplyWrites;
    var to := RangeEnd(scan, from);
    var writes := RangeWrites(w.chain, from, to, scan.addresses, 0);
    ChunksCover(w.chain, from, to, scan.addresses, 0);
    CreditsKeep(w, s, writes);
    var credited := ApplyWrites(w, s, writes);
    RangeIsCovered(w, s, credited, from, to, scan.addresses, scan.safeHead);
    SaveKeeps(w, credited, SavedRange(scan, from));
  }

  /* ---- Runs that may die ---- */

  function Prefix(writes: seq<Write>, done: nat): seq<Write> {
    if done < |writes| then writes[..done] else writes
  }

  /** Within the first range, a prefix is a prefix of its credits; beyond it, the range is done and the rest has a prefix. */
  lemma PrefixOfRun(w: World, s: State, scan: Scan, from: int, ranges: nat, done: nat)
    requires ranges > 0 && from <= scan.safeHead
    ensures ApplyWrites(w, s, Prefix(RunWrites(w.chain, scan, from, ranges), done))
         == (if done <= CreditsIn(w, scan, from) then ApplyWrites(w, s, FirstCredits(w, scan, from, done))
             else ApplyWrites(w, RangeDone(w, s, scan, from),
                              Prefix(RunWrites(w.chain, scan, RangeEnd(scan, from) + 1, ranges - 1), done - CreditsIn(w, scan, from) - 1)))
  {
    var credits := RangeWrites(w.chain, from, RangeEnd(scan, from), scan.addresses, 0);
    var save := Save(SavedRange(scan, from));
    var rest := RunWrites(w.chain, scan, RangeEnd(scan, from) + 1, ranges - 1);
    assert RunWrites(w.chain, scan, from, ranges) == credits + [save] + rest;
    hide RunWrites, RangeWrites, Prefix;
    PrefixSplit(credits, save, rest, done);
    if done > |credits| {
      var tail := Prefix(rest, done - |credits| - 1);
      WritesConcat(w, s, credits, [save] + tail);
      WritesConcat(w, ApplyWrites(w, s, credits), [save], tail);
      OneWrite(w, ApplyWrites(w, s, credits), save);
      hide ApplyWrites, ApplyWrite;
    }
  }

  lemma PrefixSplit(credits: seq<Write>, save: Write, rest: seq<Write>, done: nat)
    ensures done <= |credits| ==> Prefix(credits + [save] + rest, done) == credits[..done]
    ensures done > |credits| ==> Prefix(credits + [save] + rest, done) == credits + ([save] + Prefix(rest, done - |credits| - 1))
  {
  }

  function CreditsIn(w: World, scan: Scan, from: int): nat {
    |RangeWrites(w.chain, from, RangeEnd(scan, from), scan.addresses, 0)|
  }

  function FirstCredits(w: World, scan: Scan, from: int, done: nat): seq<Write>
    requires done <= CreditsIn(w, scan, from)
  {
    RangeWrites(w.chain, from, RangeEnd(scan, from), scan.addresses, 0)[..done]
  }

  lemma {:induction false} RunKeeps(w: World, s: State, scan: Scan, from: int, ranges: nat, done: nat)
    requires Inv(w, s) && Known(w, s.ledger, scan.addresses)
    requires s.lastScanned.Some? ==> from == s.lastScanned.value + 1
    ensures Inv(w, ApplyWrites(w, s, Prefix(RunWrites(w.chain, scan, from, ranges), done)))
    ensures Later(s, ApplyWrites(w, s, Prefix(RunWrites(w.chain, scan, from, ranges), done)))
    decreases ranges
  {
    hide Inv, Known, RangeWrites, RangeDone, ApplyWrite;
    if ranges > 0 && from <= scan.safeHead {
      PrefixOfRun(w, s, scan, from, ranges, done);
      var to := RangeEnd(scan, from);
      var credits := RangeWrites(w.chain, from, to, scan.addresses, 0);
      if done <= |credits| {
        ChunksCover(w.chain, from, to, scan.addresses, 0);
        CreditsKeep(w, s, credits[..done]);
      } else {
        RangeDoneKeeps(w, s, scan, from);
        RunKeeps(w, RangeDone(w, s, scan, from), scan, to + 1, ranges - 1, done - |credits| - 1);
      }
    }
  }

  /** Progress never goes back. */
  predicate Later(s: State, after: State) {
    s.lastScanned.Some? ==> after.lastScanned.Some? && s.lastScanned.value <= after.lastScanned.value
  }

  lemma ScanKeeps(w: World, s: State, scan: Scan, done: nat)
    requires Inv(w, s) && Known(w, s.ledger, scan.addresses)
    ensures Inv(w, ScanOnce(w, s, scan, done)) && Later(s, ScanOnce(w, s, scan, done))
  {
    hide Inv, Known, RunWrites, Later, ApplyWrites;
    RunKeeps(w, s, scan, StartOf(s, scan), scan.maxRanges, done);
  }

  /* ---- Other billing operations ---- */

  /** Adds no deposit, loses no account. */
  ghost predicate Neutral(l: Billing.Ledger, after: Billing.Ledger) {
    && after.transfers == l.transfers && l.entries <= after.entries
    && (forall u :: u in l.accounts ==> u in after.accounts)
    && (forall t: nat :: DepositCount(after.entries, t) == DepositCount(l.entries, t))
  }

  lemma PostedNeutral(l: Billing.Ledger, user: Billing.User, kind: Billing.Kind, reference: Billing.Reference, amount: int)
    requires user in l.accounts && !kind.Deposit?
    ensures Neutral(l, Billing.Posted(l, user, kind, reference, amount))
  {
    var after := Billing.Posted(l, user, kind, reference, amount);
    forall t: nat ensures DepositCount(after.entries, t) == DepositCount(l.entries, t) {
      CountAppend(l.entries, after.entries[|l.entries|], t);
    }
  }

  lemma {:induction false} PaidAllNeutral(l: Billing.Ledger, chain: seq<Billing.User>, fee: nat, feeEntry: nat, percents: seq<real>,
                                          now: nat, n: nat)
    requires n <= |chain| <= |percents|
    ensures Neutral(l, Billing.PaidAll(l, chain, fee, feeEntry, percents, now, n))
  {
    hide Billing.Posted, Billing.Share, Billing.Recorded;
    if n > 0 {
      PaidAllNeutral(l, chain, fee, feeEntry, percents, now, n - 1);
      var before := Billing.PaidAll(l, chain, fee, feeEntry, percents, now, n - 1);
      if chain[n - 1] in before.accounts {
        PostedNeutral(before, chain[n - 1], Billing.ReferralReward, Billing.RewardOf(feeEntry, n), Billing.Share(fee, percents[n - 1]));
      }
    }
  }

  lemma DistributedNeutral(l: Billing.Ledger, payer: Billing.User, fee: nat, feeEntry: nat, percents: seq<real>, now: nat)
    ensures Neutral(l, Billing.Distributed(l, payer, fee, feeEntry, percents, now))
  {
    var chain := Billing.UplinesOf(l, payer, |percents|);
    Billing.UplinesLength(l.accounts, Billing.ReferrerOf(l, payer), {payer}, |percents|);
    PaidAllNeutral(l, chain, fee, feeEntry, percents, now, |chain|);
  }

  lemma PerformNeutral(l: Billing.Ledger, op: Billing.Operation)
    requires !op.Transfer?
    ensures Neutral(l, Billing.Perform(l, op))
  {
    hide Billing.Posted, Billing.Distributed, Billing.Recorded, Billing.ProfitFeeOf, DepositCount;
    match op
    case Register(user, referrer) =>
    case Membership(s, user, nonce, now) =>
      var ensured := Billing.Ensured(l, user, None);
      PostedNeutral(ensured, user, Billing.MembershipFee, Billing.Random(nonce), 0 - s.membershipFee);
      var posted := Billing.Extended(Billing.Posted(ensured, user, Billing.MembershipFee, Billing.Random(nonce), 0 - s.membershipFee), user, s.membershipDays, now);
      DistributedNeutral(posted, user, s.membershipFee, |ensured.entries|, s.referralPercents, now);
    case Settlement(s, p, now) =>
      var ready := Billing.Ensured(l.(settled := l.settled + {p.id}), p.owner, None);
      var fee := Billing.ProfitFeeOf(s, p);
      if fee > 0 {
        PostedNeutral(ready, p.owner, Billing.ProfitFee, Billing.OfPosition(p.id), 0 - fee);
        DistributedNeutral(Billing.Posted(ready, p.owner, Billing.ProfitFee, Billing.OfPosition(p.id), 0 - fee), p.owner, fee,
                           |ready.entries|, s.referralPercents, now);
      }
    case Adjustment(user, amountQuote, nonce) =>
      var ensured := Billing.Ensured(l, user, None);
      PostedNeutral(ensured, user, Billing.AdminAdjustment, Billing.Random(nonce), Billing.FloorQuote(amountQuote));
  }

  lemma NeutralKeeps(w: World, s: State, after: Billing.Ledger)
    requires Inv(w, s) && Neutral(s.ledger, after)
    ensures Inv(w, s.(ledger := after))
  {
    hide HasEntry, DepositCount;
    forall t: nat ensures TransferMatches(after, t) { assert TransferMatches(s.ledger, t); }
    forall i | 0 <= i < |w.chain| && w.chain[i].id in after.transfers ensures HasEntry(w, after.entries, w.chain[i]) {
      EntriesStay(w, s.ledger.entries, after.entries, w.chain[i]);
    }
    forall r | 0 <= r < |s.ranges| ensures RangeCovered(w, after, s.ranges[r]) {
      assert RangeCovered(w, s.ledger, s.ranges[r]);
    }
  }

  /* ---- Every run ---- */

  /** A scan knows only addresses of accounts; deposits are credited by scans alone. */
  predicate Possible(w: World, s: State, e: Event) {
    match e
    case Scanned(scan, done) => Known(w, s.ledger, scan.addresses)
    case Billed(operation) => !operation.Transfer?
  }

  predicate PossibleRun(w: World, events: seq<Event>) {
    events != [] ==>
      PossibleRun(w, events[..|events| - 1]) && Possible(w, DepositScanner.Run(w, START, events[..|events| - 1]), events[|events| - 1])
  }

  lemma NextKeeps(w: World, s: State, e: Event)
    requires Inv(w, s) && Possible(w, s, e)
    ensures Inv(w, Next(w, s, e)) && Later(s, Next(w, s, e))
  {
    hide Inv, Known, ScanOnce, Billing.Perform;
    match e
    case Scanned(scan, done) => ScanKeeps(w, s, scan, done);
    case Billed(operation) =>
      PerformNeutral(s.ledger, operation);
      NeutralKeeps(w, s, Billing.Perform(s.ledger, operation));
  }

  lemma {:induction false} RunInv(w: World, events: seq<Event>)
    requires PossibleRun(w, events)
    ensures Inv(w, DepositScanner.Run(w, START, events))
  {
    if events == [] {
      assert DepositsMatch(START.ledger) by { forall t: nat ensures TransferMatches(START.ledger, t) {} }
    } else {
      RunInv(w, events[..|events| - 1]);
      hide Inv, Next, Possible;
      NextKeeps(w, DepositScanner.Run(w, START, events[..|events| - 1]), events[|events| - 1]);
    }
  }

  /**
   After any sequence of complete and interrupted runs, every transfer worth a unit, in any block from the
   first saved range to the last scanned block, to an address known when its range was read, has exactly one
   entry, for its owner and its amount; saved ranges are contiguous and within the safe head.
   */
  lemma ExactlyOnce(w: World, events: seq<Event>, range: Saved, log: Log)
    requires PossibleRun(w, events)
    requires range in DepositScanner.Run(w, START, events).ranges && log in w.chain
    requires Due(log, range.from, range.to, range.addresses)
    ensures var s := DepositScanner.Run(w, START, events);
            Contiguous(s) && DepositCount(s.ledger.entries, log.id) == 1 && HasEntry(w, s.ledger.entries, log)
  {
    RunInv(w, events);
    var s := DepositScanner.Run(w, START, events);
    hide DepositScanner.Run, DepositCount, HasEntry, Due, Contiguous;
    var r :| 0 <= r < |s.ranges| && s.ranges[r] == range;
    assert RangeCovered(w, s.ledger, s.ranges[r]);
    var i :| 0 <= i < |w.chain| && w.chain[i] == log;
    assert log.id in s.ledger.transfers;
    assert TransferMatches(s.ledger, log.id);
  }

  /** And no transfer at all is ever credited twice. */
  lemma NeverTwice(w: World, events: seq<Event>, t: nat)
    requires PossibleRun(w, events)
    ensures DepositCount(DepositScanner.Run(w, START, events).ledger.entries, t) <= 1
  {
    RunInv(w, events);
    assert TransferMatches(DepositScanner.Run(w, START, events).ledger, t);
  }

  /** A block between the first and the last scanned one lies in a saved range. */
  lemma {:induction false} EveryBlockScanned(s: State, block: int, n: nat)
    requires Contiguous(s) && 0 < n <= |s.ranges| && s.ranges[0].from <= block <= s.ranges[n - 1].to
    ensures exists i :: 0 <= i < |s.ranges| && s.ranges[i].from <= block <= s.ranges[i].to
    decreases n
  {
    if s.ranges[n - 1].from <= block {
    } else {
      EveryBlockScanned(s, block, n - 1);
    }
  }

  /* ---- Where scanning starts ---- */

  /** All runs are configured with the same start block. */
  predicate StartsAt(events: seq<Event>, start: Option<int>) {
    forall i :: 0 <= i < |events| && events[i].Scanned? ==> events[i].scan.startBlock == start
  }

  /** The first range begins at the configured block, or at the head that some run has seen. */
  predicate BeginsRight(s: State, events: seq<Event>, start: Option<int>) {
    s.ranges != [] ==>
      match start
      case Some(block) => s.ranges[0].from == block
      case None => exists i :: 0 <= i < |events| && events[i].Scanned? && events[i].scan.safeHead == s.ranges[0].from
  }

  /** A write adds at most a range at the end. */
  lemma {:induction false} FirstRangeStays(w: World, s: State, writes: seq<Write>)
    ensures s.ranges <= ApplyWrites(w, s, writes).ranges
  {
    hide Billing.CreditDeposit;
    if writes != [] { FirstRangeStays(w, s, writes[..|writes| - 1]); }
  }

  lemma {:induction false} CreditsSaveNothing(w: World, s: State, writes: seq<Write>)
    requires forall x :: x in writes ==> x.Credit?
    ensures ApplyWrites(w, s, writes).ranges == s.ranges
  {
    hide Billing.CreditDeposit;
    if writes != [] {
      assert writes == writes[..|writes| - 1] + [writes[|writes| - 1]];
      CreditsSaveNothing(w, s, writes[..|writes| - 1]);
    }
  }

  /** The first range that a run saves begins where the run does. */
  lemma FirstRangeOfRun(w: World, s: State, scan: Scan, from: int, done: nat)
    requires s.ranges == []
    ensures var after := ApplyWrites(w, s, Prefix(RunWrites(w.chain, scan, from, scan.maxRanges), done));
            after.ranges != [] ==> after.ranges[0].from == from
  {
    hide ApplyWrites, RunWrites, RangeWrites, RangeDone, Prefix;
    if scan.maxRanges > 0 && from <= scan.safeHead {
      PrefixOfRun(w, s, scan, from, scan.maxRanges, done);
      ChunksCover(w.chain, from, RangeEnd(scan, from), scan.addresses, 0);
      if done <= CreditsIn(w, scan, from) {
        CreditsSaveNothing(w, s, FirstCredits(w, scan, from, done));
      } else {
        RangeDoneSaves(w, s, scan, from);
        FirstRangeStays(w, RangeDone(w, s, scan, from),
                        Prefix(RunWrites(w.chain, scan, RangeEnd(scan, from) + 1, scan.maxRanges - 1), done - CreditsIn(w, scan, from) - 1));
      }
    } else {
      NothingWritten(w, s, scan, from, done);
    }
  }

  lemma NothingWritten(w: World, s: State, scan: Scan, from: int, done: nat)
    requires scan.maxRanges == 0 || from > scan.safeHead
    ensures ApplyWrites(w, s, Prefix(RunWrites(w.chain, scan, from, scan.maxRanges), done)) == s
  {
  }

  lemma RangeDoneSaves(w: World, s: State, scan: Scan, from: int)
    ensures RangeDone(w, s, scan, from).ranges == s.ranges + [SavedRange(scan, from)]
  {
    var writes := RangeWrites(w.chain, from, RangeEnd(scan, from), scan.addresses, 0);
    ChunksCover(w.chain, from, RangeEnd(scan, from), scan.addresses, 0);
    hide RangeWrites, ApplyWrites;
    CreditsSaveNothing(w, s, writes);
  }

  /** What one event does to the history of ranges: it keeps what is there, and a first range begins at the start. */
  lemma NextRanges(w: World, s: State, e: Event)
    requires Contiguous(s)
    ensures s.ranges <= Next(w, s, e).ranges
    ensures s.ranges == [] && Next(w, s, e).ranges != [] ==>
              e.Scanned? && Next(w, s, e).ranges[0].from == if e.scan.startBlock.Some? then e.scan.startBlock.value else e.scan.safeHead
  {
    hide ApplyWrites, RunWrites, Billing.Perform;
    if e.Scanned? {
      FirstRangeStays(w, s, Prefix(RunWrites(w.chain, e.scan, StartOf(s, e.scan), e.scan.maxRanges), e.done));
      if s.ranges == [] { FirstRangeOfRun(w, s, e.scan, StartOf(s, e.scan), e.done); }
    }
  }

  /** Over any runs the first saved range begins at the configured start block, or without one at the head that some run has seen. */
  lemma {:induction false} ScanningBeginsAtTheStart(w: World, events: seq<Event>, start: Option<int>)
    requires PossibleRun(w, events) && StartsAt(events, start)
    ensures BeginsRight(DepositScanner.Run(w, START, events), events, start)
  {
    if events != [] {
      var before, e := events[..|events| - 1], events[|events| - 1];
      var s := DepositScanner.Run(w, START, before);
      ScanningBeginsAtTheStart(w, before, start);
      RunIsContiguous(w, before);
      NextRanges(w, s, e);
      hide Contiguous, Next, Possible;
      var after := DepositScanner.Run(w, START, events);
      if s.ranges != [] && start.None? {
        var i :| 0 <= i < |before| && before[i].Scanned? && before[i].scan.safeHead == s.ranges[0].from;
        assert events[i] == before[i];
      } else if after.ranges != [] && start.None? {
        assert events[|events| - 1].scan.safeHead == after.ranges[0].from;
      }
    }
  }

  lemma RunIsContiguous(w: World, events: seq<Event>)
    requires PossibleRun(w, events)
    ensures Contiguous(DepositScanner.Run(w, START, events))
  {
    RunInv(w, events);
  }

  /**
   So with a start block configured, every transfer worth a unit from that block up to the last scanned one, to an
   address known when its range was read, has exactly one entry, for its owner and its amount.
   */
  lemma EverythingSinceTheStart(w: World, events: seq<Event>, start: int, log: Log)
    requires PossibleRun(w, events) && StartsAt(events, Some(start)) && log in w.chain
    requires var s := DepositScanner.Run(w, START, events);
             s.lastScanned.Some? && start <= log.block <= s.lastScanned.value
    ensures var s := DepositScanner.Run(w, START, events);
            exists range :: range in s.ranges && range.from <= log.block <= range.to
              && (log.to in range.addresses && log.amountQuote * 100000000.0 >= 1.0 ==>
                    DepositCount(s.ledger.entries, log.id) == 1 && HasEntry(w, s.ledger.entries, log))
  {
    var s := DepositScanner.Run(w, START, events);
    ScanningBeginsAtTheStart(w, events, Some(start));
    RunIsContiguous(w, events);
    hide DepositScanner.Run, PossibleRun, DepositCount, HasEntry;
    EveryBlockScanned(s, log.block, |s.ranges|);
    var i :| 0 <= i < |s.ranges| && s.ranges[i].from <= log.block <= s.ranges[i].to;
    var range := s.ranges[i];
    if log.to in range.addresses && log.amountQuote * 100000000.0 >= 1.0 { ExactlyOnce(w, events, range, log); }
    assert range in s.ranges;
  }

  /** Between runs every billing operation takes its effect on the same ledger. */
  lemma {:induction false} OperationsTakeEffect(w: World, events: seq<Event>, operations: seq<Billing.Operation>)
    requires |events| == |operations| && forall i :: 0 <= i < |events| ==> events[i] == Billed(operations[i])
    ensures DepositScanner.Run(w, START, events).ledger == Billing.Run(Billing.EMPTY_LEDGER, operations)
  {
    hide Billing.Perform;
    if events != [] {
      OperationsTakeEffect(w, events[..|events| - 1], operations[..|operations| - 1]);
    }
  }
}
