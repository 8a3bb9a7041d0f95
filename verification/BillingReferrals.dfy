/** The referral walk: whom a fee pays, how much, and that it pays at most half of itself. */
module BillingReferrals {
  import opened Reals
  import opened Billing

  /* ---- The chain ---- */

  /** Nobody twice, nobody that was met before, everybody with an account, each the referrer of the one before. */
  predicate GoodChain(accounts: map<User, Account>, current: Option<User>, seen: set<User>, chain: seq<User>) {
    && (forall i :: 0 <= i < |chain| ==> chain[i] in accounts && chain[i] !in seen)
    && (forall i, j :: 0 <= i < j < |chain| ==> chain[i] != chain[j])
    && (chain != [] ==> current == Some(chain[0]))
    && (forall i :: 0 < i < |chain| ==> accounts[chain[i - 1]].referrer == Some(chain[i]))
  }

  /** On any graph of referrers, cyclic or not, the walk visits each upline at most once and never the payer. */
  lemma {:induction false} WalkVisitsOnce(accounts: map<User, Account>, current: Option<User>, seen: set<User>, n: nat)
    ensures GoodChain(accounts, current, seen, Uplines(accounts, current, seen, n))
    decreases n
  {
    if !(n == 0 || current.None? || current.value in seen || current.value !in accounts) {
      var u := current.value;
      var rest := Uplines(accounts, accounts[u].referrer, seen + {u}, n - 1);
      WalkVisitsOnce(accounts, accounts[u].referrer, seen + {u}, n - 1);
      var chain := [u] + rest;
      forall i, j | 0 <= i < j < |chain| ensures chain[i] != chain[j] {
        if i == 0 { assert rest[j - 1] !in seen + {u}; }
      }
    }
  }

  /** The walk stops early only for want of a referrer, at one without an account, or at one met before. */
  lemma {:induction false} WalkGoesOn(accounts: map<User, Account>, current: Option<User>, seen: set<User>, n: nat)
    ensures var chain := Uplines(accounts, current, seen, n);
            var next := if chain == [] then current else if chain[|chain| - 1] in accounts then accounts[chain[|chain| - 1]].referrer else None;
            |chain| == n || next.None? || next.value !in accounts || next.value in seen || next.value in chain
    decreases n
  {
    if !(n == 0 || current.None? || current.value in seen || current.value !in accounts) {
      WalkGoesOn(accounts, accounts[current.value].referrer, seen + {current.value}, n - 1);
    }
  }

  /* ---- The rewards ---- */

  /** The entries a fee sends up a chain: one for every active upline whose share is at least a unit. */
  function RewardList(l: Ledger, chain: seq<User>, fee: nat, feeEntry: nat, percents: seq<real>, now: nat, n: nat): seq<Entry>
    requires n <= |chain| <= |percents|
  {
    if n == 0 then []
    else
      var rest := RewardList(l, chain, fee, feeEntry, percents, now, n - 1);
      var u, share := chain[n - 1], Share(fee, percents[n - 1]);
      if u in l.accounts && share > 0 && Active(l.accounts[u], now)
      then rest + [Entry(u, ReferralReward, RewardOf(feeEntry, n), share, l.accounts[u].balance + share)]
      else rest
  }

  lemma {:induction false} RewardListShape(l: Ledger, chain: seq<User>, fee: nat, feeEntry: nat, percents: seq<real>, now: nat, n: nat)
    requires n <= |chain| <= |percents|
    ensures forall e :: e in RewardList(l, chain, fee, feeEntry, percents, now, n) ==>
              e.reference.RewardOf? && e.reference.fee == feeEntry && 1 <= e.reference.level <= n && e.user == chain[e.reference.level - 1]
              && e.kind.ReferralReward? && e.amount == Share(fee, percents[e.reference.level - 1]) > 0
              && e.user in l.accounts && Active(l.accounts[e.user], now)
  {
    hide Share;
    if n > 0 {
      RewardListShape(l, chain, fee, feeEntry, percents, now, n - 1);
    }
  }

  /** Nothing has been paid out of the fee yet. */
  predicate Untouched(l: Ledger, feeEntry: nat) {
    forall i :: 0 <= i < |l.entries| ==> !(l.entries[i].reference.RewardOf? && l.entries[i].reference.fee == feeEntry)
  }

  predicate Distinct(chain: seq<User>) {
    forall i, j :: 0 <= i < j < |chain| ==> chain[i] != chain[j]
  }

  /** The state after the first n uplines: their entries appended, everybody else untouched. */
  predicate PaidUpTo(l: Ledger, after: Ledger, chain: seq<User>, fee: nat, feeEntry: nat, percents: seq<real>, now: nat, n: nat)
    requires n <= |chain| <= |percents|
  {
    && after.entries == l.entries + RewardList(l, chain, fee, feeEntry, percents, now, n)
    && after.accounts.Keys == l.accounts.Keys
    && (forall u :: u in l.accounts && u !in chain[..n] ==> after.accounts[u] == l.accounts[u])
    && (forall u :: u in l.accounts ==> after.accounts[u].(balance := 0) == l.accounts[u].(balance := 0))
    && after.settled == l.settled && after.transfers == l.transfers
  }

  lemma {:induction false} PaysTheList(l: Ledger, chain: seq<User>, fee: nat, feeEntry: nat, percents: seq<real>, now: nat, n: nat)
    requires n <= |chain| <= |percents| && Distinct(chain) && Untouched(l, feeEntry)
    ensures PaidUpTo(l, PaidAll(l, chain, fee, feeEntry, percents, now, n), chain, fee, feeEntry, percents, now, n)
  {
    hide Share;
    if n > 0 {
      PaysTheList(l, chain, fee, feeEntry, percents, now, n - 1);
      PaysOneMore(l, PaidAll(l, chain, fee, feeEntry, percents, now, n - 1), chain, fee, feeEntry, percents, now, n);
    }
  }

  lemma NotYetPaid(l: Ledger, before: Ledger, chain: seq<User>, fee: nat, feeEntry: nat, percents: seq<real>, now: nat, n: nat)
    requires 0 < n <= |chain| <= |percents| && Untouched(l, feeEntry)
    requires PaidUpTo(l, before, chain, fee, feeEntry, percents, now, n - 1)
    ensures !Recorded(before.entries, chain[n - 1], ReferralReward, RewardOf(feeEntry, n))
  {
    hide Share;
    var list := RewardList(l, chain, fee, feeEntry, percents, now, n - 1);
    RewardListShape(l, chain, fee, feeEntry, percents, now, n - 1);
    hide RewardList;
    forall i | 0 <= i < |before.entries| ensures !SameKey(before.entries[i], chain[n - 1], ReferralReward, RewardOf(feeEntry, n)) {
      if i >= |l.entries| { assert before.entries[i] in list; }
    }
  }

  lemma PaysOneMore(l: Ledger, before: Ledger, chain: seq<User>, fee: nat, feeEntry: nat, percents: seq<real>, now: nat, n: nat)
    requires 0 < n <= |chain| <= |percents| && Distinct(chain) && Untouched(l, feeEntry)
    requires PaidUpTo(l, before, chain, fee, feeEntry, percents, now, n - 1)
    ensures PaidUpTo(l, Paid(before, chain[n - 1], fee, feeEntry, percents[n - 1], n, now), chain, fee, feeEntry, percents, now, n)
  {
    hide Share, Recorded;
    var u := chain[n - 1];
    NotYetPaid(l, before, chain, fee, feeEntry, percents, now, n);
    assert chain[..n] == chain[..n - 1] + [u];
    assert u !in chain[..n - 1];
  }

  /* ---- The amounts ---- */

  function RewardTotal(list: seq<Entry>): int {
    if list == [] then 0 else RewardTotal(list[..|list| - 1]) + list[|list| - 1].amount
  }

  lemma TotalAppend(list: seq<Entry>, e: Entry)
    ensures RewardTotal(list + [e]) == RewardTotal(list) + e.amount
  {
    assert (list + [e])[..|list|] == list;
  }

  /** A total is at most this many percent of a fee. */
  predicate Within(total: int, fee: nat, percent: real) {
    100.0 * total as real <= fee as real * percent
  }

  lemma ShareBound(fee: nat, percent: real)
    requires percent >= 0.0
    ensures 0 <= Share(fee, percent)
    ensures Within(Share(fee, percent), fee, percent)
  {
    ProductNonNegative(fee as real, percent);
  }

  /** Rounding down every share keeps the total within the total percentage. */
  lemma {:induction false} TotalBound(l: Ledger, chain: seq<User>, fee: nat, feeEntry: nat, percents: seq<real>, now: nat, n: nat)
    requires n <= |chain| <= |percents|
    requires forall i :: 0 <= i < |percents| ==> percents[i] >= 0.0
    ensures 0 <= RewardTotal(RewardList(l, chain, fee, feeEntry, percents, now, n))
    ensures Within(RewardTotal(RewardList(l, chain, fee, feeEntry, percents, now, n)), fee, Billing.Sum(percents[..n]))
  {
    hide Share, Active, Within;
    if n == 0 {
      NothingIsWithin(fee);
    } else {
      TotalBound(l, chain, fee, feeEntry, percents, now, n - 1);
      assert percents[..n][..n - 1] == percents[..n - 1];
      var rest := RewardList(l, chain, fee, feeEntry, percents, now, n - 1);
      var u, share := chain[n - 1], Share(fee, percents[n - 1]);
      ShareBound(fee, percents[n - 1]);
      BoundStep(RewardTotal(rest), share, fee, Billing.Sum(percents[..n - 1]), percents[n - 1]);
      if u in l.accounts {
        TotalAppend(rest, Entry(u, ReferralReward, RewardOf(feeEntry, n), share, l.accounts[u].balance + share));
      }
    }
  }

  lemma NothingIsWithin(fee: nat)
    ensures Within(0, fee, 0.0)
  {
  }

  /** Adding a level, paid or not, keeps the total within the summed percentage. */
  lemma BoundStep(total: int, share: int, fee: nat, sum: real, percent: real)
    requires percent >= 0.0 && Within(total, fee, sum) && Within(share, fee, percent)
    ensures Within(total + share, fee, sum + percent) && Within(total, fee, sum + percent)
  {
    ProductNonNegative(fee as real, percent);
    assert fee as real * (sum + percent) == fee as real * sum + fee as real * percent;
  }

  lemma {:induction false} SumPrefix(percents: seq<real>, n: nat)
    requires n <= |percents|
    requires forall i :: 0 <= i < |percents| ==> percents[i] >= 0.0
    ensures Billing.Sum(percents[..n]) <= Billing.Sum(percents)
    decreases |percents|
  {
    if n < |percents| {
      SumPrefix(percents[..|percents| - 1], n);
      assert percents[..|percents| - 1][..n] == percents[..n];
    } else {
      assert percents[..n] == percents;
    }
  }

  /** With settings that were accepted, the rewards of a fee never exceed half of it. */
  lemma AtMostHalf(l: Ledger, chain: seq<User>, fee: nat, feeEntry: nat, s: SettingsOk, now: nat)
    requires |chain| <= |s.referralPercents|
    ensures 0 <= 2 * RewardTotal(RewardList(l, chain, fee, feeEntry, s.referralPercents, now, |chain|)) <= fee
  {
    TotalBound(l, chain, fee, feeEntry, s.referralPercents, now, |chain|);
    SumPrefix(s.referralPercents, |chain|);
    hide RewardTotal, RewardList, Within;
    HalfInUnits(RewardTotal(RewardList(l, chain, fee, feeEntry, s.referralPercents, now, |chain|)), fee,
                Billing.Sum(s.referralPercents[..|chain|]));
  }

  lemma HalfInUnits(total: int, fee: nat, sum: real)
    requires Within(total, fee, sum) && sum <= 50.0
    ensures 2 * total <= fee
  {
    ProductMonotone(sum, 50.0, fee as real);
    assert (2 * total) as real <= fee as real;
  }

  /* ---- One distribution ---- */

  /** What a fee of this ledger sends to whom. */
  function Rewards(l: Ledger, payer: User, fee: nat, feeEntry: nat, percents: seq<real>, now: nat): seq<Entry> {
    var chain := UplinesOf(l, payer, |percents|);
    UplinesLength(l.accounts, ReferrerOf(l, payer), {payer}, |percents|);
    RewardList(l, chain, fee, feeEntry, percents, now, |chain|)
  }

  /**
   Distribution appends exactly these entries. Every one goes to an upline with an active membership, no
   upline gets two, the payer gets none, and together they are at most half the fee.
   */
  lemma DistributionPays(l: Ledger, payer: User, fee: nat, feeEntry: nat, s: SettingsOk, now: nat)
    requires Untouched(l, feeEntry)
    ensures var list := Rewards(l, payer, fee, feeEntry, s.referralPercents, now);
            var after := Distributed(l, payer, fee, feeEntry, s.referralPercents, now);
            && after.entries == l.entries + list && after.accounts.Keys == l.accounts.Keys
            && after.settled == l.settled && after.transfers == l.transfers
            && (forall e :: e in list ==> e.user != payer && e.user in l.accounts && Active(l.accounts[e.user], now))
            && UsersDistinct(list)
            && 0 <= 2 * RewardTotal(list) <= fee
  {
    var percents := s.referralPercents;
    var chain := UplinesOf(l, payer, |percents|);
    UplinesLength(l.accounts, ReferrerOf(l, payer), {payer}, |percents|);
    WalkVisitsOnce(l.accounts, ReferrerOf(l, payer), {payer}, |percents|);
    PaysTheList(l, chain, fee, feeEntry, percents, now, |chain|);
    AtMostHalf(l, chain, fee, feeEntry, s, now);
    RewardListShape(l, chain, fee, feeEntry, percents, now, |chain|);
    ListUsersDistinct(l, chain, fee, feeEntry, percents, now, |chain|);
  }

  lemma {:induction false} ListUsersDistinct(l: Ledger, chain: seq<User>, fee: nat, feeEntry: nat, percents: seq<real>, now: nat, n: nat)
    requires n <= |chain| <= |percents| && Distinct(chain)
    ensures UsersDistinct(RewardList(l, chain, fee, feeEntry, percents, now, n))
  {
    hide Share;
    if n > 0 {
      ListUsersDistinct(l, chain, fee, feeEntry, percents, now, n - 1);
      var rest := RewardList(l, chain, fee, feeEntry, percents, now, n - 1);
      RewardListShape(l, chain, fee, feeEntry, percents, now, n - 1);
      forall i | 0 <= i < |rest| ensures rest[i].user != chain[n - 1] {
        assert rest[i] in rest;
        var level := rest[i].reference.level;
        assert chain[level - 1] != chain[n - 1];
      }
      assert UsersDistinct(rest);
      var share := Share(fee, percents[n - 1]);
      if chain[n - 1] in l.accounts && share > 0 && Active(l.accounts[chain[n - 1]], now) {
        AppendDistinct(rest, Entry(chain[n - 1], ReferralReward, RewardOf(feeEntry, n), share, l.accounts[chain[n - 1]].balance + share));
      }
    }
  }

  predicate UsersDistinct(list: seq<Entry>) {
    forall i, j :: 0 <= i < j < |list| ==> list[i].user != list[j].user
  }

  lemma AppendDistinct(list: seq<Entry>, e: Entry)
    requires UsersDistinct(list) && forall i :: 0 <= i < |list| ==> list[i].user != e.user
    ensures UsersDistinct(list + [e])
  {
  }
}
