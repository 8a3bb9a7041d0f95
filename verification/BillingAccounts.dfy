/**
 Who refers to whom. Accounts are created once, under a referrer that has one
 already, so over every run the referrals form a forest; and a fee then pays
 its n-th share exactly to the n-th referrer above the payer.
 */
module BillingAccounts {
  import opened Reals
  import opened Billing
  import opened BillingReferrals

  /* ---- Creating accounts ---- */

  /** An account that is there stays as it is; a new one starts empty, under the given referrer unless that is the user, and is refused when that has none. */
  lemma CreatedExactly(l: Ledger, user: User, referrer: Option<User>)
    ensures var after := Ensured(l, user, referrer);
            && (user in after.accounts <==> user in l.accounts || referrer.None? || referrer.value == user || referrer.value in l.accounts)
            && (user !in l.accounts && user in after.accounts ==>
                  after.accounts[user].balance == 0 && after.accounts[user].membershipExpiresAt.None?
                  && after.accounts[user].referrer == (if referrer == Some(user) then None else referrer))
            && (forall u :: u in l.accounts ==> u in after.accounts && after.accounts[u] == l.accounts[u])
            && after.entries == l.entries && after.settled == l.settled && after.transfers == l.transfers
  {
  }

  /* ---- The forest ---- */

  /** Every referrer has an account, of a lower rank than those it refers. */
  predicate Ranks(accounts: map<User, Account>, rank: map<User, nat>) {
    forall u :: u in accounts ==>
      && u in rank && rank[u] < |accounts|
      && (accounts[u].referrer.Some? ==>
            var r := accounts[u].referrer.value; r in accounts && r in rank && rank[r] < rank[u])
  }

  ghost predicate Forest(accounts: map<User, Account>) {
    exists rank :: Ranks(accounts, rank)
  }

  predicate SameReferrers(l: Ledger, after: Ledger) {
    && after.accounts.Keys == l.accounts.Keys
    && forall u :: u in l.accounts ==> after.accounts[u].referrer == l.accounts[u].referrer
  }

  lemma SameReferrersForest(l: Ledger, after: Ledger)
    requires SameReferrers(l, after) && Forest(l.accounts)
    ensures Forest(after.accounts)
  {
    var rank :| Ranks(l.accounts, rank);
    assert |after.accounts| == |after.accounts.Keys| == |l.accounts.Keys|;
    assert Ranks(after.accounts, rank);
  }

  lemma RanksNew(accounts: map<User, Account>, rank: map<User, nat>, user: User, account: Account)
    requires Ranks(accounts, rank) && user !in accounts
    requires account.referrer.Some? ==> account.referrer.value in accounts
    ensures Ranks(accounts[user := account], rank[user := |accounts|])
  {
    var after := accounts[user := account];
    assert |after| == |after.Keys| == |accounts.Keys + {user}| by { assert after.Keys == accounts.Keys + {user}; }
  }

  lemma EnsuredForest(l: Ledger, user: User, referrer: Option<User>)
    requires Forest(l.accounts)
    ensures Forest(Ensured(l, user, referrer).accounts)
  {
    hide Ranks;
    if user !in l.accounts && !ReferrerMissing(l, user, referrer) {
      var rank :| Ranks(l.accounts, rank);
      RanksNew(l.accounts, rank, user, Account(0, None, if referrer == Some(user) then None else referrer));
    }
  }

  lemma PostedReferrers(l: Ledger, user: User, kind: Kind, reference: Reference, amount: int)
    requires user in l.accounts
    ensures SameReferrers(l, Posted(l, user, kind, reference, amount)) && SameReferrers(l, ApplyEntry(l, user, kind, reference, amount))
  {
    hide Recorded;
  }

  lemma {:induction false} PaidReferrers(l: Ledger, chain: seq<User>, fee: nat, feeEntry: nat, percents: seq<real>, now: nat, n: nat)
    requires n <= |chain| <= |percents|
    ensures SameReferrers(l, PaidAll(l, chain, fee, feeEntry, percents, now, n))
  {
    hide Share, Recorded;
    if n > 0 { PaidReferrers(l, chain, fee, feeEntry, percents, now, n - 1); }
  }

  lemma DistributedReferrers(l: Ledger, payer: User, fee: nat, feeEntry: nat, percents: seq<real>, now: nat)
    ensures SameReferrers(l, Distributed(l, payer, fee, feeEntry, percents, now))
  {
    var chain := UplinesOf(l, payer, |percents|);
    UplinesLength(l.accounts, ReferrerOf(l, payer), {payer}, |percents|);
    PaidReferrers(l, chain, fee, feeEntry, percents, now, |chain|);
  }

  lemma MembershipForest(l: Ledger, s: SettingsOk, user: User, nonce: nat, now: nat)
    requires Forest(l.accounts)
    ensures Forest(ActivateMembership(l, s, user, nonce, now).accounts)
  {
    hide Forest, Distributed, Recorded, Share;
    var ensured := Ensured(l, user, None);
    EnsuredForest(l, user, None);
    assert user in ensured.accounts;
    SameReferrersForest(ensured, Extended(ensured, user, s.membershipDays, now));
    var posted := Extended(Posted(ensured, user, MembershipFee, Random(nonce), 0 - s.membershipFee), user, s.membershipDays, now);
    SameReferrersForest(ensured, posted);
    DistributedReferrers(posted, user, s.membershipFee, |ensured.entries|, s.referralPercents, now);
    SameReferrersForest(posted, Distributed(posted, user, s.membershipFee, |ensured.entries|, s.referralPercents, now));
  }

  lemma SettlementForest(l: Ledger, s: SettingsOk, p: ClosedPosition, now: nat)
    requires Forest(l.accounts)
    ensures Forest(SettleProfitFee(l, s, p, now).accounts)
  {
    hide Forest, Distributed, Recorded, Share;
    var claimed := l.(settled := l.settled + {p.id});
    EnsuredForest(claimed, p.owner, None);
    var ready := Ensured(claimed, p.owner, None);
    if ProfitFeeOf(s, p) > 0 {
      var posted := Posted(ready, p.owner, ProfitFee, OfPosition(p.id), 0 - ProfitFeeOf(s, p));
      SameReferrersForest(ready, posted);
      DistributedReferrers(posted, p.owner, ProfitFeeOf(s, p), |ready.entries|, s.referralPercents, now);
      SameReferrersForest(posted, Distributed(posted, p.owner, ProfitFeeOf(s, p), |ready.entries|, s.referralPercents, now));
    }
  }

  lemma PerformForest(l: Ledger, op: Operation)
    requires Forest(l.accounts)
    ensures Forest(Perform(l, op).accounts)
  {
    hide Forest, ActivateMembership, SettleProfitFee, Recorded, Ensured;
    match op
    case Register(user, referrer) => EnsuredForest(l, user, referrer);
    case Membership(s, user, nonce, now) => MembershipForest(l, s, user, nonce, now);
    case Settlement(s, p, now) => SettlementForest(l, s, p, now);
    case Transfer(account, transfer, amountQuote) =>
      var noted := l.(transfers := l.transfers + {transfer});
      if account.Some? && account.value in l.accounts {
        PostedReferrers(noted, account.value, Deposit, OfTransfer(transfer), FloorQuote(amountQuote));
        SameReferrersForest(l, ApplyEntry(noted, account.value, Deposit, OfTransfer(transfer), FloorQuote(amountQuote)));
      }
    case Adjustment(user, amountQuote, nonce) =>
      EnsuredForest(l, user, None);
      CreatedExactly(l, user, None);
      var ensured := Ensured(l, user, None);
      PostedReferrers(ensured, user, AdminAdjustment, Random(nonce), FloorQuote(amountQuote));
      SameReferrersForest(ensured, ApplyEntry(ensured, user, AdminAdjustment, Random(nonce), FloorQuote(amountQuote)));
  }

  /** Over every run of operations the referrals form a forest: no account is its own referrer, however far up. */
  lemma {:induction false} ReferralsFormAForest(operations: seq<Operation>)
    ensures Forest(Run(EMPTY_LEDGER, operations).accounts)
  {
    if operations == [] {
      assert Ranks(map[], map[]);
    } else {
      ReferralsFormAForest(operations[..|operations| - 1]);
      hide Forest, Perform;
      PerformForest(Run(EMPTY_LEDGER, operations[..|operations| - 1]), operations[|operations| - 1]);
    }
  }

  /* ---- The walk, without its memory ---- */

  /** The k-th account from a start upwards along the referrers. */
  function Above(accounts: map<User, Account>, start: Option<User>, k: nat): Option<User>
    decreases k
  {
    if k == 0 || start.None? then start
    else Above(accounts, if start.value in accounts then accounts[start.value].referrer else None, k - 1)
  }

  /** In a forest the walk is the plain climb: what it remembers never stops it. */
  lemma {:induction false} WalkIsTheClimb(accounts: map<User, Account>, rank: map<User, nat>, current: Option<User>, seen: set<User>, n: nat, k: nat)
    requires Ranks(accounts, rank) && k < n && (current.Some? ==> current.value in accounts)
    requires current.Some? ==> forall u :: u in seen && u in rank ==> rank[current.value] < rank[u]
    requires forall u :: u in seen ==> u in rank
    ensures var chain := Uplines(accounts, current, seen, n);
            if k < |chain| then Above(accounts, current, k) == Some(chain[k]) else Above(accounts, current, k).None?
    decreases n
  {
    if current.Some? {
      var u := current.value;
      if k > 0 { WalkIsTheClimb(accounts, rank, accounts[u].referrer, seen + {u}, n - 1, k - 1); }
    }
  }

  /** An entry of the list at a level, to the referrer at that height. */
  predicate PaysAt(list: seq<Entry>, level: nat, user: User, feeEntry: nat) {
    exists i :: 0 <= i < |list| && list[i].reference == RewardOf(feeEntry, level) && list[i].user == user
  }

  lemma {:induction false} ListPaysAt(l: Ledger, chain: seq<User>, fee: nat, feeEntry: nat, percents: seq<real>, now: nat, n: nat, k: nat)
    requires n <= |chain| <= |percents| && k < n
    requires chain[k] in l.accounts && Share(fee, percents[k]) > 0 && Active(l.accounts[chain[k]], now)
    ensures PaysAt(RewardList(l, chain, fee, feeEntry, percents, now, n), k + 1, chain[k], feeEntry)
  {
    hide Share, Active;
    var list := RewardList(l, chain, fee, feeEntry, percents, now, n);
    if k == n - 1 {
      assert list[|list| - 1].reference == RewardOf(feeEntry, k + 1);
    } else {
      ListPaysAt(l, chain, fee, feeEntry, percents, now, n - 1, k);
      var rest := RewardList(l, chain, fee, feeEntry, percents, now, n - 1);
      var i :| 0 <= i < |rest| && rest[i].reference == RewardOf(feeEntry, k + 1) && rest[i].user == chain[k];
      assert list[i] == rest[i];
    }
  }

  /**
   A fee pays at level n + 1 if and only if there is a referrer n + 1 steps above the payer, it is a member at the
   time, and its share is at least a unit; then it is this referrer that is paid.
   */
  lemma RewardReachesExactly(l: Ledger, payer: User, fee: nat, feeEntry: nat, s: SettingsOk, now: nat, n: nat)
    requires Forest(l.accounts) && payer in l.accounts && n < |s.referralPercents|
    ensures var list, up := Rewards(l, payer, fee, feeEntry, s.referralPercents, now), Above(l.accounts, Some(payer), n + 1);
            var due := up.Some? && up.value in l.accounts && l.accounts[up.value].membershipExpiresAt.Some?
                       && l.accounts[up.value].membershipExpiresAt.value > now && Share(fee, s.referralPercents[n]) >= 1;
            && (due ==> PaysAt(list, n + 1, up.value, feeEntry))
            && (forall e :: e in list && e.reference == RewardOf(feeEntry, n + 1) ==> due && e.user == up.value)
  {
    hide Share, RewardList, UplinesOf, Above, Forest;
    var percents := s.referralPercents;
    var chain := UplinesOf(l, payer, |percents|);
    ChainIsTheClimb(l, payer, |percents|, n);
    RewardListShape(l, chain, fee, feeEntry, percents, now, |chain|);
    if n < |chain| && Share(fee, percents[n]) > 0 && Active(l.accounts[chain[n]], now) {
      ListPaysAt(l, chain, fee, feeEntry, percents, now, |chain|, n);
    }
  }

  lemma ChainIsTheClimb(l: Ledger, payer: User, count: nat, n: nat)
    requires Forest(l.accounts) && payer in l.accounts && n < count
    ensures var chain := UplinesOf(l, payer, count);
            && |chain| <= count
            && if n < |chain| then chain[n] in l.accounts && Above(l.accounts, Some(payer), n + 1) == Some(chain[n])
               else Above(l.accounts, Some(payer), n + 1).None?
  {
    var rank :| Ranks(l.accounts, rank);
    UplinesLength(l.accounts, ReferrerOf(l, payer), {payer}, count);
    WalkVisitsOnce(l.accounts, ReferrerOf(l, payer), {payer}, count);
    WalkIsTheClimb(l.accounts, rank, ReferrerOf(l, payer), {payer}, count, n);
    assert Above(l.accounts, Some(payer), n + 1) == Above(l.accounts, ReferrerOf(l, payer), n);
    hide Uplines, Above;
  }
}
