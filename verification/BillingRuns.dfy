/** Every run of billing operations, from an empty ledger. */
module BillingRuns {
  import opened Reals
  import opened Billing
  import opened BillingLaws
  import opened BillingReferrals

  /** The rewards paid out of an entry are at most half of what it took. */
  predicate FeeShare(entries: seq<Entry>, f: nat)
    requires f < |entries|
  {
    RewardsOf(entries, f) == 0 || 0 <= 2 * RewardsOf(entries, f) <= -entries[f].amount
  }

  predicate FeeShares(entries: seq<Entry>) {
    forall f :: 0 <= f < |entries| ==> FeeShare(entries, f)
  }

  predicate SameFee(a: Entry, b: Entry) {
    a.reference.RewardOf? && b.reference.RewardOf? && a.reference.fee == b.reference.fee
  }

  /** No fee rewards a user twice. */
  predicate OncePerUpline(entries: seq<Entry>) {
    forall i, j :: 0 <= i < j < |entries| && SameFee(entries[i], entries[j]) ==> entries[i].user != entries[j].user
  }

  /** No fee rewards the user who paid it. */
  predicate NeverThePayer(entries: seq<Entry>) {
    forall i :: 0 <= i < |entries| ==> NotThePayer(entries, i)
  }

  predicate NotThePayer(entries: seq<Entry>, i: nat)
    requires i < |entries|
  {
    entries[i].reference.RewardOf? && entries[i].reference.fee < |entries| ==> entries[i].user != entries[entries[i].reference.fee].user
  }

  predicate Payees(entries: seq<Entry>) {
    OncePerUpline(entries) && NeverThePayer(entries)
  }

  ghost predicate Inv(l: Ledger) {
    Sound(l) && FeeShares(l.entries) && Payees(l.entries)
  }

  /** An entry that is no reward changes nobody's rewards; rewards only refer to entries before them. */
  lemma PostedPayees(l: Ledger, e: Entry)
    requires RewardsReferBack(l.entries) && Payees(l.entries) && !e.reference.RewardOf?
    ensures Payees(l.entries + [e])
  {
    var after := l.entries + [e];
    forall i | 0 <= i < |after| ensures NotThePayer(after, i) {
      if i < |l.entries| { assert NotThePayer(l.entries, i) && RewardRefersBack(l.entries, i); }
    }
  }

  /** A list of rewards of one fee, which has paid nothing before, to distinct users other than its payer. */
  lemma RewardedPayees(l: Ledger, list: seq<Entry>, feeEntry: nat)
    requires RewardsReferBack(l.entries) && Payees(l.entries) && Untouched(l, feeEntry) && feeEntry < |l.entries|
    requires UsersDistinct(list)
    requires forall e :: e in list ==> e.reference.RewardOf? && e.reference.fee == feeEntry && e.user != l.entries[feeEntry].user
    ensures Payees(l.entries + list)
  {
    var after := l.entries + list;
    forall i | 0 <= i < |after| ensures NotThePayer(after, i) {
      if i < |l.entries| { assert NotThePayer(l.entries, i) && RewardRefersBack(l.entries, i); } else { assert after[i] in list; }
    }
    forall i, j | 0 <= i < j < |after| && SameFee(after[i], after[j]) ensures after[i].user != after[j].user {
      if j < |l.entries| {
        assert SameFee(l.entries[i], l.entries[j]);
      } else {
        assert after[j] in list;
        if i >= |l.entries| { assert list[i - |l.entries|].user != list[j - |l.entries|].user; }
      }
    }
  }

  /* ---- Rewards of a fee ---- */

  lemma {:induction false} RewardsConcat(a: seq<Entry>, list: seq<Entry>, feeEntry: nat, f: nat)
    requires forall e :: e in list ==> e.reference.RewardOf? && e.reference.fee == feeEntry
    ensures RewardsOf(a + list, f) == RewardsOf(a, f) + if f == feeEntry then RewardTotal(list) else 0
  {
    if list == [] {
      assert a + list == a;
    } else {
      var rest := list[..|list| - 1];
      RewardsConcat(a, rest, feeEntry, f);
      RewardsAppend(a + rest, list[|list| - 1], f);
      assert a + list == (a + rest) + [list[|list| - 1]];
    }
  }

  /** No entry refers to a fee at or after its own place. */
  lemma {:induction false} NoRewardsAhead(entries: seq<Entry>, f: nat)
    requires RewardsReferBack(entries) && f >= |entries|
    ensures RewardsOf(entries, f) == 0
  {
    if entries != [] {
      var last := |entries| - 1;
      assert RewardRefersBack(entries, last);
      forall i | 0 <= i < last ensures RewardRefersBack(entries[..last], i) { assert RewardRefersBack(entries, i); }
      NoRewardsAhead(entries[..last], f);
    }
  }

  lemma NewEntriesUnpaid(l: Ledger, f: nat)
    requires RewardsReferBack(l.entries) && f >= |l.entries|
    ensures Untouched(l, f)
  {
    forall i | 0 <= i < |l.entries| ensures !(l.entries[i].reference.RewardOf? && l.entries[i].reference.fee == f) {
      assert RewardRefersBack(l.entries, i);
    }
  }

  /* ---- Elementary steps ---- */

  lemma PostedInv(l: Ledger, user: User, kind: Kind, reference: Reference, amount: int)
    requires Inv(l) && user in l.accounts && !reference.RewardOf?
    requires !Recorded(l.entries, user, kind, reference) && Postable(l, kind, reference)
    ensures Inv(Posted(l, user, kind, reference, amount))
    ensures Untouched(Posted(l, user, kind, reference, amount), |l.entries|)
  {
    PostedSound(l, user, kind, reference, amount);
    var after := Posted(l, user, kind, reference, amount);
    var e := after.entries[|l.entries|];
    PostedPayees(l, e);
    hide Payees;
    NewEntriesUnpaid(l, |l.entries|);
    NoRewardsAhead(l.entries, |l.entries|);
    forall f | 0 <= f < |after.entries| ensures FeeShare(after.entries, f) {
      RewardsAppend(l.entries, e, f);
      if f < |l.entries| { assert FeeShare(l.entries, f); }
    }
  }

  lemma {:induction false} PaidAllSound(l: Ledger, chain: seq<User>, fee: nat, feeEntry: nat, percents: seq<real>, now: nat, n: nat)
    requires n <= |chain| <= |percents| && Sound(l) && feeEntry < |l.entries|
    ensures Sound(PaidAll(l, chain, fee, feeEntry, percents, now, n))
    ensures |PaidAll(l, chain, fee, feeEntry, percents, now, n).entries| >= |l.entries|
  {
    hide Sound, Share, Recorded;
    if n > 0 {
      PaidAllSound(l, chain, fee, feeEntry, percents, now, n - 1);
      var before := PaidAll(l, chain, fee, feeEntry, percents, now, n - 1);
      if chain[n - 1] in before.accounts {
        ApplyEntrySound(before, chain[n - 1], ReferralReward, RewardOf(feeEntry, n), Share(fee, percents[n - 1]));
      }
    }
  }

  lemma RewardsShape(l: Ledger, payer: User, fee: nat, feeEntry: nat, percents: seq<real>, now: nat)
    ensures forall e :: e in Rewards(l, payer, fee, feeEntry, percents, now) ==> e.reference.RewardOf? && e.reference.fee == feeEntry
  {
    var chain := UplinesOf(l, payer, |percents|);
    UplinesLength(l.accounts, ReferrerOf(l, payer), {payer}, |percents|);
    RewardListShape(l, chain, fee, feeEntry, percents, now, |chain|);
  }

  lemma DistributedInv(l: Ledger, payer: User, fee: nat, feeEntry: nat, s: SettingsOk, now: nat)
    requires Inv(l) && feeEntry < |l.entries| && l.entries[feeEntry].amount == 0 - fee && Untouched(l, feeEntry)
    requires l.entries[feeEntry].user == payer
    ensures Inv(Distributed(l, payer, fee, feeEntry, s.referralPercents, now))
  {
    var after := Distributed(l, payer, fee, feeEntry, s.referralPercents, now);
    var list := Rewards(l, payer, fee, feeEntry, s.referralPercents, now);
    DistributionPays(l, payer, fee, feeEntry, s, now);
    RewardsShape(l, payer, fee, feeEntry, s.referralPercents, now);
    var chain := UplinesOf(l, payer, |s.referralPercents|);
    UplinesLength(l.accounts, ReferrerOf(l, payer), {payer}, |s.referralPercents|);
    PaidAllSound(l, chain, fee, feeEntry, s.referralPercents, now, |chain|);
    hide Rewards, Distributed;
    RewardedPayees(l, list, feeEntry);
    hide Payees, UsersDistinct;
    UntouchedIsZero(l.entries, l, feeEntry);
    forall f | 0 <= f < |after.entries| ensures FeeShare(after.entries, f) {
      RewardsConcat(l.entries, list, feeEntry, f);
      if f < |l.entries| { assert FeeShare(l.entries, f); } else { NoRewardsAhead(l.entries, f); }
    }
  }

  lemma {:induction false} UntouchedIsZero(entries: seq<Entry>, l: Ledger, f: nat)
    requires entries <= l.entries && Untouched(l, f)
    ensures RewardsOf(entries, f) == 0
    decreases |entries|
  {
    if entries != [] {
      UntouchedIsZero(entries[..|entries| - 1], l, f);
      assert entries[|entries| - 1] == l.entries[|entries| - 1];
    }
  }

  lemma EnsuredInv(l: Ledger, user: User, referrer: Option<User>)
    requires Inv(l)
    ensures Inv(Ensured(l, user, referrer))
  {
    hide Sound;
    EnsuredSound(l, user, referrer);
  }

  lemma ExtendedInv(l: Ledger, user: User, days: nat, now: nat)
    requires Inv(l) && user in l.accounts
    ensures Inv(Extended(l, user, days, now))
  {
    hide Sound;
    ExtendedSound(l, user, days, now);
  }

  /* ---- Operations ---- */

  lemma MembershipInv(l: Ledger, s: SettingsOk, user: User, nonce: nat, now: nat)
    requires Inv(l)
    ensures Inv(ActivateMembership(l, s, user, nonce, now))
  {
    hide Inv, Recorded, Distributed, Untouched;
    var ensured := Ensured(l, user, None);
    EnsuredInv(l, user, None);
    if ensured.accounts[user].balance >= s.membershipFee {
      if Recorded(ensured.entries, user, MembershipFee, Random(nonce)) {
        ExtendedInv(ensured, user, s.membershipDays, now);
      } else {
        PostedInv(ensured, user, MembershipFee, Random(nonce), 0 - s.membershipFee);
        var posted := Posted(ensured, user, MembershipFee, Random(nonce), 0 - s.membershipFee);
        ExtendedInv(posted, user, s.membershipDays, now);
        var extended := Extended(posted, user, s.membershipDays, now);
        SameEntriesUntouched(posted, extended, |ensured.entries|);
        DistributedInv(extended, user, s.membershipFee, |ensured.entries|, s, now);
      }
    }
  }

  lemma SameEntriesUntouched(l: Ledger, after: Ledger, f: nat)
    requires after.entries == l.entries
    ensures Untouched(after, f) == Untouched(l, f)
  {
  }

  /** A position that is not settled has no profit fee yet. */
  lemma UnsettledHasNoFee(l: Ledger, position: nat)
    requires Sound(l) && position !in l.settled
    ensures NoFeeYet(l.entries, OfPosition(position))
  {
  }

  lemma NoFeeNotRecorded(entries: seq<Entry>, user: User, reference: Reference)
    requires NoFeeYet(entries, reference)
    ensures !Recorded(entries, user, ProfitFee, reference)
  {
  }

  lemma ClaimedInv(l: Ledger, position: nat)
    requires Inv(l)
    ensures Inv(l.(settled := l.settled + {position}))
  {
    MarksSound(l, l.settled + {position}, l.transfers);
    hide Sound;
    assert l.(settled := l.settled + {position}) == l.(settled := l.settled + {position}, transfers := l.transfers);
  }

  /** A settlement claims the position; a positive fee is always charged, to the owner, under the position's reference. */
  lemma SettlementCharges(l: Ledger, s: SettingsOk, p: ClosedPosition, now: nat)
    requires Inv(l) && p.liable && p.id !in l.settled && ProfitFeeOf(s, p) > 0
    ensures var ready := Ensured(l.(settled := l.settled + {p.id}), p.owner, None);
            && Inv(SettleProfitFee(l, s, p, now))
            && SettleProfitFee(l, s, p, now)
               == Distributed(Posted(ready, p.owner, ProfitFee, OfPosition(p.id), 0 - ProfitFeeOf(s, p)),
                              p.owner, ProfitFeeOf(s, p), |l.entries|, s.referralPercents, now)
  {
    UnsettledHasNoFee(l, p.id);
    hide Inv, Recorded, Distributed, Untouched, NoFeeYet, ProfitFeeOf;
    ClaimedInv(l, p.id);
    var claimed := l.(settled := l.settled + {p.id});
    EnsuredInv(claimed, p.owner, None);
    var ready := Ensured(claimed, p.owner, None);
    NoFeeNotRecorded(ready.entries, p.owner, OfPosition(p.id));
    PostedInv(ready, p.owner, ProfitFee, OfPosition(p.id), 0 - ProfitFeeOf(s, p));
    DistributedInv(Posted(ready, p.owner, ProfitFee, OfPosition(p.id), 0 - ProfitFeeOf(s, p)), p.owner, ProfitFeeOf(s, p), |l.entries|, s, now);
  }

  lemma SettlementInv(l: Ledger, s: SettingsOk, p: ClosedPosition, now: nat)
    requires Inv(l)
    ensures Inv(SettleProfitFee(l, s, p, now))
  {
    if p.liable && p.id !in l.settled {
      if ProfitFeeOf(s, p) > 0 {
        SettlementCharges(l, s, p, now);
      } else {
        ClaimedInv(l, p.id);
      }
    }
  }

  lemma CreditInv(l: Ledger, user: Option<User>, transfer: nat, amountQuote: real)
    requires Inv(l)
    ensures Inv(CreditDeposit(l, user, transfer, amountQuote))
  {
    hide Recorded;
    if user.Some? && user.value in l.accounts && FloorQuote(amountQuote) > 0 && transfer !in l.transfers {
      MarksSound(l, l.settled, l.transfers + {transfer});
      var marked := l.(transfers := l.transfers + {transfer});
      assert marked == l.(settled := l.settled, transfers := l.transfers + {transfer});
      hide Sound;
      if !Recorded(l.entries, user.value, Deposit, OfTransfer(transfer)) {
        PostedInv(marked, user.value, Deposit, OfTransfer(transfer), FloorQuote(amountQuote));
      }
    }
  }

  lemma AdjustmentInv(l: Ledger, user: User, amountQuote: real, nonce: nat)
    requires Inv(l)
    ensures Inv(AdminAdjust(l, user, amountQuote, nonce))
  {
    hide Inv, Recorded;
    if amountQuote != 0.0 {
      EnsuredInv(l, user, None);
      var ensured := Ensured(l, user, None);
      if !Recorded(ensured.entries, user, AdminAdjustment, Random(nonce)) {
        PostedInv(ensured, user, AdminAdjustment, Random(nonce), FloorQuote(amountQuote));
      }
    }
  }

  lemma PerformInv(l: Ledger, op: Operation)
    requires Inv(l)
    ensures Inv(Perform(l, op))
  {
    hide Inv, Ensured, ActivateMembership, SettleProfitFee, CreditDeposit, AdminAdjust;
    match op
    case Register(user, referrer) => EnsuredInv(l, user, referrer);
    case Membership(settings, user, nonce, now) => MembershipInv(l, settings, user, nonce, now);
    case Settlement(settings, position, now) => SettlementInv(l, settings, position, now);
    case Transfer(account, transfer, amountQuote) => CreditInv(l, account, transfer, amountQuote);
    case Adjustment(user, amountQuote, nonce) => AdjustmentInv(l, user, amountQuote, nonce);
  }

  /**
   After any operations: every balance is the sum of its entries, every `balanceAfter` the prefix sum, no key
   occurs twice, no position paid two profit fees, and no fee paid more than half of itself in rewards, or
   rewarded a user twice, or its own payer.
   */
  lemma {:induction false} LedgerAgrees(operations: seq<Operation>)
    ensures Inv(Run(EMPTY_LEDGER, operations))
  {
    if operations == [] {
    } else {
      LedgerAgrees(operations[..|operations| - 1]);
      hide Inv, Perform;
      PerformInv(Run(EMPTY_LEDGER, operations[..|operations| - 1]), operations[|operations| - 1]);
    }
  }

  /* ---- Replays ---- */

  /** Settling a position again, under whatever settings and figures, changes nothing. */
  lemma SettlementOnce(l: Ledger, s: SettingsOk, p: ClosedPosition, now: nat, t: SettingsOk, q: ClosedPosition, later: nat)
    requires Inv(l) && q.id == p.id && p.liable
    ensures SettleProfitFee(SettleProfitFee(l, s, p, now), t, q, later) == SettleProfitFee(l, s, p, now)
  {
    if p.id !in l.settled && ProfitFeeOf(s, p) > 0 {
      var ready := Ensured(l.(settled := l.settled + {p.id}), p.owner, None);
      SettlementCharges(l, s, p, now);
      var posted := Posted(ready, p.owner, ProfitFee, OfPosition(p.id), 0 - ProfitFeeOf(s, p));
      UnsettledHasNoFee(l, p.id);
      NewEntriesUnpaid(l, |l.entries|);
      assert Untouched(posted, |l.entries|);
      DistributionPays(posted, p.owner, ProfitFeeOf(s, p), |l.entries|, s, now);
    }
  }

  /** A transfer reported again, to whatever account and amount, changes nothing once it was credited. */
  lemma TransferOnce(l: Ledger, user: Option<User>, transfer: nat, amountQuote: real, again: Option<User>, other: real)
    requires transfer in CreditDeposit(l, user, transfer, amountQuote).transfers
    ensures CreditDeposit(CreditDeposit(l, user, transfer, amountQuote), again, transfer, other)
         == CreditDeposit(l, user, transfer, amountQuote)
  {
  }

  /* ---- What is charged and granted ---- */

  /** A share is the largest whole number of units that is no more than the percentage. */
  predicate IsShare(units: int, amount: nat, percent: real) {
    100.0 * units as real <= amount as real * percent < 100.0 * (units + 1) as real
  }

  lemma ShareIs(amount: nat, percent: real)
    ensures IsShare(Share(amount, percent), amount, percent)
  {
    var exact := amount as real * percent;
    assert exact / 100.0 * 100.0 == exact;
    var units := (exact / 100.0).Floor;
    assert units as real <= exact / 100.0 < units as real + 1.0;
  }

  /**
   The first settlement of a liable position charges its owner the profit fee's share of the profit, in whole
   units, under the position's reference; without a profit, or below one unit, it charges nothing.
   */
  lemma SettlementChargesTheShare(l: Ledger, s: SettingsOk, p: ClosedPosition, now: nat) returns (charge: nat)
    requires Inv(l) && p.liable && p.id !in l.settled
    ensures if p.profit > 0 then IsShare(charge, p.profit, s.profitFeePercent) else charge == 0
    ensures var after := SettleProfitFee(l, s, p, now);
            && p.id in after.settled
            && (charge == 0 ==> after.entries == l.entries)
            && (charge > 0 ==>
                  && |l.entries| < |after.entries| && l.entries <= after.entries
                  && var e := after.entries[|l.entries|];
                     e.user == p.owner && e.kind == ProfitFee && e.reference == OfPosition(p.id) && e.amount == 0 - charge)
  {
    if p.profit > 0 {
      ShareIs(p.profit, s.profitFeePercent);
      ShareBound(p.profit, s.profitFeePercent);
    }
    charge := ProfitFeeOf(s, p);
    hide Share;
    if charge > 0 {
      SettlementCharges(l, s, p, now);
      var ready := Ensured(l.(settled := l.settled + {p.id}), p.owner, None);
      var posted := Posted(ready, p.owner, ProfitFee, OfPosition(p.id), 0 - charge);
      NewEntriesUnpaid(l, |l.entries|);
      assert Untouched(posted, |l.entries|);
      hide Inv, Distributed, Rewards;
      DistributionPays(posted, p.owner, charge, |l.entries|, s, now);
    }
  }

  /** Every reward of a fee is the share of its level's percentage. */
  lemma RewardsAreShares(l: Ledger, payer: User, fee: nat, feeEntry: nat, s: SettingsOk, now: nat)
    ensures forall e :: e in Rewards(l, payer, fee, feeEntry, s.referralPercents, now) ==>
              && e.reference.RewardOf? && e.reference.fee == feeEntry && 1 <= e.reference.level <= |s.referralPercents| && e.reference.level <= 5
              && e.amount > 0 && IsShare(e.amount, fee, s.referralPercents[e.reference.level - 1])
  {
    var percents := s.referralPercents;
    var chain := UplinesOf(l, payer, |percents|);
    UplinesLength(l.accounts, ReferrerOf(l, payer), {payer}, |percents|);
    RewardListShape(l, chain, fee, feeEntry, percents, now, |chain|);
    hide Share, RewardList, IsShare;
    forall e | e in Rewards(l, payer, fee, feeEntry, percents, now) ensures IsShare(e.amount, fee, percents[e.reference.level - 1]) {
      ShareIs(fee, percents[e.reference.level - 1]);
    }
  }

  /** How long a user is still a member. */
  function TimeLeft(l: Ledger, user: User, now: nat): nat {
    if user in l.accounts && l.accounts[user].membershipExpiresAt.Some? && l.accounts[user].membershipExpiresAt.value > now
    then l.accounts[user].membershipExpiresAt.value - now else 0
  }

  function BalanceOf(l: Ledger, user: User): int {
    if user in l.accounts then l.accounts[user].balance else 0
  }

  /**
   A membership that can be paid for, under a fresh reference, takes the fee and adds exactly the days paid for to
   the time that was left; one that cannot changes neither.
   */
  lemma MembershipBuysItsDays(l: Ledger, s: SettingsOk, user: User, nonce: nat, now: nat)
    requires Inv(l) && !Recorded(l.entries, user, MembershipFee, Random(nonce))
    ensures var after := ActivateMembership(l, s, user, nonce, now);
            if BalanceOf(l, user) < s.membershipFee
            then after.entries == l.entries && TimeLeft(after, user, now) == TimeLeft(l, user, now)
            else
              && TimeLeft(after, user, now) == TimeLeft(l, user, now) + s.membershipDays * 24 * 60 * 60 * 1000
              && 1 <= s.membershipDays <= 3660
              && |l.entries| < |after.entries| && l.entries <= after.entries
              && var e := after.entries[|l.entries|];
                 e.user == user && e.kind == MembershipFee && e.reference == Random(nonce) && e.amount == 0 - s.membershipFee
  {
    hide Distributed, Rewards, Recorded;
    var ensured := Ensured(l, user, None);
    if BalanceOf(l, user) >= s.membershipFee {
      var posted := Extended(Posted(ensured, user, MembershipFee, Random(nonce), 0 - s.membershipFee), user, s.membershipDays, now);
      NewEntriesUnpaid(l, |l.entries|);
      assert Untouched(posted, |l.entries|);
      hide Inv;
      DistributionPays(posted, user, s.membershipFee, |l.entries|, s, now);
      DistributionKeepsTime(posted, user, s.membershipFee, |l.entries|, s, now, user);
    }
  }

  lemma {:induction false} PaidAllKeepsTime(l: Ledger, chain: seq<User>, fee: nat, feeEntry: nat, percents: seq<real>, now: nat, n: nat, user: User)
    requires n <= |chain| <= |percents|
    ensures TimeLeft(PaidAll(l, chain, fee, feeEntry, percents, now, n), user, now) == TimeLeft(l, user, now)
  {
    hide Share, Recorded;
    if n > 0 { PaidAllKeepsTime(l, chain, fee, feeEntry, percents, now, n - 1, user); }
  }

  lemma DistributionKeepsTime(l: Ledger, payer: User, fee: nat, feeEntry: nat, s: SettingsOk, now: nat, user: User)
    ensures TimeLeft(Distributed(l, payer, fee, feeEntry, s.referralPercents, now), user, now) == TimeLeft(l, user, now)
  {
    var percents := s.referralPercents;
    var chain := UplinesOf(l, payer, |percents|);
    UplinesLength(l.accounts, ReferrerOf(l, payer), {payer}, |percents|);
    PaidAllKeepsTime(l, chain, fee, feeEntry, percents, now, |chain|, user);
  }
}
