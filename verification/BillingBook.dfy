/** The billing service's transactions, run in place on the ledger rows. */
module BillingBook {
  import opened Reals
  import opened Billing

  lemma {:induction false} PaymentsKeepReferrers(l: Ledger, chain: seq<User>, fee: nat, feeEntry: nat, percents: seq<real>, now: nat, n: nat)
    requires n <= |chain| <= |percents|
    ensures PaidAll(l, chain, fee, feeEntry, percents, now, n).accounts.Keys == l.accounts.Keys
    ensures forall u :: u in l.accounts ==>
              PaidAll(l, chain, fee, feeEntry, percents, now, n).accounts[u].(balance := 0) == l.accounts[u].(balance := 0)
  {
    hide Share, Recorded;
    if n > 0 {
      PaymentsKeepReferrers(l, chain, fee, feeEntry, percents, now, n - 1);
    }
  }

  class Book {
    var ledger: Ledger

    constructor ()
      ensures ledger == EMPTY_LEDGER
    {
      ledger := EMPTY_LEDGER;
    }

    /** Moves the balance and writes the entry; false, and nothing done, when the key is already there. */
    method Apply(user: User, kind: Kind, reference: Reference, amount: int) returns (applied: bool)
      requires user in ledger.accounts
      modifies this
      ensures applied <==> !Recorded(old(ledger).entries, user, kind, reference)
      ensures ledger == ApplyEntry(old(ledger), user, kind, reference, amount)
    {
      if exists i :: 0 <= i < |ledger.entries| && SameKey(ledger.entries[i], user, kind, reference) { return false; }
      var balance := ledger.accounts[user].balance + amount;
      ledger := ledger.(accounts := ledger.accounts[user := ledger.accounts[user].(balance := balance)]);
      ledger := ledger.(entries := ledger.entries + [Entry(user, kind, reference, amount, balance)]);
      return true;
    }

    method EnsureAccount(user: User, referrer: Option<User>) returns (present: bool)
      modifies this
      ensures ledger == Ensured(old(ledger), user, referrer)
      ensures present <==> user in ledger.accounts
    {
      if user in ledger.accounts { return true; }
      if ReferrerMissing(ledger, user, referrer) { return false; }
      present := true;
      var stored := if referrer == Some(user) then None else referrer;
      ledger := ledger.(accounts := ledger.accounts[user := Account(0, None, stored)]);
    }

    /** Walks up the referrers level by level and pays each active one its share. */
    method DistributeReferralRewards(payer: User, fee: nat, feeEntry: nat, percents: seq<real>, now: nat)
      modifies this
      ensures ledger == Distributed(old(ledger), payer, fee, feeEntry, percents, now)
    {
      hide Share, ApplyEntry;
      ghost var start := ledger;
      ghost var chain := UplinesOf(start, payer, |percents|);
      UplinesLength(start.accounts, ReferrerOf(start, payer), {payer}, |percents|);
      var current := ReferrerOf(ledger, payer);
      var seen := {payer};
      var level := 1;
      while level <= |percents| && current.Some?
        invariant 1 <= level <= |percents| + 1 && level - 1 <= |chain| <= |percents|
        invariant chain[level - 1..] == Uplines(start.accounts, current, seen, |percents| - level + 1)
        invariant ledger == PaidAll(start, chain, fee, feeEntry, percents, now, level - 1)
        decreases |percents| - level
      {
        PaymentsKeepReferrers(start, chain, fee, feeEntry, percents, now, level - 1);
        var uplineId := current.value;
        if uplineId in seen { break; }
        if uplineId !in ledger.accounts { break; }
        assert chain[level - 1] == chain[level - 1..][0] == uplineId;
        assert chain[level..] == chain[level - 1..][1..];
        var upline := ledger.accounts[uplineId];
        seen := seen + {uplineId};
        var reward := Share(fee, percents[level - 1]);
        if reward > 0 && Active(upline, now) {
          var _ := Apply(uplineId, ReferralReward, RewardOf(feeEntry, level), reward);
        }
        current := upline.referrer;
        level := level + 1;
      }
      assert chain[level - 1..] == [];
    }

    /** Claims the position first, so that it pays once; then charges the fee and sends the rewards. */
    method Settle(s: SettingsOk, p: ClosedPosition, now: nat)
      modifies this
      ensures ledger == SettleProfitFee(old(ledger), s, p, now)
    {
      hide Distributed, Recorded;
      if !p.liable || p.id in ledger.settled { return; }
      ledger := ledger.(settled := ledger.settled + {p.id});
      var fee := ProfitFeeOf(s, p);
      if fee <= 0 { return; }
      var _ := EnsureAccount(p.owner, None);
      var feeEntry := |ledger.entries|;
      var charged := Apply(p.owner, ProfitFee, OfPosition(p.id), 0 - fee);
      if charged {
        DistributeReferralRewards(p.owner, fee, feeEntry, s.referralPercents, now);
      }
    }

    /** Charges the membership fee and extends the membership from now or from its end. */
    method Activate(s: SettingsOk, user: User, nonce: nat, now: nat) returns (active: bool)
      modifies this
      ensures ledger == ActivateMembership(old(ledger), s, user, nonce, now)
      ensures active <==> Ensured(old(ledger), user, None).accounts[user].balance >= s.membershipFee
    {
      hide Distributed, Recorded;
      var _ := EnsureAccount(user, None);
      var account := ledger.accounts[user];
      if account.balance < s.membershipFee { return false; }
      var from := if account.membershipExpiresAt.Some? && account.membershipExpiresAt.value > now then account.membershipExpiresAt.value else now;
      var feeEntry := |ledger.entries|;
      var charged := Apply(user, MembershipFee, Random(nonce), 0 - s.membershipFee);
      var paid := ledger.accounts[user];
      ledger := ledger.(accounts := ledger.accounts[user := paid.(membershipExpiresAt := Some(from + s.membershipDays * DAY_MS))]);
      if charged {
        DistributeReferralRewards(user, s.membershipFee, feeEntry, s.referralPercents, now);
      }
      return true;
    }

    /** Credits a transfer to the account behind its address; true when this call did. */
    method Credit(user: Option<User>, transfer: nat, amountQuote: real) returns (credited: bool)
      modifies this
      ensures ledger == CreditDeposit(old(ledger), user, transfer, amountQuote)
      ensures credited <==> transfer in ledger.transfers && transfer !in old(ledger).transfers
    {
      if user.None? || user.value !in ledger.accounts { return false; }
      var amount := FloorQuote(amountQuote);
      if amount <= 0 { return false; }
      if transfer in ledger.transfers { return false; }
      ledger := ledger.(transfers := ledger.transfers + {transfer});
      var _ := Apply(user.value, Deposit, OfTransfer(transfer), amount);
      return true;
    }

    method Adjust(user: User, amountQuote: real, nonce: nat) returns (done: bool)
      modifies this
      ensures done <==> amountQuote != 0.0
      ensures ledger == AdminAdjust(old(ledger), user, amountQuote, nonce)
    {
      if amountQuote == 0.0 { return false; }
      var _ := EnsureAccount(user, None);
      var _ := Apply(user, AdminAdjustment, Random(nonce), FloorQuote(amountQuote));
      return true;
    }
  }

  /** Summing the percentages as the settings update does. */
  method AcceptSettings(s: SettingsRow) returns (accepted: bool)
    ensures accepted <==> ValidSettings(s)
  {
    if s.membershipDays < 1 || s.membershipDays > 3660 { return false; }
    if !(0.0 <= s.profitFeePercent <= 50.0) { return false; }
    if |s.referralPercents| > MAX_REFERRAL_LEVELS { return false; }
    var sum := 0.0;
    for i := 0 to |s.referralPercents|
      invariant sum == Billing.Sum(s.referralPercents[..i])
      invariant forall j :: 0 <= j < i ==> s.referralPercents[j] >= 0.0
    {
      assert s.referralPercents[..i + 1][..i] == s.referralPercents[..i];
      if s.referralPercents[i] < 0.0 { return false; }
      sum := sum + s.referralPercents[i];
    }
    assert s.referralPercents[..|s.referralPercents|] == s.referralPercents;
    return sum <= 50.0;
  }
}
