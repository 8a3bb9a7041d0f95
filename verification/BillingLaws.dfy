/** What every sequence of billing operations keeps: balances, prefix sums, keys, profit fees and reward shares. */
module BillingLaws {
  import opened Reals
  import opened Billing

  function AmountFor(e: Entry, user: User): int {
    if e.user == user then e.amount else 0
  }

  /** The sum of a user's entries. */
  function SumOf(entries: seq<Entry>, user: User): int {
    if entries == [] then 0 else SumOf(entries[..|entries| - 1], user) + AmountFor(entries[|entries| - 1], user)
  }

  lemma SumAppend(entries: seq<Entry>, e: Entry, user: User)
    ensures SumOf(entries + [e], user) == SumOf(entries, user) + AmountFor(e, user)
  {
    assert (entries + [e])[..|entries|] == entries;
  }

  /** What an entry pays out of a given fee. */
  function RewardFrom(e: Entry, fee: nat): int {
    if e.reference.RewardOf? && e.reference.fee == fee then e.amount else 0
  }

  /** All rewards paid out of a fee. */
  function RewardsOf(entries: seq<Entry>, fee: nat): int {
    if entries == [] then 0 else RewardsOf(entries[..|entries| - 1], fee) + RewardFrom(entries[|entries| - 1], fee)
  }

  lemma RewardsAppend(entries: seq<Entry>, e: Entry, fee: nat)
    ensures RewardsOf(entries + [e], fee) == RewardsOf(entries, fee) + RewardFrom(e, fee)
  {
    assert (entries + [e])[..|entries|] == entries;
  }

  /* ---- The invariant ---- */

  predicate UserAgrees(l: Ledger, user: User) {
    SumOf(l.entries, user) == if user in l.accounts then l.accounts[user].balance else 0
  }

  ghost predicate Balanced(l: Ledger) {
    forall u: User :: UserAgrees(l, u)
  }

  predicate PrefixSum(entries: seq<Entry>, i: nat)
    requires i < |entries|
  {
    entries[i].balanceAfter == SumOf(entries[..i + 1], entries[i].user)
  }

  predicate PrefixSums(entries: seq<Entry>) {
    forall i :: 0 <= i < |entries| ==> PrefixSum(entries, i)
  }

  predicate KeysUnique(entries: seq<Entry>) {
    forall i, j :: 0 <= i < j < |entries| ==> !SameKey(entries[j], entries[i].user, entries[i].kind, entries[i].reference)
  }

  /** Rewards, and only rewards, refer to a fee, and to one posted before them. */
  predicate RewardRefersBack(entries: seq<Entry>, i: nat)
    requires i < |entries|
  {
    (entries[i].kind.ReferralReward? <==> entries[i].reference.RewardOf?) &&
    (entries[i].reference.RewardOf? ==> entries[i].reference.fee < i)
  }

  predicate RewardsReferBack(entries: seq<Entry>) {
    forall i :: 0 <= i < |entries| ==> RewardRefersBack(entries, i)
  }

  /** A profit fee belongs to a settled position, and no other profit fee to the same one. */
  predicate FeesOfSettled(l: Ledger) {
    && (forall i :: 0 <= i < |l.entries| && l.entries[i].kind.ProfitFee? ==>
          l.entries[i].reference.OfPosition? && l.entries[i].reference.position in l.settled)
    && (forall i, j :: 0 <= i < j < |l.entries| && l.entries[i].kind.ProfitFee? && l.entries[j].kind.ProfitFee? ==>
          l.entries[i].reference != l.entries[j].reference)
  }

  ghost predicate Sound(l: Ledger) {
    Balanced(l) && PrefixSums(l.entries) && KeysUnique(l.entries) && RewardsReferBack(l.entries) && FeesOfSettled(l)
  }

  /** A profit fee may be posted for a position without one, and a reward only for an earlier entry. */
  predicate Postable(l: Ledger, kind: Kind, reference: Reference) {
    && (kind.ReferralReward? <==> reference.RewardOf?)
    && (reference.RewardOf? ==> reference.fee < |l.entries|)
    && (kind.ProfitFee? ==> reference.OfPosition? && reference.position in l.settled && NoFeeYet(l.entries, reference))
  }

  predicate NoFeeYet(entries: seq<Entry>, reference: Reference) {
    forall i :: 0 <= i < |entries| && entries[i].kind.ProfitFee? ==> entries[i].reference != reference
  }

  lemma PostedSound(l: Ledger, user: User, kind: Kind, reference: Reference, amount: int)
    requires Sound(l) && user in l.accounts
    requires !Recorded(l.entries, user, kind, reference) && Postable(l, kind, reference)
    ensures Sound(Posted(l, user, kind, reference, amount))
  {
    var after := Posted(l, user, kind, reference, amount);
    var e := after.entries[|l.entries|];
    forall u: User ensures UserAgrees(after, u) {
      assert UserAgrees(l, u);
      SumAppend(l.entries, e, u);
    }
    forall i | 0 <= i < |after.entries| ensures PrefixSum(after.entries, i) {
      if i < |l.entries| {
        assert PrefixSum(l.entries, i);
        assert after.entries[..i + 1] == l.entries[..i + 1];
      } else {
        assert after.entries[..i + 1] == l.entries + [e];
        SumAppend(l.entries, e, user);
        assert UserAgrees(l, user);
      }
    }
    forall i | 0 <= i < |after.entries| ensures RewardRefersBack(after.entries, i) {
      if i < |l.entries| { assert RewardRefersBack(l.entries, i); }
    }
    hide SumOf;
    KeysStayUnique(l.entries, e);
  }

  lemma KeysStayUnique(entries: seq<Entry>, e: Entry)
    requires KeysUnique(entries) && !Recorded(entries, e.user, e.kind, e.reference)
    ensures KeysUnique(entries + [e])
  {
    var all := entries + [e];
    forall i, j | 0 <= i < j < |all| ensures !SameKey(all[j], all[i].user, all[i].kind, all[i].reference) {
      if j < |entries| {
        assert !SameKey(entries[j], entries[i].user, entries[i].kind, entries[i].reference);
      } else {
        assert !SameKey(entries[i], e.user, e.kind, e.reference);
      }
    }
  }

  /** Accounts may gain a member or change anything but the balance. */
  lemma AccountsSound(l: Ledger, accounts: map<User, Account>)
    requires Sound(l)
    requires forall u :: u in l.accounts ==> u in accounts && accounts[u].balance == l.accounts[u].balance
    requires forall u :: u in accounts && u !in l.accounts ==> accounts[u].balance == 0
    ensures Sound(l.(accounts := accounts))
  {
    var after := l.(accounts := accounts);
    forall u: User ensures UserAgrees(after, u) {
      assert UserAgrees(l, u);
    }
    hide SumOf, Balanced, PrefixSums, KeysUnique, RewardsReferBack;
  }

  lemma EnsuredSound(l: Ledger, user: User, referrer: Option<User>)
    requires Sound(l)
    ensures Sound(Ensured(l, user, referrer))
  {
    hide Sound;
    AccountsSound(l, Ensured(l, user, referrer).accounts);
  }

  lemma ExtendedSound(l: Ledger, user: User, days: nat, now: nat)
    requires Sound(l) && user in l.accounts
    ensures Sound(Extended(l, user, days, now))
  {
    hide Sound;
    AccountsSound(l, Extended(l, user, days, now).accounts);
  }

  lemma MarksSound(l: Ledger, settled: set<nat>, transfers: set<nat>)
    requires Sound(l) && l.settled <= settled
    ensures Sound(l.(settled := settled, transfers := transfers))
  {
    var after := l.(settled := settled, transfers := transfers);
    forall u: User ensures UserAgrees(after, u) {
      assert UserAgrees(l, u);
    }
    hide SumOf, Balanced, PrefixSums, KeysUnique, RewardsReferBack;
  }

  /** Posting the same entry again changes nothing. */
  lemma ReplayChangesNothing(l: Ledger, user: User, kind: Kind, reference: Reference, amount: int, again: int)
    requires user in l.accounts
    ensures ApplyEntry(ApplyEntry(l, user, kind, reference, amount), user, kind, reference, again)
         == ApplyEntry(l, user, kind, reference, amount)
  {
    var once := ApplyEntry(l, user, kind, reference, amount);
    if !Recorded(l.entries, user, kind, reference) {
      assert SameKey(once.entries[|l.entries|], user, kind, reference);
    }
  }

  lemma ApplyEntrySound(l: Ledger, user: User, kind: Kind, reference: Reference, amount: int)
    requires Sound(l) && user in l.accounts && Postable(l, kind, reference)
    ensures Sound(ApplyEntry(l, user, kind, reference, amount))
  {
    hide Sound, Recorded, Postable;
    if !Recorded(l.entries, user, kind, reference) {
      PostedSound(l, user, kind, reference, amount);
    }
  }
}
