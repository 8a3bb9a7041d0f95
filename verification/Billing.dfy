/**
 The prepaid balance: a ledger of entries keyed by (user, type, reference), the
 membership and profit fees it pays, and the referral rewards that each fee
 sends up the chain of referrers.

 Amounts are whole units of 1e-8, the ledger's precision. Users, positions and
 random references are numbers; an entry's identifier is its place in the ledger.
 */
module Billing {
  import opened Reals

  type User = nat

  datatype Kind = MembershipFee | ProfitFee | Deposit | ReferralReward | AdminAdjustment

  datatype Reference = Random(nonce: nat) | OfPosition(position: nat) | OfTransfer(transfer: nat) | RewardOf(fee: nat, level: nat)

  datatype Entry = Entry(user: User, kind: Kind, reference: Reference, amount: int, balanceAfter: int)

  datatype Account = Account(balance: int, membershipExpiresAt: Option<nat>, referrer: Option<User>)

  datatype Ledger = Ledger(accounts: map<User, Account>, entries: seq<Entry>, settled: set<nat>, transfers: set<nat>)

  datatype SettingsRow = Settings(membershipFee: nat, membershipDays: nat, profitFeePercent: real, referralPercents: seq<real>)

  const MAX_REFERRAL_LEVELS: nat := 5
  const DAY_MS: nat := 86_400_000

  function Sum(percents: seq<real>): real {
    if percents == [] then 0.0 else Sum(percents[..|percents| - 1]) + percents[|percents| - 1]
  }

  /** What updateSettings accepts. */
  predicate ValidSettings(s: SettingsRow) {
    && 1 <= s.membershipDays <= 3660
    && 0.0 <= s.profitFeePercent <= 50.0
    && |s.referralPercents| <= MAX_REFERRAL_LEVELS
    && (forall i :: 0 <= i < |s.referralPercents| ==> s.referralPercents[i] >= 0.0)
    && Sum(s.referralPercents) <= 50.0
  }

  type SettingsOk = s: SettingsRow | ValidSettings(s) witness Settings(0, 1, 0.0, [])

  function Active(a: Account, now: nat): bool {
    a.membershipExpiresAt.Some? && a.membershipExpiresAt.value > now
  }

  /** A quote amount in units, rounded down. */
  function FloorQuote(value: real): int {
    (value * 100000000.0).Floor
  }

  /** A share of an amount, rounded down to a whole unit. */
  function Share(amount: nat, percent: real): int {
    (amount as real * percent / 100.0).Floor
  }

  /* ---- One entry ---- */

  predicate SameKey(e: Entry, user: User, kind: Kind, reference: Reference) {
    e.user == user && e.kind == kind && e.reference == reference
  }

  predicate Recorded(entries: seq<Entry>, user: User, kind: Kind, reference: Reference) {
    exists i :: 0 <= i < |entries| && SameKey(entries[i], user, kind, reference)
  }

  function Posted(l: Ledger, user: User, kind: Kind, reference: Reference, amount: int): Ledger
    requires user in l.accounts
  {
    var balance := l.accounts[user].balance + amount;
    l.(accounts := l.accounts[user := l.accounts[user].(balance := balance)],
       entries := l.entries + [Entry(user, kind, reference, amount, balance)])
  }

  /** Posts an entry unless its key is already in the ledger. */
  function ApplyEntry(l: Ledger, user: User, kind: Kind, reference: Reference, amount: int): Ledger
    requires user in l.accounts
  {
    if Recorded(l.entries, user, kind, reference) then l else Posted(l, user, kind, reference, amount)
  }

  /* ---- Referral rewards ---- */

  /** The referrers above `current`, at most n of them, up to the first one met before or missing. */
  function Uplines(accounts: map<User, Account>, current: Option<User>, seen: set<User>, n: nat): seq<User>
    decreases n
  {
    if n == 0 || current.None? || current.value in seen || current.value !in accounts then []
    else [current.value] + Uplines(accounts, accounts[current.value].referrer, seen + {current.value}, n - 1)
  }

  function ReferrerOf(l: Ledger, user: User): Option<User> {
    if user in l.accounts then l.accounts[user].referrer else None
  }

  function UplinesOf(l: Ledger, payer: User, n: nat): seq<User> {
    Uplines(l.accounts, ReferrerOf(l, payer), {payer}, n)
  }

  /** One upline's share of a fee; nothing for an inactive member or a share below one unit. */
  function Paid(l: Ledger, upline: User, fee: nat, feeEntry: nat, percent: real, level: nat, now: nat): Ledger {
    if upline in l.accounts && Share(fee, percent) > 0 && Active(l.accounts[upline], now)
    then ApplyEntry(l, upline, ReferralReward, RewardOf(feeEntry, level), Share(fee, percent)) else l
  }

  /** Pays the first n uplines of a chain their levels' shares. */
  function PaidAll(l: Ledger, chain: seq<User>, fee: nat, feeEntry: nat, percents: seq<real>, now: nat, n: nat): Ledger
    requires n <= |chain| <= |percents|
  {
    if n == 0 then l
    else Paid(PaidAll(l, chain, fee, feeEntry, percents, now, n - 1), chain[n - 1], fee, feeEntry, percents[n - 1], n, now)
  }

  lemma {:induction false} UplinesLength(accounts: map<User, Account>, current: Option<User>, seen: set<User>, n: nat)
    ensures |Uplines(accounts, current, seen, n)| <= n
    decreases n
  {
    if !(n == 0 || current.None? || current.value in seen || current.value !in accounts) {
      UplinesLength(accounts, accounts[current.value].referrer, seen + {current.value}, n - 1);
    }
  }

  function Distributed(l: Ledger, payer: User, fee: nat, feeEntry: nat, percents: seq<real>, now: nat): Ledger {
    var chain := UplinesOf(l, payer, |percents|);
    UplinesLength(l.accounts, ReferrerOf(l, payer), {payer}, |percents|);
    PaidAll(l, chain, fee, feeEntry, percents, now, |chain|)
  }

  /** Posts a fee and, unless it was already there, sends its rewards up the chain. */
  function Charged(l: Ledger, user: User, kind: Kind, reference: Reference, fee: nat, percents: seq<real>, now: nat): Ledger
    requires user in l.accounts
  {
    if Recorded(l.entries, user, kind, reference) then l
    else Distributed(Posted(l, user, kind, reference, 0 - fee), user, fee, |l.entries|, percents, now)
  }

  /* ---- Operations ---- */

  /** A new account never refers to itself; one that would refer to a missing account is refused. */
  function Ensured(l: Ledger, user: User, referrer: Option<User>): Ledger {
    if user in l.accounts || ReferrerMissing(l, user, referrer) then l
    else l.(accounts := l.accounts[user := Account(0, None, if referrer == Some(user) then None else referrer)])
  }

  /** The foreign key to the referrer's account is violated. */
  predicate ReferrerMissing(l: Ledger, user: User, referrer: Option<User>) {
    referrer.Some? && referrer.value != user && referrer.value !in l.accounts
  }

  function Extended(l: Ledger, user: User, days: nat, now: nat): Ledger
    requires user in l.accounts
  {
    var a := l.accounts[user];
    var from := if a.membershipExpiresAt.Some? && a.membershipExpiresAt.value > now then a.membershipExpiresAt.value else now;
    l.(accounts := l.accounts[user := a.(membershipExpiresAt := Some(from + days * DAY_MS))])
  }

  /** The fee is posted first, the membership extended, then the rewards distributed: by then the payer is a member. */
  function ActivateMembership(l: Ledger, s: SettingsOk, user: User, nonce: nat, now: nat): Ledger {
    var ensured := Ensured(l, user, None);
    if ensured.accounts[user].balance < s.membershipFee then ensured
    else if Recorded(ensured.entries, user, MembershipFee, Random(nonce)) then Extended(ensured, user, s.membershipDays, now)
    else
      var posted := Extended(Posted(ensured, user, MembershipFee, Random(nonce), 0 - s.membershipFee), user, s.membershipDays, now);
      Distributed(posted, user, s.membershipFee, |ensured.entries|, s.referralPercents, now)
  }

  /** A position as the settlement reads it: its owner, whether it is closed and liable, and its total result. */
  datatype ClosedPosition = ClosedPosition(id: nat, owner: User, liable: bool, profit: int)

  function ProfitFeeOf(s: SettingsOk, p: ClosedPosition): (fee: int) {
    if p.profit > 0 then Share(p.profit, s.profitFeePercent) else 0
  }

  function SettleProfitFee(l: Ledger, s: SettingsOk, p: ClosedPosition, now: nat): Ledger {
    if !p.liable || p.id in l.settled then l
    else
      var claimed := l.(settled := l.settled + {p.id});
      if ProfitFeeOf(s, p) <= 0 then claimed
      else Charged(Ensured(claimed, p.owner, None), p.owner, ProfitFee, OfPosition(p.id), ProfitFeeOf(s, p), s.referralPercents, now)
  }

  /** A confirmed transfer, credited once to the account that owns the address; `user` is None when no account does. */
  function CreditDeposit(l: Ledger, user: Option<User>, transfer: nat, amountQuote: real): Ledger {
    if user.None? || user.value !in l.accounts || FloorQuote(amountQuote) <= 0 || transfer in l.transfers then l
    else ApplyEntry(l.(transfers := l.transfers + {transfer}), user.value, Deposit, OfTransfer(transfer), FloorQuote(amountQuote))
  }

  function AdminAdjust(l: Ledger, user: User, amountQuote: real, nonce: nat): Ledger {
    if amountQuote == 0.0 then l
    else
      var ensured := Ensured(l, user, None);
      ApplyEntry(ensured, user, AdminAdjustment, Random(nonce), FloorQuote(amountQuote))
  }

  datatype Operation =
    | Register(user: User, referrer: Option<User>)
    | Membership(settings: SettingsOk, user: User, nonce: nat, now: nat)
    | Settlement(settings: SettingsOk, position: ClosedPosition, now: nat)
    | Transfer(account: Option<User>, transfer: nat, amountQuote: real)
    | Adjustment(user: User, amountQuote: real, nonce: nat)

  function Perform(l: Ledger, op: Operation): Ledger {
    match op
    case Register(user, referrer) => Ensured(l, user, referrer)
    case Membership(settings, user, nonce, now) => ActivateMembership(l, settings, user, nonce, now)
    case Settlement(settings, position, now) => SettleProfitFee(l, settings, position, now)
    case Transfer(account, transfer, amountQuote) => CreditDeposit(l, account, transfer, amountQuote)
    case Adjustment(user, amountQuote, nonce) => AdminAdjust(l, user, amountQuote, nonce)
  }

  const EMPTY_LEDGER: Ledger := Ledger(map[], [], {}, {})

  function Run(l: Ledger, operations: seq<Operation>): Ledger {
    if operations == [] then l else Perform(Run(l, operations[..|operations| - 1]), operations[|operations| - 1])
  }
}
