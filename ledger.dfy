/** The request-level ledger operations of investments/views.py (deposit,
    investment creation, upgrade, cancellation, withdrawal) and
    Investment.upgrade_to_plan (investments/models.py), as methods on one
    store holding wallets, profiles, the append-only entry log and the
    investment rows. Each request runs sequentially and is all-or-nothing:
    a request that fails leaves the store as it found it. The blockchain
    gateway is an oracle whose answer is a parameter. */
module Ledger {
  import opened Types
  import opened Accrual
  import opened Validation
  import opened Units

  /** The share of a deposit paid to the depositor's referrer. */
  const ReferralRate: real := 0.05

  // ---------------------------------------------------------------------
  // Gateway answers and responses
  // ---------------------------------------------------------------------

  /** verify_transaction: a decoded transfer of `units` (10^-6 USDT) to
      `toAddress`, or a refusal (valid = false, or the lookup raised). */
  datatype Verification = Verified(units: nat, toAddress: string) | NotVerified(error: string)

  /** send_usdt: the hash of a confirmed transfer, or the error it raised. */
  datatype Transfer = Sent(txHash: string) | SendFailed(error: string)

  datatype DepositResponse =
    | Deposited(entry: nat)
    | WalletNotFound
    | MissingTxHash
    | VerificationFailed(error: string)
    | InvalidDestination
    | ReferrerWalletMissing

  datatype CreateResponse =
    | Created(id: nat)
    | CreateInvalid(check: InvestmentCheck)
    | AlreadyActive
    | UnderMinimum
    | OverMaximum
    | CreateNoWallet
    | CreateInsufficient

  datatype UpgradeResponse =
    | UpgradedInPlace(id: nat)
    | UpgradeNotFound
    | UpgradeInvalid(check: UpgradeCheck)
    | UpgradeNoWallet

  datatype CancelResponse = CancelDone | CancelNotFound | CancelNotActive

  datatype WithdrawResponse =
    | Withdrawn(txHash: string, entry: nat)
    | WithdrawInvalid(amountCheck: AmountCheck)
    | WithdrawBadAddress(addressCheck: AddressCheck)
    | NoActiveInvestment
    | WithdrawRefused(check: WithdrawCheck)
    | TransferError(error: string)
    | SentNotRecorded(txHash: string)

  /** The outcome of upgrade_to_plan: the new row, or what it raised. */
  datatype PlanUpgradeResponse = UpgradedTo(id: nat) | LevelNotRaised | NegativeAdditional | ActiveConflict

  /** The transfer a withdrawal asks send_usdt to make: the destination
      address and the amount in base units. */
  datatype Payout = Payout(toAddress: string, units: nat)

  /** The transfer send_usdt builds for a non-negative amount: the amount
      truncated to whole base units, to the given address. It never pays
      more than asked and is less than one base unit short. */
  function PayoutOf(toAddress: string, amount: real): (p: Payout)
    requires amount >= 0.0
    ensures p.toAddress == toAddress
    ensures FromBaseUnits(p.units) <= amount
    ensures amount - FromBaseUnits(p.units) < 1.0 / UnitsPerUsdt as real
  {
    SendNeverOverpays(amount);
    Payout(toAddress, ToBaseUnits(amount))
  }

  /** Whether a withdrawal response comes after a call to send_usdt. */
  predicate CalledGateway(r: WithdrawResponse) {
    r.Withdrawn? || r.TransferError? || r.SentNotRecorded?
  }

  // ---------------------------------------------------------------------
  // Helpers on the stored values
  // ---------------------------------------------------------------------

  function LowerChar(c: char): char {
    if 'A' <= c <= 'Z' then (c as int + 32) as char else c
  }

  function Lower(s: string): string {
    seq(|s|, i requires 0 <= i < |s| => LowerChar(s[i]))
  }

  /** Addresses compare case-insensitively (ASCII). */
  predicate SameAddress(a: string, b: string) {
    Lower(a) == Lower(b)
  }

  /** Lower-casing leaves no ASCII capital and is idempotent, so an address
      matches its own lower-case form; addresses of different lengths never
      match. */
  lemma SameAddressIgnoresCase(a: string, b: string)
    ensures |Lower(a)| == |a|
    ensures forall i :: 0 <= i < |a| ==> !('A' <= Lower(a)[i] <= 'Z')
    ensures SameAddress(a, Lower(a))
    ensures |a| != |b| ==> !SameAddress(a, b)
  {
    assert Lower(Lower(a)) == Lower(a);
  }

  function WalletOf(wallets: map<UserId, Wallet>, user: UserId): Option<Wallet> {
    if user in wallets then Some(wallets[user]) else None
  }

  function Credit(wallets: map<UserId, Wallet>, user: UserId, amount: real): map<UserId, Wallet>
    requires user in wallets
  {
    wallets[user := wallets[user].(balance := wallets[user].balance + amount)]
  }

  function Debit(wallets: map<UserId, Wallet>, user: UserId, amount: real): map<UserId, Wallet>
    requires user in wallets
  {
    wallets[user := wallets[user].(balance := wallets[user].balance - amount)]
  }

  /** The depositor's referrer; none when the user has no profile. */
  function ReferrerOf(profiles: map<UserId, Profile>, user: UserId): Option<UserId> {
    if user in profiles then profiles[user].referredBy else None
  }

  /** A maximum of zero is falsy and imposes no limit. */
  predicate ExceedsMaximum(plan: Plan, amount: real) {
    plan.maximumInvestment.Some? && plan.maximumInvestment.value != 0.0 &&
    amount > plan.maximumInvestment.value
  }

  function AddReferralEarnings(profiles: map<UserId, Profile>, user: UserId, bonus: real): map<UserId, Profile>
    requires user in profiles
  {
    profiles[user := profiles[user].(totalReferralEarnings := profiles[user].totalReferralEarnings + bonus)]
  }

  /** The checks of the withdraw view before the gateway is called: the
      serializer's amount and wallet_address fields, then the user's ACTIVE
      investment, then can_withdraw. A request that passes goes on with the
      row to debit and the trimmed address to send to. */
  datatype Gate = Proceed(index: nat, address: string) | Stop(response: WithdrawResponse)

  function WithdrawGate(invs: seq<Investment>, user: UserId, amount: real, destination: string, now: Timestamp): (g: Gate)
    ensures amount <= 0.0 ==> g == Stop(WithdrawInvalid(ValidateWithdrawAmount(amount)))
    ensures amount > 0.0 && ValidateWalletAddress(destination) != AddressOk ==>
              g == Stop(WithdrawBadAddress(ValidateWalletAddress(destination)))
    ensures amount > 0.0 && ValidateWalletAddress(destination) == AddressOk && !HasActive(invs, user) ==>
              g == Stop(NoActiveInvestment)
    ensures g.Proceed? <==>
              amount > 0.0 && ValidateWalletAddress(destination) == AddressOk &&
              FindActive(invs, user).Some? &&
              CanWithdraw(invs[FindActive(invs, user).value], amount, now) == Allowed
    ensures g.Proceed? ==>
              g.index < |invs| && IsActiveOf(invs[g.index], user) &&
              CanWithdraw(invs[g.index], amount, now) == Allowed &&
              g.address == Strip(destination) && g.address != [] && |g.address| <= MaxAddressLength
    ensures g.Stop? ==> !CalledGateway(g.response)
  {
    var amountCheck := ValidateWithdrawAmount(amount);
    var addressCheck := ValidateWalletAddress(destination);
    if amountCheck != AmountOk then Stop(WithdrawInvalid(amountCheck))
    else if addressCheck != AddressOk then Stop(WithdrawBadAddress(addressCheck))
    else match FindActive(invs, user)
      case None => Stop(NoActiveInvestment)
      case Some(i) =>
        var check := CanWithdraw(invs[i], amount, now);
        if check != Allowed then Stop(WithdrawRefused(check)) else Proceed(i, Strip(destination))
  }

  /** The row after an in-place upgrade: the new plan, the principal grown
      by the additional amount, the current value set to that principal plus
      the earnings accrued so far, and the accrual restarted now; then
      saved. */
  function UpgradedRow(prev: Investment, newPlan: Plan, additional: real, now: Timestamp): Investment {
    var principal := prev.amountInvested + additional;
    Saved(prev.(plan := newPlan, amountInvested := principal,
                currentValue := principal + CalculateEarnings(prev, now), startDate := Some(now)))
  }

  /** An in-place upgrade keeps the row's owner, status and links, grows the
      principal by exactly the additional amount, keeps the earnings accrued
      so far in the current value (unless that sum is zero), and restarts the
      accrual: the row earns nothing at the instant of the upgrade. */
  lemma UpgradedRowRestarts(prev: Investment, newPlan: Plan, additional: real, now: Timestamp)
    ensures var row := UpgradedRow(prev, newPlan, additional, now);
            row.user == prev.user && row.status == prev.status &&
            row.upgradedTo == prev.upgradedTo && row.fundingEntry == prev.fundingEntry &&
            row.totalWithdrawn == prev.totalWithdrawn &&
            row.plan == newPlan && row.amountInvested == prev.amountInvested + additional &&
            row.startDate == Some(now) &&
            (prev.amountInvested + additional + CalculateEarnings(prev, now) != 0.0 ==>
               row.currentValue == prev.amountInvested + additional + CalculateEarnings(prev, now)) &&
            CalculateEarnings(row, now) == 0.0
  {
    var row := UpgradedRow(prev, newPlan, additional, now);
    if row.status == Active {
      EarningsAtDay(row, 0, 0);
    }
  }

  /** The in-place upgrade restarts the accrual but keeps total withdrawn:
      once anything was withdrawn, the upgraded row has withdrawn more than
      it has earned, and nothing is available until the new period's
      earnings pass the old withdrawals. */
  lemma UpgradeKeepsOldWithdrawals(prev: Investment, newPlan: Plan, additional: real, now: Timestamp, later: Timestamp)
    requires prev.totalWithdrawn > 0.0
    ensures var row := UpgradedRow(prev, newPlan, additional, now);
            row.totalWithdrawn > CalculateEarnings(row, now) &&
            AvailableEarnings(row, now) == 0.0 &&
            (CalculateEarnings(row, later) <= prev.totalWithdrawn ==> AvailableEarnings(row, later) == 0.0)
  {
    UpgradedRowRestarts(prev, newPlan, additional, now);
  }

  /** Once the fields are valid and the user's one ACTIVE row is known,
      the gate's answer is can_withdraw's on that row. */
  lemma GateAtActiveRow(invs: seq<Investment>, user: UserId, amount: real, destination: string, now: Timestamp, i: nat)
    requires amount > 0.0 && ValidateWalletAddress(destination) == AddressOk
    requires UniqueActive(invs) && i < |invs| && IsActiveOf(invs[i], user)
    ensures WithdrawGate(invs, user, amount, destination, now)
            == if CanWithdraw(invs[i], amount, now) == Allowed then Proceed(i, Strip(destination))
               else Stop(WithdrawRefused(CanWithdraw(invs[i], amount, now)))
  {
    FindActiveIsTheActiveRow(invs, user, i);
  }

  // ---------------------------------------------------------------------
  // The store's invariant, piece by piece
  // ---------------------------------------------------------------------

  ghost predicate BalancesNonNegative(wallets: map<UserId, Wallet>) {
    forall u :: u in wallets ==> wallets[u].balance >= 0.0
  }

  ghost predicate ReferrersHaveProfiles(profiles: map<UserId, Profile>) {
    forall u :: u in profiles && profiles[u].referredBy.Some? ==> profiles[u].referredBy.value in profiles
  }

  ghost predicate RowReferencesResolve(invs: seq<Investment>, entryCount: nat) {
    forall i :: 0 <= i < |invs| ==>
      (invs[i].upgradedTo.Some? ==> invs[i].upgradedTo.value < |invs|) &&
      (invs[i].fundingEntry.Some? ==> invs[i].fundingEntry.value < entryCount)
  }

  lemma CreditKeepsBalances(wallets: map<UserId, Wallet>, user: UserId, amount: real)
    requires BalancesNonNegative(wallets) && user in wallets && amount >= 0.0
    ensures BalancesNonNegative(Credit(wallets, user, amount))
  {
  }

  lemma DebitKeepsBalances(wallets: map<UserId, Wallet>, user: UserId, amount: real)
    requires BalancesNonNegative(wallets) && user in wallets && wallets[user].balance >= amount
    ensures BalancesNonNegative(Debit(wallets, user, amount))
  {
  }

  lemma ReferralKeepsProfiles(profiles: map<UserId, Profile>, user: UserId, bonus: real)
    requires ReferrersHaveProfiles(profiles) && user in profiles
    ensures ReferrersHaveProfiles(AddReferralEarnings(profiles, user, bonus))
  {
  }

  lemma UpdateKeepsReferences(invs: seq<Investment>, i: nat, row: Investment, n: nat, m: nat)
    requires RowReferencesResolve(invs, n) && n <= m && i < |invs|
    requires row.upgradedTo == invs[i].upgradedTo && row.fundingEntry == invs[i].fundingEntry
    ensures RowReferencesResolve(invs[i := row], m)
  {
  }

  lemma MoreEntriesKeepReferences(invs: seq<Investment>, n: nat, m: nat)
    requires RowReferencesResolve(invs, n) && n <= m
    ensures RowReferencesResolve(invs, m)
  {
  }

  // ---------------------------------------------------------------------
  // The store
  // ---------------------------------------------------------------------

  class Store {
    var wallets: map<UserId, Wallet>
    var profiles: map<UserId, Profile>
    var entries: seq<Entry>
    var investments: seq<Investment>
    const companyAddress: string

    /** Balances are never negative, referrers have profiles, at most one
        investment per user is ACTIVE, and row references resolve. */
    ghost predicate Valid()
      reads this
    {
      BalancesNonNegative(wallets) &&
      ReferrersHaveProfiles(profiles) &&
      UniqueActive(investments) &&
      RowReferencesResolve(investments, |entries|)
    }

    constructor (companyAddress: string, wallets: map<UserId, Wallet>, profiles: map<UserId, Profile>)
      requires BalancesNonNegative(wallets)
      requires ReferrersHaveProfiles(profiles)
      ensures Valid()
      ensures this.companyAddress == companyAddress
      ensures this.wallets == wallets && this.profiles == profiles
      ensures entries == [] && investments == []
    {
      this.companyAddress := companyAddress;
      this.wallets := wallets;
      this.profiles := profiles;
      entries := [];
      investments := [];
    }

    /** USDTTransactionViewSet.deposit */
    method ProcessDeposit(user: UserId, txHash: string, verification: Verification) returns (r: DepositResponse)
      requires Valid()
      modifies this
      ensures Valid()
      ensures investments == old(investments)
      ensures r.Deposited? <==>
                user in old(wallets) && txHash != "" && verification.Verified? &&
                SameAddress(verification.toAddress, companyAddress) &&
                (ReferrerOf(old(profiles), user).Some? ==> ReferrerOf(old(profiles), user).value in old(wallets))
      ensures user !in old(wallets) ==> r == WalletNotFound
      ensures user in old(wallets) && txHash == "" ==> r == MissingTxHash
      ensures user in old(wallets) && txHash != "" && verification.NotVerified? ==>
                r == VerificationFailed(verification.error)
      ensures (user in old(wallets) && txHash != "" && verification.Verified? &&
               !SameAddress(verification.toAddress, companyAddress)) ==> r == InvalidDestination
      ensures (user in old(wallets) && txHash != "" && verification.Verified? &&
               SameAddress(verification.toAddress, companyAddress) &&
               ReferrerOf(old(profiles), user).Some? && ReferrerOf(old(profiles), user).value !in old(wallets)) ==>
                r == ReferrerWalletMissing
      ensures !r.Deposited? ==>
                wallets == old(wallets) && profiles == old(profiles) && entries == old(entries)
      ensures r.Deposited? ==>
                var amount := FromBaseUnits(verification.units);
                var deposit := Entry(user, Deposit, amount, TxCompleted, Some(txHash));
                var credited := Credit(old(wallets), user, amount);
                r.entry == |old(entries)| &&
                match ReferrerOf(old(profiles), user)
                case None =>
                  entries == old(entries) + [deposit] && wallets == credited && profiles == old(profiles)
                case Some(ref) =>
                  var bonus := amount * ReferralRate;
                  entries == old(entries) + [deposit, Entry(ref, ReferralBonus, bonus, TxCompleted, None)] &&
                  wallets == Credit(credited, ref, bonus) &&
                  profiles == AddReferralEarnings(old(profiles), ref, bonus)
      ensures r.Deposited? ==>
                TotalDeposits(entries, user) == old(TotalDeposits(entries, user)) + FromBaseUnits(verification.units)
    {
      if user !in wallets {
        return WalletNotFound;
      }
      if txHash == "" {
        return MissingTxHash;
      }
      match verification {
        case NotVerified(error) =>
          return VerificationFailed(error);
        case Verified(units, toAddress) =>
          if !SameAddress(toAddress, companyAddress) {
            return InvalidDestination;
          }
          var amount := FromBaseUnits(units);
          var referrer := ReferrerOf(profiles, user);
          if referrer.Some? && referrer.value !in wallets {
            // The referrer's wallet lookup raises inside the atomic block,
            // which rolls the whole deposit back.
            return ReferrerWalletMissing;
          }
          r := Deposited(|entries|);
          CreditDeposit(user, amount, txHash);
          if referrer.Some? {
            assert referrer.value in profiles;
            PayReferralBonus(referrer.value, amount * ReferralRate, user);
          }
      }
    }

    /** The depositor's side of a verified deposit: a COMPLETED DEPOSIT
        entry carrying the hash, and the amount credited to the wallet. */
    method CreditDeposit(user: UserId, amount: real, txHash: string)
      requires Valid()
      requires user in wallets && amount >= 0.0
      modifies this
      ensures Valid()
      ensures investments == old(investments) && profiles == old(profiles)
      ensures entries == old(entries) + [Entry(user, Deposit, amount, TxCompleted, Some(txHash))]
      ensures wallets == Credit(old(wallets), user, amount)
      ensures TotalDeposits(entries, user) == old(TotalDeposits(entries, user)) + amount
    {
      var deposit := Entry(user, Deposit, amount, TxCompleted, Some(txHash));
      TotalDepositsAppend(entries, deposit, user);
      CreditKeepsBalances(wallets, user, amount);
      MoreEntriesKeepReferences(investments, |entries|, |entries| + 1);
      entries := entries + [deposit];
      wallets := Credit(wallets, user, amount);
    }

    /** The referrer's side of a deposit: a COMPLETED REFERRAL_BONUS entry,
        the bonus credited to the referrer's wallet and added to the
        referrer's total referral earnings. The depositor's deposit total is
        unchanged. */
    method PayReferralBonus(referrer: UserId, bonus: real, depositor: UserId)
      requires Valid()
      requires referrer in wallets && referrer in profiles && bonus >= 0.0
      modifies this
      ensures Valid()
      ensures investments == old(investments)
      ensures entries == old(entries) + [Entry(referrer, ReferralBonus, bonus, TxCompleted, None)]
      ensures wallets == Credit(old(wallets), referrer, bonus)
      ensures profiles == AddReferralEarnings(old(profiles), referrer, bonus)
      ensures TotalDeposits(entries, depositor) == old(TotalDeposits(entries, depositor))
    {
      var bonusEntry := Entry(referrer, ReferralBonus, bonus, TxCompleted, None);
      TotalDepositsAppend(entries, bonusEntry, depositor);
      CreditKeepsBalances(wallets, referrer, bonus);
      MoreEntriesKeepReferences(investments, |entries|, |entries| + 1);
      ReferralKeepsProfiles(profiles, referrer, bonus);
      entries := entries + [bonusEntry];
      wallets := Credit(wallets, referrer, bonus);
      profiles := AddReferralEarnings(profiles, referrer, bonus);
    }

    /** InvestmentViewSet.perform_create, after InvestmentSerializer has
        validated the request. */
    method CreateInvestment(user: UserId, plan: Plan, amount: real, currency: Option<string>, now: Timestamp)
      returns (r: CreateResponse)
      requires Valid()
      modifies this
      ensures Valid()
      ensures profiles == old(profiles)
      ensures r.CreateInvalid? <==>
                ValidateInvestment(plan, amount, currency, WalletOf(old(wallets), user)) != InvestmentOk
      ensures r.CreateInvalid? ==>
                r.check == ValidateInvestment(plan, amount, currency, WalletOf(old(wallets), user))
      ensures r.Created? <==>
                ValidateInvestment(plan, amount, currency, WalletOf(old(wallets), user)) == InvestmentOk &&
                !HasActive(old(investments), user) &&
                amount >= plan.minimumInvestment && !ExceedsMaximum(plan, amount) &&
                user in old(wallets) && old(wallets)[user].balance >= amount
      ensures var valid := ValidateInvestment(plan, amount, currency, WalletOf(old(wallets), user)) == InvestmentOk;
              (valid && HasActive(old(investments), user) ==> r == AlreadyActive) &&
              (valid && !HasActive(old(investments), user) && amount < plan.minimumInvestment ==> r == UnderMinimum) &&
              ((valid && !HasActive(old(investments), user) && amount >= plan.minimumInvestment &&
                ExceedsMaximum(plan, amount)) ==> r == OverMaximum) &&
              ((valid && !HasActive(old(investments), user) && amount >= plan.minimumInvestment &&
                !ExceedsMaximum(plan, amount) && user !in old(wallets)) ==> r == CreateNoWallet) &&
              ((valid && !HasActive(old(investments), user) && amount >= plan.minimumInvestment &&
                !ExceedsMaximum(plan, amount) && user in old(wallets) &&
                old(wallets)[user].balance < amount) ==> r == CreateInsufficient)
      ensures !r.Created? ==>
                wallets == old(wallets) && entries == old(entries) && investments == old(investments)
      ensures r.Created? ==>
                r.id == |old(investments)| &&
                entries == old(entries) + [Entry(user, Invest, amount, TxCompleted, None)] &&
                wallets == Debit(old(wallets), user, amount) &&
                investments == old(investments) +
                  [Investment(user, plan, amount, currency.GetOr("USDT"), amount, 0.0, Active,
                              Some(now), None, None, Some(|old(entries)|))]
      ensures r.Created? ==>
                TotalInvested(investments, user) == old(TotalInvested(investments, user)) + amount
    {
      var check := ValidateInvestment(plan, amount, currency, WalletOf(wallets, user));
      if check != InvestmentOk {
        return CreateInvalid(check);
      }
      if FindActive(investments, user).Some? {
        return AlreadyActive;
      }
      if amount < plan.minimumInvestment {
        return UnderMinimum;
      }
      if ExceedsMaximum(plan, amount) {
        return OverMaximum;
      }
      if user !in wallets {
        return CreateNoWallet;
      }
      if wallets[user].balance < amount {
        return CreateInsufficient;
      }
      var id := OpenInvestment(user, plan, amount, currency.GetOr("USDT"), now);
      r := Created(id);
    }

    /** The writes of a validated investment request: the INVESTMENT entry,
        the debit, and the new ACTIVE row funded by that entry. */
    method OpenInvestment(user: UserId, plan: Plan, amount: real, currency: string, now: Timestamp)
      returns (id: nat)
      requires Valid()
      requires user in wallets && wallets[user].balance >= amount
      requires !HasActive(investments, user)
      modifies this
      ensures Valid()
      ensures profiles == old(profiles)
      ensures id == |old(investments)|
      ensures entries == old(entries) + [Entry(user, Invest, amount, TxCompleted, None)]
      ensures wallets == Debit(old(wallets), user, amount)
      ensures investments == old(investments) +
                [Investment(user, plan, amount, currency, amount, 0.0, Active,
                            Some(now), None, None, Some(|old(entries)|))]
      ensures TotalInvested(investments, user) == old(TotalInvested(investments, user)) + amount
    {
      var funding := |entries|;
      var row := Saved(Investment(user, plan, amount, currency, amount, 0.0, Active,
                                  Some(now), None, None, Some(funding)));
      SumOfAppend(investments, row, user, AmountInvestedOf);
      AppendActiveKeepsUnique(investments, row);
      DebitKeepsBalances(wallets, user, amount);
      entries := entries + [Entry(user, Invest, amount, TxCompleted, None)];
      wallets := Debit(wallets, user, amount);
      id := |investments|;
      investments := investments + [row];
    }

    /** InvestmentViewSet.upgrade, after InvestmentUpgradeSerializer has
        validated the request: the same row takes the new plan, its
        principal grows by the additional amount, its current value becomes
        that principal plus the earnings accrued so far, and its accrual
        restarts now. */
    method UpgradeInvestment(user: UserId, id: nat, newPlan: Plan, additional: real, now: Timestamp)
      returns (r: UpgradeResponse)
      requires Valid()
      modifies this
      ensures Valid()
      ensures profiles == old(profiles)
      ensures r == UpgradeNotFound <==> !(id < |old(investments)| && old(investments)[id].user == user)
      ensures r.UpgradeInvalid? <==>
                id < |old(investments)| && old(investments)[id].user == user &&
                ValidateUpgrade(old(investments)[id], newPlan, additional, WalletOf(old(wallets), user)) != UpgradeOk
      ensures r.UpgradeInvalid? ==>
                r.check == ValidateUpgrade(old(investments)[id], newPlan, additional, WalletOf(old(wallets), user))
      ensures r == UpgradeNoWallet <==>
                id < |old(investments)| && old(investments)[id].user == user &&
                ValidateUpgrade(old(investments)[id], newPlan, additional, WalletOf(old(wallets), user)) == UpgradeOk &&
                user !in old(wallets)
      ensures r.UpgradedInPlace? <==>
                id < |old(investments)| && old(investments)[id].user == user &&
                ValidateUpgrade(old(investments)[id], newPlan, additional, WalletOf(old(wallets), user)) == UpgradeOk &&
                user in old(wallets)
      ensures !r.UpgradedInPlace? ==>
                wallets == old(wallets) && entries == old(entries) && investments == old(investments)
      ensures r.UpgradedInPlace? ==>
                var prev := old(investments)[id];
                var principal := prev.amountInvested + additional;
                r.id == id &&
                investments == old(investments)[id := UpgradedRow(prev, newPlan, additional, now)] &&
                investments[id].amountInvested == principal &&
                (additional > 0.0 ==>
                   entries == old(entries) + [Entry(user, InvestmentUpgrade, additional, TxCompleted, None)] &&
                   wallets == Debit(old(wallets), user, additional)) &&
                (additional <= 0.0 ==> entries == old(entries) && wallets == old(wallets))
      ensures r.UpgradedInPlace? ==>
                CalculateEarnings(investments[id], now) == 0.0 &&
                TotalInvested(investments, user) == old(TotalInvested(investments, user)) + additional
    {
      if !(id < |investments| && investments[id].user == user) {
        return UpgradeNotFound;
      }
      var inv := investments[id];
      var check := ValidateUpgrade(inv, newPlan, additional, WalletOf(wallets, user));
      if check != UpgradeOk {
        return UpgradeInvalid(check);
      }
      if user !in wallets {
        return UpgradeNoWallet;
      }
      if additional > 0.0 {
        entries := entries + [Entry(user, InvestmentUpgrade, additional, TxCompleted, None)];
        wallets := Debit(wallets, user, additional);
      }
      var row := UpgradedRow(inv, newPlan, additional, now);
      UpgradedRowRestarts(inv, newPlan, additional, now);
      SumOfUpdate(investments, id, row, user, AmountInvestedOf);
      UpdateSameStatusKeepsUnique(investments, id, row);
      UpdateKeepsReferences(investments, id, row, |old(entries)|, |entries|);
      investments := investments[id := row];
      r := UpgradedInPlace(id);
    }

    /** InvestmentViewSet.cancel: only an ACTIVE row can be cancelled. */
    method CancelInvestment(user: UserId, id: nat) returns (r: CancelResponse)
      requires Valid()
      modifies this
      ensures Valid()
      ensures wallets == old(wallets) && entries == old(entries) && profiles == old(profiles)
      ensures r == CancelNotFound <==> !(id < |old(investments)| && old(investments)[id].user == user)
      ensures r == CancelDone <==>
                id < |old(investments)| && old(investments)[id].user == user &&
                old(investments)[id].status == Active
      ensures r == CancelDone ==>
                investments == old(investments)[id := Saved(old(investments)[id].(status := Cancelled))]
      ensures r != CancelDone ==> investments == old(investments)
    {
      if !(id < |investments| && investments[id].user == user) {
        return CancelNotFound;
      }
      if investments[id].status != Active {
        return CancelNotActive;
      }
      var row := Saved(investments[id].(status := Cancelled));
      DeactivateKeepsUnique(investments, id, row);
      investments := investments[id := row];
      r := CancelDone;
    }

    /** InvestmentViewSet.withdraw as it is meant to work: once the
        transfer is sent, the WITHDRAWAL entry is written to the user's
        wallet and the investment's total withdrawn grows by the amount.
        The wallet balance is not touched. */
    method WithdrawEarnings(user: UserId, amount: real, destination: string, transfer: Transfer, now: Timestamp)
      returns (r: WithdrawResponse, payout: Option<Payout>)
      requires Valid()
      modifies this
      ensures Valid()
      ensures wallets == old(wallets) && profiles == old(profiles)
      ensures payout.Some? <==> CalledGateway(r)
      ensures payout.Some? ==> amount > 0.0 && payout.value == PayoutOf(Strip(destination), amount)
      ensures var g := WithdrawGate(old(investments), user, amount, destination, now);
              (g.Stop? ==> r == g.response) &&
              (g.Proceed? ==> CalledGateway(r)) &&
              (g.Proceed? && transfer.SendFailed? ==> r == TransferError(transfer.error))
      ensures r.Withdrawn? <==>
                WithdrawGate(old(investments), user, amount, destination, now).Proceed? && transfer.Sent? &&
                user in old(wallets)
      ensures r.SentNotRecorded? <==>
                WithdrawGate(old(investments), user, amount, destination, now).Proceed? && transfer.Sent? &&
                user !in old(wallets)
      ensures !r.Withdrawn? ==> entries == old(entries) && investments == old(investments)
      ensures r.Withdrawn? ==>
                var i := WithdrawGate(old(investments), user, amount, destination, now).index;
                var prev := old(investments)[i];
                r == Withdrawn(transfer.txHash, |old(entries)|) &&
                entries == old(entries) + [Entry(user, Withdrawal, amount, TxCompleted, Some(transfer.txHash))] &&
                investments == old(investments)[i := Saved(prev.(totalWithdrawn := prev.totalWithdrawn + amount))] &&
                investments[i].totalWithdrawn <= CalculateEarnings(investments[i], now) &&
                AvailableEarnings(investments[i], now) == AvailableEarnings(prev, now) - amount &&
                TotalWithdrawn(investments, user) == old(TotalWithdrawn(investments, user)) + amount
    {
      var gate := WithdrawGate(investments, user, amount, destination, now);
      if gate.Stop? {
        return gate.response, None;
      }
      var i := gate.index;
      payout := Some(PayoutOf(gate.address, amount));
      match transfer {
        case SendFailed(error) =>
          r := TransferError(error);
        case Sent(txHash) =>
          if user !in wallets {
            // Funds have left, but the entry cannot be attached to a wallet.
            return SentNotRecorded(txHash), payout;
          }
          var entry := RecordWithdrawal(i, amount, txHash, now);
          r := Withdrawn(txHash, entry);
      }
    }

    /** The record-keeping step of a withdrawal whose funds were sent: a
        COMPLETED WITHDRAWAL entry carrying the hash, and the amount added
        to the investment's total withdrawn. */
    method RecordWithdrawal(i: nat, amount: real, txHash: string, now: Timestamp) returns (entry: nat)
      requires Valid()
      requires i < |investments| && investments[i].user in wallets
      requires CanWithdraw(investments[i], amount, now) == Allowed
      modifies this
      ensures Valid()
      ensures wallets == old(wallets) && profiles == old(profiles)
      ensures var prev := old(investments)[i];
              entry == |old(entries)| &&
              entries == old(entries) + [Entry(prev.user, Withdrawal, amount, TxCompleted, Some(txHash))] &&
              investments == old(investments)[i := Saved(prev.(totalWithdrawn := prev.totalWithdrawn + amount))]
      ensures var prev := old(investments)[i];
              investments[i].totalWithdrawn <= CalculateEarnings(investments[i], now) &&
              AvailableEarnings(investments[i], now) == AvailableEarnings(prev, now) - amount &&
              TotalWithdrawn(investments, prev.user) == old(TotalWithdrawn(investments, prev.user)) + amount
    {
      var inv := investments[i];
      var recorded := inv.(totalWithdrawn := inv.totalWithdrawn + amount);
      var row := Saved(recorded);
      AllowedWithdrawalWithinEarnings(inv, amount, now);
      SavedKeepsAccrual(recorded, now);
      SumOfUpdate(investments, i, row, inv.user, TotalWithdrawnOf);
      UpdateSameStatusKeepsUnique(investments, i, row);
      UpdateKeepsReferences(investments, i, row, |entries|, |entries| + 1);
      entry := |entries|;
      entries := entries + [Entry(inv.user, Withdrawal, amount, TxCompleted, Some(txHash))];
      investments := investments[i := row];
    }

    /** InvestmentViewSet.withdraw as written: the record step reads
        `user.usdtwallet`, which does not exist (the wallet's related name
        is `usdt_wallet`), so every withdrawal that reaches the gateway
        sends the funds and then fails with nothing recorded. */
    method WithdrawAsWritten(user: UserId, amount: real, destination: string, transfer: Transfer, now: Timestamp)
      returns (r: WithdrawResponse, payout: Option<Payout>)
      ensures var g := WithdrawGate(investments, user, amount, destination, now);
              (g.Stop? ==> r == g.response) &&
              (g.Proceed? && transfer.SendFailed? ==> r == TransferError(transfer.error)) &&
              (g.Proceed? && transfer.Sent? ==> r == SentNotRecorded(transfer.txHash))
      ensures !r.Withdrawn?
      ensures payout.Some? <==> CalledGateway(r)
      ensures payout.Some? ==> amount > 0.0 && payout.value == PayoutOf(Strip(destination), amount)
    {
      var gate := WithdrawGate(investments, user, amount, destination, now);
      if gate.Stop? {
        return gate.response, None;
      }
      payout := Some(PayoutOf(gate.address, amount));
      match transfer {
        case SendFailed(error) => r := TransferError(error);
        case Sent(txHash) => r := SentNotRecorded(txHash);
      }
    }

    /** Investment.upgrade_to_plan: refuses a plan that is not of a higher
        level and a negative additional amount; then creates the successor
        row, which the unique-active constraint refuses while the user has
        an ACTIVE row (this one included); then retires this row. */
    method UpgradeToPlan(id: nat, newPlan: Plan, additional: real, now: Timestamp)
      returns (r: PlanUpgradeResponse)
      requires Valid()
      requires id < |investments|
      modifies this
      ensures Valid()
      ensures wallets == old(wallets) && entries == old(entries) && profiles == old(profiles)
      ensures var prev := old(investments)[id];
              (newPlan.level <= prev.plan.level ==> r == LevelNotRaised) &&
              (newPlan.level > prev.plan.level && additional < 0.0 ==> r == NegativeAdditional) &&
              ((newPlan.level > prev.plan.level && additional >= 0.0 &&
                HasActive(old(investments), prev.user)) ==> r == ActiveConflict) &&
              (prev.status == Active ==> !r.UpgradedTo?) &&
              (r.UpgradedTo? <==>
                 newPlan.level > prev.plan.level && additional >= 0.0 &&
                 !HasActive(old(investments), prev.user))
      ensures !r.UpgradedTo? ==> investments == old(investments)
      ensures r.UpgradedTo? ==>
                var prev := old(investments)[id];
                r.id == |old(investments)| &&
                investments == old(investments)[id := Saved(prev.(
                  status := Upgraded, endDate := Some(now), upgradedTo := Some(r.id)))]
                  + [Successor(prev, newPlan, additional)]
      ensures r.UpgradedTo? ==>
                var prev := old(investments)[id];
                TotalInvested(investments, prev.user)
                == old(TotalInvested(investments, prev.user)) + prev.currentValue + additional
    {
      var inv := investments[id];
      if newPlan.level <= inv.plan.level {
        return LevelNotRaised;
      }
      if additional < 0.0 {
        return NegativeAdditional;
      }
      if FindActive(investments, inv.user).Some? {
        return ActiveConflict;
      }
      var successor := Successor(inv, newPlan, additional);
      var newId := |investments|;
      var retired := Saved(inv.(status := Upgraded, endDate := Some(now), upgradedTo := Some(newId)));
      SumOfUpdate(investments, id, retired, inv.user, AmountInvestedOf);
      SumOfAppend(investments[id := retired], successor, inv.user, AmountInvestedOf);
      DeactivateKeepsUnique(investments, id, retired);
      AppendActiveKeepsUnique(investments[id := retired], successor);
      investments := investments[id := retired] + [successor];
      r := UpgradedTo(newId);
    }
  }

  // ---------------------------------------------------------------------
  // Deposits are not idempotent
  // ---------------------------------------------------------------------

  /** Nothing rejects a transaction hash that was already credited: the
      same verified transfer of 1 USDT, submitted twice, credits the wallet
      twice. */
  method ReplayedDeposit() returns (first: DepositResponse, second: DepositResponse, balance: real)
    ensures first == Deposited(0) && second == Deposited(1)
    ensures balance == 2.0
  {
    var store := new Store("0xC0", map[0 := Wallet("0xa0", 0.0)], map[]);
    var transfer := Verified(1000000, "0xc0");
    assert SameAddress("0xc0", "0xC0");
    first := store.ProcessDeposit(0, "0x01", transfer);
    second := store.ProcessDeposit(0, "0x01", transfer);
    balance := store.wallets[0].balance;
  }

  // ---------------------------------------------------------------------
  // The withdrawal record step, as written and as intended
  // ---------------------------------------------------------------------

  /** The Advanced plan of the initial catalogue: level 2, 0.1 % a day,
      minimum 29. */
  function AdvancedPlan(): Plan {
    Plan("Plan Advanced", 29.0, None, 0.1, 2, true)
  }

  /** One user (id 0) who has invested a 100 USDT balance in the Advanced
      plan at time 0. */
  method InvestedStore() returns (store: Store)
    ensures fresh(store) && store.Valid()
    ensures 0 in store.wallets
    ensures store.investments ==
              [Investment(0, AdvancedPlan(), 100.0, "USDT", 100.0, 0.0, Active, Some(0), None, None, Some(0))]
    ensures |store.entries| == 1
  {
    store := new Store("0xc0", map[0 := Wallet("0xa0", 100.0)], map[]);
    var created := store.CreateInvestment(0, AdvancedPlan(), 100.0, Some("USDT"), 0);
  }

  /** As written, ten days in, 1.0 USDT is available; asking for it twice
      sends 1000000 base units to the same address twice, 2.0 USDT in all,
      and records neither transfer. */
  method RepeatedWithdrawalAsWritten()
    returns (available: real, first: WithdrawResponse, second: WithdrawResponse,
             firstPayout: Option<Payout>, secondPayout: Option<Payout>)
    ensures available == 1.0
    ensures first == SentNotRecorded("0x01") && second == SentNotRecorded("0x02")
    ensures firstPayout == Some(Payout("0xd0", 1000000)) && secondPayout == Some(Payout("0xd0", 1000000))
    ensures FromBaseUnits(firstPayout.value.units) + FromBaseUnits(secondPayout.value.units) == 2.0 * available
  {
    var store := InvestedStore();
    var now := 10 * SecondsPerDay;
    var destination := "0xd0";
    PlainAddressAccepted(destination);
    EarningsAtDay(store.investments[0], 10, 0);
    available := AvailableEarnings(store.investments[0], now);
    GateAtActiveRow(store.investments, 0, 1.0, destination, now, 0);
    first, firstPayout := store.WithdrawAsWritten(0, 1.0, destination, Sent("0x01"), now);
    GateAtActiveRow(store.investments, 0, 1.0, destination, now, 0);
    second, secondPayout := store.WithdrawAsWritten(0, 1.0, destination, Sent("0x02"), now);
    OneUsdtPayout(destination);
  }

  /** As intended, the first request is recorded after sending 1000000
      base units, and the second finds nothing left to withdraw, without
      reaching the gateway. */
  method RepeatedWithdrawalCorrected()
    returns (available: real, first: WithdrawResponse, second: WithdrawResponse,
             firstPayout: Option<Payout>, secondPayout: Option<Payout>)
    ensures available == 1.0
    ensures first == Withdrawn("0x01", 1)
    ensures second == WithdrawRefused(ExceedsAvailable(0.0))
    ensures firstPayout == Some(Payout("0xd0", 1000000)) && secondPayout == None
  {
    var store := InvestedStore();
    var now := 10 * SecondsPerDay;
    var destination := "0xd0";
    PlainAddressAccepted(destination);
    EarningsAtDay(store.investments[0], 10, 0);
    available := AvailableEarnings(store.investments[0], now);
    GateAtActiveRow(store.investments, 0, 1.0, destination, now, 0);
    first, firstPayout := store.WithdrawEarnings(0, 1.0, destination, Sent("0x01"), now);
    GateAtActiveRow(store.investments, 0, 1.0, destination, now, 0);
    second, secondPayout := store.WithdrawEarnings(0, 1.0, destination, Sent("0x02"), now);
    OneUsdtPayout(destination);
  }

  /** Sending 1.0 USDT puts exactly 1000000 base units on chain. */
  lemma OneUsdtPayout(address: string)
    ensures PayoutOf(address, 1.0) == Payout(address, 1000000)
    ensures FromBaseUnits(1000000) == 1.0
  {
    assert 1.0 * UnitsPerUsdt as real == 1000000.0;
  }

  // ---------------------------------------------------------------------
  // The unique-active constraint under the store's row updates
  // ---------------------------------------------------------------------

  /** A new ACTIVE row keeps the constraint when its user has none. */
  lemma AppendActiveKeepsUnique(invs: seq<Investment>, row: Investment)
    requires UniqueActive(invs)
    requires !HasActive(invs, row.user)
    ensures UniqueActive(invs + [row])
  {
    assert forall i :: 0 <= i < |invs| ==> !IsActiveOf(invs[i], row.user);
  }

  /** Replacing a row by one that is not ACTIVE keeps the constraint. */
  lemma DeactivateKeepsUnique(invs: seq<Investment>, i: nat, row: Investment)
    requires UniqueActive(invs)
    requires i < |invs| && row.status != Active
    ensures UniqueActive(invs[i := row])
  {
  }

  /** Replacing a row by one of the same user and status keeps the
      constraint. */
  lemma UpdateSameStatusKeepsUnique(invs: seq<Investment>, i: nat, row: Investment)
    requires UniqueActive(invs)
    requires i < |invs| && row.status == invs[i].status && row.user == invs[i].user
    ensures UniqueActive(invs[i := row])
  {
    var s := invs[i := row];
    forall a, b | 0 <= a < |s| && 0 <= b < |s| && s[a].status == Active && s[b].status == Active && s[a].user == s[b].user
      ensures a == b
    {
      assert invs[a].status == Active && invs[b].status == Active && invs[a].user == invs[b].user;
    }
  }
}
