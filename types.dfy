/** Data shapes of the investments app: plans, investments, wallets,
    profiles and ledger entries (investments/models.py). Decimal fields are
    `real`; timestamps are whole seconds. */
module Types {

  datatype Option<T> = None | Some(value: T) {
    function GetOr(default: T): T {
      match this
      case Some(v) => v
      case None => default
    }
  }

  /** A user is identified by its primary key; wallets and profiles are 1:1
      with users, so they are keyed by the same id. */
  type UserId = nat

  /** Seconds since the epoch. */
  type Timestamp = int

  /** InvestmentPlan: a catalogue entry. `dailyReturn` is a percentage
      (0.05 means 0.05 % per day); `level` orders plans for upgrades. */
  datatype Plan = Plan(
    name: string,
    minimumInvestment: real,
    maximumInvestment: Option<real>,
    dailyReturn: real,
    level: int,
    isActive: bool)

  /** Investment.status. `Upgraded` is written by upgrade_to_plan although it
      is not among the field's declared choices. */
  datatype Status = Pending | Active | Completed | Cancelled | Upgraded

  /** One Investment row. `upgradedTo` and `fundingEntry` are row indices
      into the store's investment and entry sequences. */
  datatype Investment = Investment(
    user: UserId,
    plan: Plan,
    amountInvested: real,
    currency: string,
    currentValue: real,
    totalWithdrawn: real,
    status: Status,
    startDate: Option<Timestamp>,
    endDate: Option<Timestamp>,
    upgradedTo: Option<nat>,
    fundingEntry: Option<nat>)

  /** USDTWallet: the custodial address and the internal balance. */
  datatype Wallet = Wallet(address: string, balance: real)

  /** UserProfile: the referral code, the referrer (by user id) and the
      running total of referral commissions earned. */
  datatype Profile = Profile(
    referralCode: string,
    referredBy: Option<UserId>,
    totalReferralEarnings: real)

  /** USDTTransaction.transaction_type */
  datatype EntryType = Deposit | Invest | Withdrawal | Earnings | ReferralBonus | InvestmentUpgrade

  /** USDTTransaction.status */
  datatype TxStatus = TxPending | TxCompleted | TxFailed

  /** One USDTTransaction row; `wallet` names the owning user's wallet. */
  datatype Entry = Entry(
    wallet: UserId,
    kind: EntryType,
    amount: real,
    status: TxStatus,
    txHash: Option<string>)
}
