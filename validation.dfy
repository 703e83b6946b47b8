/** The request validators and the aggregate figures of
    investments/serializers.py. */
module Validation {
  import opened Types
  import opened Accrual

  // ---------------------------------------------------------------------
  // Validators
  // ---------------------------------------------------------------------

  /** InvestmentUpgradeSerializer.validate: refusals in the order tried. */
  datatype UpgradeCheck = UpgradeOk | LevelNotHigher | BelowNewMinimum(total: real) | NoWallet | InsufficientForAdditional

  function ValidateUpgrade(current: Investment, newPlan: Plan, additional: real, wallet: Option<Wallet>): (r: UpgradeCheck)
    ensures r == UpgradeOk <==>
              newPlan.level > current.plan.level &&
              current.currentValue + additional >= newPlan.minimumInvestment &&
              (additional > 0.0 ==> wallet.Some? && wallet.value.balance >= additional)
    ensures newPlan.level <= current.plan.level ==> r == LevelNotHigher
    ensures (newPlan.level > current.plan.level &&
             current.currentValue + additional < newPlan.minimumInvestment) ==>
              r == BelowNewMinimum(current.currentValue + additional)
    ensures (newPlan.level > current.plan.level &&
             current.currentValue + additional >= newPlan.minimumInvestment &&
             additional > 0.0 && wallet.None?) ==> r == NoWallet
    ensures (newPlan.level > current.plan.level &&
             current.currentValue + additional >= newPlan.minimumInvestment &&
             additional > 0.0 && wallet.Some? && wallet.value.balance < additional) ==>
              r == InsufficientForAdditional
    ensures r.BelowNewMinimum? ==>
              newPlan.level > current.plan.level &&
              r.total == current.currentValue + additional && r.total < newPlan.minimumInvestment
    ensures r == UpgradeOk && additional > 0.0 ==> wallet.value.balance - additional >= 0.0
  {
    if newPlan.level <= current.plan.level then LevelNotHigher
    else
      var total := current.currentValue + additional;
      if total < newPlan.minimumInvestment then BelowNewMinimum(total)
      else if additional > 0.0 then
        if wallet.None? then NoWallet
        else if wallet.value.balance < additional then InsufficientForAdditional
        else UpgradeOk
      else UpgradeOk
  }

  /** WithdrawSerializer: the field's min_value=0, then validate_amount. */
  datatype AmountCheck = AmountOk | BelowMinValue | NotPositive

  function ValidateWithdrawAmount(amount: real): (r: AmountCheck)
    ensures r == AmountOk <==> amount > 0.0
    ensures r == BelowMinValue <==> amount < 0.0
  {
    if amount < 0.0 then BelowMinValue
    else if amount <= 0.0 then NotPositive
    else AmountOk
  }

  /** InvestmentSerializer: the field checks (the plan must be an active
      plan, the amount at least 0, a given currency one of the field's
      choices, only "USDT"), then validate. The field checks all refuse
      with the same status; the first failing one is reported. */
  datatype InvestmentCheck =
    | InvestmentOk | PlanUnavailable | NegativeAmount | InvalidCurrency
    | BelowPlanMinimum | NoUsdtWallet | InsufficientUsdt

  /** `currency` is None when the request does not name one; validate then
      reads it as "USD" and skips the balance check. A zero amount is falsy
      and skips the minimum check. */
  function ValidateInvestment(plan: Plan, amount: real, currency: Option<string>, wallet: Option<Wallet>): (r: InvestmentCheck)
    ensures r == InvestmentOk <==>
              plan.isActive && amount >= 0.0 &&
              (currency.Some? ==> currency.value == "USDT") &&
              (amount != 0.0 ==> amount >= plan.minimumInvestment) &&
              (currency.Some? ==> wallet.Some? && wallet.value.balance >= amount)
    ensures !plan.isActive ==> r == PlanUnavailable
    ensures plan.isActive && amount < 0.0 ==> r == NegativeAmount
    ensures plan.isActive && amount >= 0.0 && currency.Some? && currency.value != "USDT" ==> r == InvalidCurrency
    ensures (plan.isActive && amount >= 0.0 && currency.GetOr("USDT") == "USDT" &&
             amount != 0.0 && amount < plan.minimumInvestment) ==> r == BelowPlanMinimum
    ensures (plan.isActive && amount >= 0.0 && currency == Some("USDT") &&
             (amount != 0.0 ==> amount >= plan.minimumInvestment) && wallet.None?) ==> r == NoUsdtWallet
    ensures (plan.isActive && amount >= 0.0 && currency == Some("USDT") &&
             (amount != 0.0 ==> amount >= plan.minimumInvestment) &&
             wallet.Some? && wallet.value.balance < amount) ==> r == InsufficientUsdt
  {
    if !plan.isActive then PlanUnavailable
    else if amount < 0.0 then NegativeAmount
    else if currency.Some? && currency.value != "USDT" then InvalidCurrency
    else if amount != 0.0 && amount < plan.minimumInvestment then BelowPlanMinimum
    else if currency.GetOr("USD") == "USDT" then
      if wallet.None? then NoUsdtWallet
      else if wallet.value.balance < amount then InsufficientUsdt
      else InvestmentOk
    else InvestmentOk
  }

  /** The characters str.strip() removes that are ASCII. */
  predicate IsSpace(c: char) {
    c == ' ' || c == '\t' || c == '\n' || c == '\r' || c == '\U{000B}' || c == '\U{000C}' ||
    c == '\U{001C}' || c == '\U{001D}' || c == '\U{001E}' || c == '\U{001F}'
  }

  /** The number of whitespace characters at the start of `s`. */
  function LeadingSpace(s: string): (n: nat)
    ensures n <= |s|
    ensures forall i :: 0 <= i < n ==> IsSpace(s[i])
    ensures n < |s| ==> !IsSpace(s[n])
    decreases |s|
  {
    if s == [] || !IsSpace(s[0]) then 0
    else
      var n := LeadingSpace(s[1..]);
      assert forall i :: 1 <= i < n + 1 ==> s[i] == s[1..][i - 1];
      n + 1
  }

  /** The number of whitespace characters at the end of `s`. */
  function TrailingSpace(s: string): (n: nat)
    ensures n <= |s|
    ensures forall i :: |s| - n <= i < |s| ==> IsSpace(s[i])
    ensures n < |s| ==> !IsSpace(s[|s| - 1 - n])
    decreases |s|
  {
    if s == [] || !IsSpace(s[|s| - 1]) then 0
    else 1 + TrailingSpace(s[..|s| - 1])
  }

  /** CharField's trim_whitespace: the value without surrounding whitespace.
      The result is the infix of `s` left once a run of whitespace is cut
      from each end, and it neither starts nor ends with whitespace. */
  function Strip(s: string): (r: string)
    ensures var a := LeadingSpace(s);
            a + |r| <= |s| && r == s[a..a + |r|] &&
            (forall i :: a + |r| <= i < |s| ==> IsSpace(s[i]))
    ensures r == [] <==> forall i :: 0 <= i < |s| ==> IsSpace(s[i])
    ensures r != [] ==> !IsSpace(r[0]) && !IsSpace(r[|r| - 1])
  {
    var a := LeadingSpace(s);
    var b := TrailingSpace(s);
    if a == |s| then []
    else
      assert a < |s| - b;
      s[a..|s| - b]
  }

  /** WithdrawSerializer.wallet_address: a CharField(max_length=100), so
      trimmed, not blank, at most 100 characters, and free of the null
      character. (A Dafny char is a Unicode scalar value, so the field's
      refusal of surrogate code points has nothing to catch here.) */
  datatype AddressCheck = AddressOk | BlankAddress | AddressTooLong | NullCharacter

  const MaxAddressLength: nat := 100

  function ValidateWalletAddress(address: string): (r: AddressCheck)
    ensures r == AddressOk <==>
              Strip(address) != [] && |Strip(address)| <= MaxAddressLength && '\0' !in Strip(address)
    ensures r == BlankAddress <==> forall i :: 0 <= i < |address| ==> IsSpace(address[i])
    ensures r == AddressTooLong <==> |Strip(address)| > MaxAddressLength
    ensures r == NullCharacter <==>
              Strip(address) != [] && |Strip(address)| <= MaxAddressLength && '\0' in Strip(address)
    ensures '\0' in Strip(address) <==> '\0' in address
  {
    var value := Strip(address);
    NullSurvivesStrip(address);
    if value == [] then BlankAddress
    else if |value| > MaxAddressLength then AddressTooLong
    else if '\0' in value then NullCharacter
    else AddressOk
  }

  /** The null character is not whitespace, so trimming neither adds nor
      removes it. */
  lemma NullSurvivesStrip(s: string)
    ensures '\0' in Strip(s) <==> '\0' in s
  {
    var r := Strip(s);
    var a := LeadingSpace(s);
    if '\0' in s {
      var k :| 0 <= k < |s| && s[k] == '\0';
      assert !IsSpace(s[k]);
      assert a <= k < a + |r|;
      assert r[k - a] == '\0';
    }
    if '\0' in r {
      var j :| 0 <= j < |r| && r[j] == '\0';
      assert s[a + j] == '\0';
    }
  }

  /** RegisterSerializer.validate */
  datatype RegistrationCheck = RegistrationOk | PasswordMismatch | UnknownReferralCode

  function ValidateRegistration(password: string, confirmation: string, referralCode: string, knownCodes: set<string>): (r: RegistrationCheck)
    ensures r == RegistrationOk <==>
              password == confirmation && (referralCode == "" || referralCode in knownCodes)
    ensures password != confirmation ==> r == PasswordMismatch
    ensures password == confirmation && referralCode != "" && referralCode !in knownCodes ==>
              r == UnknownReferralCode
  {
    if password != confirmation then PasswordMismatch
    else if referralCode != "" && referralCode !in knownCodes then UnknownReferralCode
    else RegistrationOk
  }

  /** An address with no surrounding whitespace and at most 100 characters
      is accepted as it is. */
  lemma PlainAddressAccepted(address: string)
    requires address != [] && |address| <= MaxAddressLength && '\0' !in address
    requires !IsSpace(address[0]) && !IsSpace(address[|address| - 1])
    ensures Strip(address) == address
    ensures ValidateWalletAddress(address) == AddressOk
  {
    assert LeadingSpace(address) == 0;
    assert TrailingSpace(address) == 0;
  }

  /** An address holding the null character is refused, even when it
      would otherwise be accepted. */
  lemma NullAddressRefused()
    ensures ValidateWalletAddress("0x\0ab") == NullCharacter
  {
    var address := "0x\0ab";
    assert address[2] == '\0';
    assert !IsSpace(address[0]) && !IsSpace(address[|address| - 1]);
    assert LeadingSpace(address) == 0;
    assert TrailingSpace(address) == 0;
  }

  // ---------------------------------------------------------------------
  // Aggregates
  // ---------------------------------------------------------------------

  /** InvestmentSerializer.get_earnings: the status test adds nothing, since
      calculate_earnings is already zero for an investment that is not
      ACTIVE. */
  function SerializedEarnings(inv: Investment, now: Timestamp): (r: real)
    ensures r == CalculateEarnings(inv, now)
  {
    if inv.status == Active then CalculateEarnings(inv, now) else 0.0
  }

  /** The contribution of one row to a per-user sum. */
  function Share(inv: Investment, user: UserId, f: Investment -> real): real {
    if inv.user == user then f(inv) else 0.0
  }

  /** The sum of `f` over the user's investments; 0 for none. */
  function SumOf(invs: seq<Investment>, user: UserId, f: Investment -> real): (r: real)
    ensures (forall inv :: f(inv) >= 0.0) ==> r >= 0.0
    ensures (forall k :: 0 <= k < |invs| ==> invs[k].user != user) ==> r == 0.0
    decreases |invs|
  {
    if invs == [] then 0.0
    else SumOf(invs[..|invs| - 1], user, f) + Share(invs[|invs| - 1], user, f)
  }

  function AmountInvestedOf(inv: Investment): real { inv.amountInvested }
  function TotalWithdrawnOf(inv: Investment): real { inv.totalWithdrawn }
  function ActiveEarnings(now: Timestamp): Investment -> real {
    (inv: Investment) => if inv.status == Active then CalculateEarnings(inv, now) else 0.0
  }

  /** UserDetailSerializer.get_total_invested */
  function TotalInvested(invs: seq<Investment>, user: UserId): real {
    SumOf(invs, user, AmountInvestedOf)
  }

  /** UserDetailSerializer.get_total_withdrawn */
  function TotalWithdrawn(invs: seq<Investment>, user: UserId): real {
    SumOf(invs, user, TotalWithdrawnOf)
  }

  /** UserDetailSerializer.get_total_earnings: over ACTIVE rows only. */
  function TotalEarnings(invs: seq<Investment>, user: UserId, now: Timestamp): real {
    SumOf(invs, user, ActiveEarnings(now))
  }

  /** ReferralUserSerializer.get_total_deposits: the DEPOSIT entries of the
      user's wallet, whatever their status. */
  function TotalDeposits(entries: seq<Entry>, user: UserId): (r: real)
    ensures (forall k :: 0 <= k < |entries| ==> entries[k].amount >= 0.0) ==> r >= 0.0
    decreases |entries|
  {
    if entries == [] then 0.0
    else
      var e := entries[|entries| - 1];
      TotalDeposits(entries[..|entries| - 1], user)
      + (if e.wallet == user && e.kind == Deposit then e.amount else 0.0)
  }

  // ---------------------------------------------------------------------
  // Properties of the aggregates
  // ---------------------------------------------------------------------

  /** Appending a row adds its share to the sum. */
  lemma SumOfAppend(invs: seq<Investment>, inv: Investment, user: UserId, f: Investment -> real)
    ensures SumOf(invs + [inv], user, f) == SumOf(invs, user, f) + Share(inv, user, f)
  {
    assert (invs + [inv])[..|invs|] == invs;
  }

  /** Replacing one row changes the sum by the difference of the shares. */
  lemma {:induction false} SumOfUpdate(invs: seq<Investment>, i: nat, inv: Investment, user: UserId, f: Investment -> real)
    requires i < |invs|
    ensures SumOf(invs[i := inv], user, f)
            == SumOf(invs, user, f) - Share(invs[i], user, f) + Share(inv, user, f)
    decreases |invs|
  {
    var n := |invs| - 1;
    var s := invs[i := inv];
    if i == n {
      assert s[..n] == invs[..n];
    } else {
      var front := invs[..n];
      assert s[..n] == front[i := inv];
      assert s[n] == invs[n];
      SumOfUpdate(front, i, inv, user, f);
    }
  }

  /** Two summands that agree on every row give the same sum. */
  lemma {:induction false} SumOfExtensional(invs: seq<Investment>, user: UserId, f: Investment -> real, g: Investment -> real)
    requires forall k :: 0 <= k < |invs| ==> f(invs[k]) == g(invs[k])
    ensures SumOf(invs, user, f) == SumOf(invs, user, g)
    decreases |invs|
  {
    if invs != [] {
      SumOfExtensional(invs[..|invs| - 1], user, f, g);
    }
  }

  /** The "ACTIVE only" filter of get_total_earnings changes nothing: the
      total equals the sum of calculate_earnings over all the user's rows. */
  lemma TotalEarningsOverAllRows(invs: seq<Investment>, user: UserId, now: Timestamp)
    ensures TotalEarnings(invs, user, now) == SumOf(invs, user, (inv: Investment) => CalculateEarnings(inv, now))
  {
    SumOfExtensional(invs, user, ActiveEarnings(now), (inv: Investment) => CalculateEarnings(inv, now));
  }

  /** A deposit entry for the user raises the user's deposit total by its
      amount; any other entry leaves it unchanged. */
  lemma TotalDepositsAppend(entries: seq<Entry>, e: Entry, user: UserId)
    ensures TotalDeposits(entries + [e], user)
            == TotalDeposits(entries, user) + (if e.wallet == user && e.kind == Deposit then e.amount else 0.0)
  {
    assert (entries + [e])[..|entries|] == entries;
  }

  /** With every row's withdrawals non-negative, the user's total withdrawn
      is non-negative. */
  lemma TotalWithdrawnNonNegative(invs: seq<Investment>, user: UserId)
    requires forall k :: 0 <= k < |invs| ==> invs[k].totalWithdrawn >= 0.0
    ensures TotalWithdrawn(invs, user) >= 0.0
  {
    var f := (inv: Investment) => if inv.totalWithdrawn >= 0.0 then inv.totalWithdrawn else 0.0;
    SumOfExtensional(invs, user, TotalWithdrawnOf, f);
  }
}
