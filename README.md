# Investment accounting core, modelled in Dafny

This project models the accounting core of a Django investment platform.
Users deposit USDT, verified against the blockchain. They hold at most one
ACTIVE investment in a tiered plan, which accrues simple daily interest.
They withdraw accrued earnings by an on-chain transfer, and they earn a 5 %
commission on the deposits of the users they referred.

The model has five modules:

- `Types` (`types.dfy`): the records of `investments/models.py`. These are
  plans, investments, wallets, profiles and ledger entries (`USDTTransaction`).
  Decimal fields are `real`. Timestamps are whole seconds.
- `Accrual` (`accrual.dfy`): the pure part of `Investment`.
  - `calculate_earnings` is principal × daily rate / 100 × whole days elapsed,
    and it is 0 unless the row is ACTIVE with a start date.
  - `get_available_earnings` is those earnings less `total_withdrawn`,
    clamped at 0.
  - `can_withdraw` is an ordered three-way gate.
  - `save` supplies the `current_value` default.
  - The module also holds the row that `upgrade_to_plan` creates, the
    unique-active constraint, and the lookup of a user's ACTIVE row.
  - The clock is a parameter. `(now - start) / 86400` uses Dafny's Euclidean
    division, which for a positive divisor is the floor that `timedelta.days`
    computes.
- `Validation` (`validation.dfy`): the validators of
  `investments/serializers.py` and the per-user totals that are shown to
  the user.
- `Units` (`units.dfy`): the 10^-6 USDT base-unit conversions used at the
  blockchain boundary.
- `Ledger` (`ledger.dfy`): the request handlers of `investments/views.py`
  and `Investment.upgrade_to_plan`, as methods of a `Store` class.
  - The store holds the wallets, the profiles, the append-only entry log
    and the investment rows. A row's id is its index.
  - `Store.Valid()` says that balances are never negative, referrers have
    profiles, a user has at most one ACTIVE row, and row references resolve.
    Every method keeps `Valid()`.
  - Each request is one sequential, all-or-nothing step: a refused request
    leaves the store exactly as it was.
  - The blockchain gateway is an oracle. A `Verification` or `Transfer`
    parameter carries its answer.

Where the intended design and the code disagree, the model follows the code:

- **Two upgrade formulas.**
  - The upgrade view (`UpgradeInvestment`) keeps the same row and adds the
    additional amount to `amount_invested`. It sets `current_value` to that
    principal plus the earnings accrued so far, and it restarts `start_date`.
  - `upgrade_to_plan` (`UpgradeToPlan`) creates a new row whose principal is
    the stored `current_value` plus the additional amount. The new row has
    **no** start date, so it earns nothing. The old row is marked `UPGRADED`.
    That value is not among the status field's declared choices.
  - `upgrade_to_plan` creates the new ACTIVE row while the user's ACTIVE row
    still exists. The unique-active constraint then refuses the insert, so it
    cannot succeed on an ACTIVE investment. `UpgradeToPlan` states this.
- **Deposits are not idempotent.** Nothing rejects a transaction hash that
  was already credited. `ReplayedDeposit` shows a double credit.
- **Referral commission.** If the referrer has no wallet, the lookup raises
  inside the atomic block. The whole deposit is rolled back and answered
  with an error (`ReferrerWalletMissing`).
- **Upgrade view.** It does not check the investment's status, so a
  CANCELLED row can be upgraded and debited. It also accepts a negative
  additional amount. A debit and an `INVESTMENT_UPGRADE` entry happen only
  when the amount is positive, but the principal changes by the amount
  either way.
- **Investment creation.**
  - A maximum of 0 is falsy and imposes no limit.
  - The serializer skips its minimum check for a zero amount. The view then
    applies the minimum anyway.
  - The currency field accepts only "USDT". When the request names no
    currency, the serializer reads it as "USD" and skips its balance check.
    The view then checks the balance itself.
- **Withdrawal.** The destination address is trimmed of surrounding
  whitespace, must not be blank, may hold at most 100 characters and must
  not contain the null character. A
  withdrawal never touches the wallet balance. It writes a
  WITHDRAWAL entry and raises the investment's `total_withdrawn`. The code
  as written does neither (see Findings).

## Model

| member | source | states |
|---|---|---|
| `Accrual.ElapsedDays` | investments/models.py:221 | whole days elapsed are the floor of the span divided by 86400, also for a negative span |
| `Accrual.CalculateEarnings` | investments/models.py:216-225 | earnings are 0 whenever the row is not ACTIVE or has no start date, whatever the time; non-negative for a non-negative principal and rate after the start |
| `Accrual.EarningsAtDay` | investments/models.py:220-225 | anywhere within the d-th day after the start, earnings are principal × rate/100 × d: a partial day adds nothing |
| `Accrual.EarningsFlatWithinDay` | investments/models.py:221-223 | earnings at any instant equal the earnings at the latest whole-day boundary |
| `Accrual.ElapsedDaysMonotone` | investments/models.py:221 | elapsed whole days never decrease as the clock advances |
| `Accrual.EarningsMonotone` | investments/models.py:220-225 | with non-negative principal and rate, earnings are non-decreasing in `now` |
| `Accrual.DailyAccrualExample` | investments/models.py:216-225 | 1000 at 0.1 %/day earns 1.0 after one day, still 1.0 after one day and 23 hours, 2.0 after two days |
| `Accrual.AvailableEarnings` | investments/models.py:227-235 | available earnings are never negative, are 0 when not ACTIVE, and are max(0, earnings − total withdrawn) for an ACTIVE row |
| `Accrual.CanWithdraw` | investments/models.py:237-249 | allowed iff ACTIVE, amount > 0 and amount ≤ available; each refusal is fixed by its condition, in order: not ACTIVE gives not-active, then a non-positive amount gives non-positive, then an amount above the available earnings gives exceeds-available carrying that available amount |
| `Accrual.AllowedWithdrawalWithinEarnings` | investments/models.py:227-249 | after an allowed withdrawal, total withdrawn stays within the earnings and the available earnings drop by exactly the amount |
| `Accrual.Saved` | investments/models.py:251-254 | save sets current value to the principal when it is zero and changes no other field |
| `Accrual.SavedKeepsAccrual` | investments/models.py:251-254 | saving a row changes neither its earnings nor its available earnings |
| `Accrual.Successor` | investments/models.py:266-273 | definition of the row `upgrade_to_plan` creates; its properties are proved in `Accrual.SuccessorEarnsNothing` |
| `Accrual.SuccessorEarnsNothing` | investments/models.py:266-273 | the upgrade successor belongs to the same user and the new plan, is ACTIVE, has principal = stored current value + additional, has no start date, and earns 0 at every time |
| `Accrual.FindActive` | investments/views.py:300-309 | the lookup returns an ACTIVE row of the user, and returns none exactly when the user has no ACTIVE row |
| `Accrual.FindActiveIsTheActiveRow` | investments/models.py:204-211 | under the unique-active constraint, the lookup returns the user's one ACTIVE row |
| `Ledger.AppendActiveKeepsUnique` | investments/models.py:204-211 | a new ACTIVE row keeps the unique-active constraint when its user had no ACTIVE row |
| `Ledger.DeactivateKeepsUnique` | investments/models.py:204-211 | replacing a row by a non-ACTIVE one keeps the unique-active constraint |
| `Ledger.UpdateSameStatusKeepsUnique` | investments/models.py:204-211 | updating a row without changing its user or status keeps the unique-active constraint |
| `Ledger.Store.UpgradeToPlan` | investments/models.py:256-281 | refused with no change: a level that is not higher gives level-not-raised, then a negative additional amount gives negative-additional, then an ACTIVE row of the user, this one included, gives the unique-constraint conflict; otherwise appends the successor and retires the row as UPGRADED with end date and `upgraded_to` set; total invested then counts both rows |
| `Ledger.SameAddress` | investments/views.py:99 | definition of the case-insensitive address comparison; its properties are proved in `Ledger.SameAddressIgnoresCase` |
| `Ledger.SameAddressIgnoresCase` | investments/views.py:99 | lower-casing keeps the length and leaves no ASCII capital, an address matches its own lower-case form, and addresses of different lengths never match |
| `Ledger.Store.ProcessDeposit` | investments/views.py:77-155 | refusals change nothing and each is fixed by its condition, in order: no wallet gives wallet-not-found (404), an empty hash missing-hash, a failed verification the verifier's own error, a destination other than the company address (case-insensitive) invalid-destination, a referrer without a wallet referrer-wallet-missing; success appends one COMPLETED DEPOSIT entry carrying the hash and raises the balance by exactly the verified amount; with a referrer, also one REFERRAL_BONUS entry, the referrer's balance and total referral earnings up by 5 % of the amount, and no other wallet changed |
| `Ledger.Store.CreditDeposit` | investments/views.py:109-120 | the depositor's side appends one COMPLETED DEPOSIT entry with the hash, credits exactly the amount, keeps the store invariant, and raises the user's deposit total by the amount |
| `Ledger.Store.PayReferralBonus` | investments/views.py:123-144 | the referrer's side appends one COMPLETED REFERRAL_BONUS entry, credits the bonus to the referrer's wallet and adds it to the referrer's total referral earnings; the depositor's deposit total is unchanged |
| `Ledger.ReplayedDeposit` | investments/views.py:105-120 | the same verified hash submitted twice credits the wallet twice |
| `Ledger.Store.CreateInvestment` | investments/views.py:164-215 | refused with no change, each refusal fixed by its condition in order: the serializer's own refusal, then an existing ACTIVE row, an amount below the minimum, above a non-zero maximum, a missing wallet, a short balance; success debits exactly the amount (balance stays ≥ 0), appends one INVESTMENT entry and an ACTIVE row with current value = amount, start = now and the funding entry linked |
| `Ledger.Store.OpenInvestment` | investments/views.py:193-215 | the write step appends one COMPLETED INVESTMENT entry, debits exactly the amount, appends an ACTIVE row with current value = amount, start = now and that entry as funding, keeps the store invariant, and raises the user's total invested by the amount |
| `Ledger.Store.UpgradeInvestment` | investments/views.py:217-266 | not-found iff the row is missing or not the user's; invalid iff it is the user's and validation refuses (carrying that refusal); no-wallet iff validation passes and the user has no wallet; every refusal changes nothing; debits and records INVESTMENT_UPGRADE only for a positive additional amount; the same row takes the new plan, principal + additional, current value = new principal + earnings before the reset, start = now, so it earns 0 at that instant |
| `Ledger.UpgradedRow` | investments/views.py:252-260 | definition of the row after an in-place upgrade; its properties are proved in `Ledger.UpgradedRowRestarts` and `Ledger.UpgradeKeepsOldWithdrawals` |
| `Ledger.UpgradeKeepsOldWithdrawals` | investments/views.py:255-260 | the upgrade restarts the accrual but keeps total withdrawn: after any earlier withdrawal the row has withdrawn more than it earned, nothing is available at the upgrade, and nothing until the new earnings pass the old withdrawals |
| `Ledger.UpgradedRowRestarts` | investments/views.py:252-259 | the upgraded row keeps its owner, status, links and withdrawals, takes the new plan and principal + additional, keeps the accrued earnings in its current value, restarts at `now` and so earns 0 at that instant |
| `Ledger.Store.CancelInvestment` | investments/views.py:278-288 | ACTIVE becomes CANCELLED; any other status, or a row of another user, is refused with nothing changed; wallets and entries never change |
| `Ledger.WithdrawGate` | investments/views.py:295-320 | the checks before the gateway, in order: a non-positive amount, a blank, over-long or null-character destination address, no ACTIVE row, or a can_withdraw refusal stop the request with a response that does not call the gateway; a request that passes carries the user's ACTIVE row and the trimmed address |
| `Ledger.GateAtActiveRow` | investments/views.py:295-320 | with valid fields and the user's one ACTIVE row known, the gate proceeds with that row and the trimmed address exactly when can_withdraw allows, and otherwise stops with can_withdraw's refusal |
| `Ledger.Store.WithdrawEarnings` | investments/views.py:290-356 | refused requests (including a blank, over-long or null-character destination) make no gateway call and no change; a request that passes asks `send_usdt` for exactly one transfer, to the trimmed address, of the amount truncated to base units; a failed send changes nothing; a sent transfer appends one COMPLETED WITHDRAWAL entry with the hash and adds the amount to total withdrawn, which stays within the earnings; the wallet balance is unchanged |
| `Ledger.Store.RecordWithdrawal` | investments/views.py:333-344 | the record step appends the WITHDRAWAL entry, raises total withdrawn by the amount, and lowers the available earnings and raises the user's total withdrawn by the same amount |
| `Ledger.Store.WithdrawAsWritten` | investments/views.py:322-356 | as written, every withdrawal that passes the checks asks for the transfer to the trimmed address of the amount in base units, and once sent ends in an error with nothing recorded |
| `Ledger.RepeatedWithdrawalAsWritten` | investments/views.py:333-356 | as written, 1.0 available and two requests for 1.0 each send 1000000 base units to the same address, 2.0 USDT in all, and neither is recorded |
| `Ledger.RepeatedWithdrawalCorrected` | investments/views.py:333-344 | with the record step working, the first request sends 1000000 base units and is recorded, and the second is refused as exceeding the available 0 without reaching the gateway |
| `Validation.ValidateUpgrade` | investments/serializers.py:301-331 | accepted iff the new level is strictly higher, current value + additional ≥ the new minimum, and a positive additional is covered by the wallet balance, so the later debit cannot make it negative; each refusal is fixed by its condition, in that order: level not higher, below the new minimum (carrying the total), no wallet, insufficient balance |
| `Validation.ValidateWithdrawAmount` | investments/serializers.py:206-217 | a withdrawal amount is accepted iff it is strictly positive |
| `Validation.ValidateInvestment` | investments/serializers.py:103-132 | accepted iff the plan is active, the amount is ≥ 0 (the field's minimum, investments/models.py:160), a given currency is "USDT" (the field's only choice, investments/models.py:162-166), a non-zero amount meets the plan minimum, and, only when a currency is given, a wallet with balance ≥ amount exists; no currency reads as "USD" and skips the balance check; each refusal is fixed by its condition in that order, ending with no-wallet before short-balance |
| `Validation.ValidateWalletAddress` | investments/serializers.py:212 | the withdrawal address is accepted iff its trimmed form is non-empty, at most 100 characters and free of the null character; blank exactly when every character is whitespace, too long exactly when the trimmed form exceeds 100, null-character exactly when it is otherwise valid but holds U+0000 |
| `Validation.PlainAddressAccepted` | investments/serializers.py:212 | an address of at most 100 characters, with no surrounding whitespace and no null character, trims to itself and is accepted |
| `Validation.NullSurvivesStrip` | investments/serializers.py:212 | trimming neither adds nor removes a null character, so the null-character check sees the raw text's |
| `Validation.NullAddressRefused` | investments/serializers.py:212 | "0x\0ab" is refused for its null character |
| `Validation.Strip` | investments/serializers.py:212 | the result is the infix of the text left after cutting the leading whitespace run and a trailing whitespace run, so everything cut is whitespace; it is empty exactly when the text is all whitespace, and otherwise starts and ends with a non-whitespace character |
| `Validation.ValidateRegistration` | investments/serializers.py:172-188 | registration is accepted exactly when password and confirmation match and the referral code is empty or known; differing passwords give password-mismatch, and otherwise an unknown non-empty code gives unknown-referral-code |
| `Validation.SerializedEarnings` | investments/serializers.py:100-101 | the serialized earnings equal calculate_earnings for every status |
| `Validation.SumOf` | investments/serializers.py:253-263 | a per-user sum is 0 for a user with no rows (empty sums give 0) and non-negative for a non-negative summand |
| `Validation.TotalInvested` | investments/serializers.py:253-255 | definition: the sum of `amount_invested` over the user's rows; its properties are proved in `Validation.SumOf`, `Validation.SumOfAppend`, `Validation.SumOfUpdate` and the store methods' ensures |
| `Validation.TotalWithdrawn` | investments/serializers.py:261-263 | definition: the sum of `total_withdrawn` over the user's rows; its properties are proved in `Validation.TotalWithdrawnNonNegative` and `Ledger.Store.RecordWithdrawal` |
| `Validation.TotalEarnings` | investments/serializers.py:257-259 | definition: the sum of calculate_earnings over the user's ACTIVE rows; its properties are proved in `Validation.TotalEarningsOverAllRows` |
| `Validation.SumOfAppend` | investments/serializers.py:253-263 | a new row adds its share to the user's total |
| `Validation.SumOfUpdate` | investments/serializers.py:253-263 | replacing a row changes the user's total by the difference of the two shares |
| `Validation.SumOfExtensional` | investments/serializers.py:253-263 | totals over summands that agree on every row are equal |
| `Validation.TotalEarningsOverAllRows` | investments/serializers.py:257-259 | the total over ACTIVE rows equals the sum of calculate_earnings over all the user's rows |
| `Validation.TotalWithdrawnNonNegative` | investments/serializers.py:261-263 | with non-negative per-row withdrawals the user's total withdrawn is non-negative |
| `Validation.TotalDeposits` | investments/serializers.py:273-277 | the deposit total is non-negative when all entry amounts are |
| `Validation.TotalDepositsAppend` | investments/serializers.py:273-277 | a DEPOSIT entry on the user's wallet raises the total by its amount; any other entry leaves it unchanged |
| `Units.Truncate` | investments/blockchain.py:35 | int() of a Decimal truncates toward zero |
| `Units.BaseUnitsRoundTrip` | investments/blockchain.py:107 | a verified amount converts back to exactly its base units |
| `Ledger.PayoutOf` | investments/blockchain.py:22-43 | the transfer `send_usdt` builds goes to the given address and carries the amount truncated to base units: never more than requested and less than one base unit short |
| `Ledger.OneUsdtPayout` | investments/blockchain.py:35 | sending 1.0 USDT puts exactly 1000000 base units on chain, which convert back to 1.0 |
| `Units.SendNeverOverpays` | investments/blockchain.py:35 | for a non-negative amount, what is sent on chain is never more than requested and less than one base unit short |

## Left out

- The blockchain client (web3 calls, signing, nonces, receipts, the ABI file) is not modelled. Its answers are the `Verification` and `Transfer` parameters. `USDTWalletViewSet.check_balance` queries the chain and is left out.
- Concurrency and the isolation of `transaction.atomic` are not modelled. Each request is one sequential step. The race between the balance check (investments/views.py:191) and the debit is not modelled.
- Decimal precision is not modelled. Amounts are exact reals, and a field's `max_digits`/`decimal_places` rounding on save is ignored. So is the two-decimal limit on withdrawal amounts.
- Time is whole seconds. Microseconds are dropped. One `now` stands for the several `timezone.now()` calls of a request.
- Addresses are compared case-insensitively over ASCII only. Python's full Unicode lower-casing is not modelled.
- `Validation.Strip` removes only ASCII whitespace. Python's `str.strip()` also removes non-ASCII whitespace, such as U+00A0, and that is not modelled.
- A withdrawal or investment request with a missing field is not modelled. Every field the model receives is present. The one exception is the optional currency.
- The unique-active constraint (investments/models.py:204-211) is assumed to be enforced by the database, as it is on PostgreSQL and SQLite. On MySQL/MariaDB, Django skips a conditional `UniqueConstraint`. There `upgrade_to_plan` succeeds on an ACTIVE row and leaves two ACTIVE rows, which `Ledger.Store.UpgradeToPlan` does not model.
- An investment holds its plan as a value, not a foreign key. So an admin edit of a plan's `daily_return` does not reach the investments already linked to it. In the source, such an edit changes their earnings at once.
- Descriptions, `created_at`/`updated_at` and `last_earnings_update` are not modelled. Entry descriptions are formatted text with no effect on balances.
- Responses are datatypes, not HTTP status codes or message texts.
- The deposit's rollback is modelled by testing for the referrer's wallet before anything is written. In the code, the partial writes are undone. The final state is the same.
- `upgrade_to_plan` discards its call to `calculate_earnings`, so the model has no counterpart for it. The in-memory staleness of `self` is not modelled.
- Authentication, login, registration persistence and JWT issuance are not modelled: `auth.py`, `login_view`, `register_view`, `RegisterSerializer.create`.
- Routing, admin, the profile-creation signals and the management command are not modelled.
- Referral-code and wallet-address generation use randomness and cryptography, and are not modelled.
- `ReferralUserSerializer.get_commission_earned` is a substring match in a database query, and is not modelled.
- The read-only views (`calculate_earnings` action, `get_investments`, `get_wallet`) are not modelled separately. Only the functions they call are.
- The initial plans migration is not modelled. `AdvancedPlan` borrows its level-2 plan for the concrete examples.

## Findings

| source | as written | input that shows it | evidently intended | confidence | as-written member | corrected member |
|---|---|---|---|---|---|---|
| investments/views.py:335 | after `send_usdt` returns, the record step reads `investment.user.usdtwallet`, but the wallet's related name is `usdt_wallet` (investments/models.py:78). The access raises, the handler answers 500, no WITHDRAWAL entry is written and `total_withdrawn` is not raised, so the same earnings can be withdrawn again and again | an ACTIVE investment of 100 at 0.1 %/day, ten days in (1.0 available): two requests for 1.0 send 2.0 on chain (`Ledger.RepeatedWithdrawalAsWritten`) | write the WITHDRAWAL entry to the user's wallet and add the amount to `total_withdrawn`, so a second request is refused (`Ledger.RepeatedWithdrawalCorrected`) | high; not executed | `Ledger.Store.WithdrawAsWritten` | `Ledger.Store.WithdrawEarnings` |
