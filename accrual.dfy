/** The accrual engine of Investment (investments/models.py): earnings are
    derived on demand from the principal, the plan's daily rate and the whole
    days elapsed since the start date; withdrawals are bounded by the
    earnings not yet withdrawn. */
module Accrual {
  import opened Types

  const SecondsPerDay: int := 86400

  /** Whole days from `start` to `now`, rounded down as timedelta.days is
      (also for a negative span). */
  function ElapsedDays(start: Timestamp, now: Timestamp): (days: int)
    ensures SecondsPerDay * days <= now - start < SecondsPerDay * (days + 1)
  {
    (now - start) / SecondsPerDay
  }

  /** The plan's daily return as a fraction. */
  function DailyRate(plan: Plan): real {
    plan.dailyReturn / 100.0
  }

  /** Investment.calculate_earnings, with the clock as a parameter. */
  function CalculateEarnings(inv: Investment, now: Timestamp): (r: real)
    ensures inv.status != Active || inv.startDate.None? ==> r == 0.0
    ensures (inv.amountInvested >= 0.0 && inv.plan.dailyReturn >= 0.0 &&
             (inv.startDate.Some? ==> inv.startDate.value <= now)) ==> r >= 0.0
  {
    if inv.status != Active || inv.startDate.None? then 0.0
    else
      var days := ElapsedDays(inv.startDate.value, now);
      NonNegativeProduct(inv.amountInvested, DailyRate(inv.plan), days as real);
      inv.amountInvested * DailyRate(inv.plan) * (days as real)
  }

  lemma NonNegativeProduct(a: real, b: real, c: real)
    ensures a >= 0.0 && b >= 0.0 && c >= 0.0 ==> a * b * c >= 0.0
  {
    if a >= 0.0 && b >= 0.0 && c >= 0.0 {
      assert a * b >= 0.0;
    }
  }

  /** Investment.get_available_earnings: the earnings not yet withdrawn,
      clamped at zero; zero for an investment that is not ACTIVE. */
  function AvailableEarnings(inv: Investment, now: Timestamp): (r: real)
    ensures r >= 0.0
    ensures inv.status != Active ==> r == 0.0
    ensures inv.status == Active ==> r >= CalculateEarnings(inv, now) - inv.totalWithdrawn
    ensures r == 0.0 || r == CalculateEarnings(inv, now) - inv.totalWithdrawn
  {
    if inv.status != Active then 0.0
    else
      var available := CalculateEarnings(inv, now) - inv.totalWithdrawn;
      if available > 0.0 then available else 0.0
  }

  /** The outcome of Investment.can_withdraw; a refusal carries the reason. */
  datatype WithdrawCheck = Allowed | NotActive | NonPositive | ExceedsAvailable(available: real)

  /** Investment.can_withdraw: the three refusals are tried in order. */
  function CanWithdraw(inv: Investment, amount: real, now: Timestamp): (r: WithdrawCheck)
    ensures r == Allowed <==>
              inv.status == Active && amount > 0.0 && amount <= AvailableEarnings(inv, now)
    ensures inv.status != Active ==> r == NotActive
    ensures inv.status == Active && amount <= 0.0 ==> r == NonPositive
    ensures inv.status == Active && amount > 0.0 && amount > AvailableEarnings(inv, now) ==>
              r == ExceedsAvailable(AvailableEarnings(inv, now))
    ensures r.ExceedsAvailable? ==>
              inv.status == Active && amount > 0.0
              && r.available == AvailableEarnings(inv, now) && amount > r.available
  {
    if inv.status != Active then NotActive
    else
      var available := AvailableEarnings(inv, now);
      if amount <= 0.0 then NonPositive
      else if amount > available then ExceedsAvailable(available)
      else Allowed
  }

  /** Investment.save: a zero current value defaults to the principal; no
      other field is touched. */
  function Saved(inv: Investment): (r: Investment)
    ensures inv.currentValue == 0.0 ==> r.currentValue == inv.amountInvested
    ensures inv.currentValue != 0.0 ==> r.currentValue == inv.currentValue
    ensures r.(currentValue := inv.currentValue) == inv
  {
    if inv.currentValue == 0.0 then inv.(currentValue := inv.amountInvested) else inv
  }

  /** Saving a row does not change what it earns or what is available. */
  lemma SavedKeepsAccrual(inv: Investment, now: Timestamp)
    ensures CalculateEarnings(Saved(inv), now) == CalculateEarnings(inv, now)
    ensures AvailableEarnings(Saved(inv), now) == AvailableEarnings(inv, now)
    ensures Saved(inv).totalWithdrawn == inv.totalWithdrawn
  {
  }

  /** The row upgrade_to_plan creates: same user, the new plan, the stored
      current value plus the additional amount as principal, ACTIVE, and no
      start date; then saved. */
  function Successor(prev: Investment, newPlan: Plan, additional: real): Investment {
    Saved(Investment(prev.user, newPlan, prev.currentValue + additional, "USDT",
                     0.0, 0.0, Active, None, None, None, None))
  }

  /** The constraint unique_active_investment_per_user. */
  ghost predicate UniqueActive(invs: seq<Investment>) {
    forall i, j ::
      0 <= i < |invs| && 0 <= j < |invs| &&
      invs[i].status == Active && invs[j].status == Active &&
      invs[i].user == invs[j].user
      ==> i == j
  }

  predicate IsActiveOf(inv: Investment, user: UserId) {
    inv.status == Active && inv.user == user
  }

  ghost predicate HasActive(invs: seq<Investment>, user: UserId) {
    exists i :: 0 <= i < |invs| && IsActiveOf(invs[i], user)
  }

  /** The user's ACTIVE investment, as `Investment.objects.get(user=...,
      status='ACTIVE')` finds it; None when there is none. */
  function FindActive(invs: seq<Investment>, user: UserId): (r: Option<nat>)
    ensures r.Some? ==> r.value < |invs| && IsActiveOf(invs[r.value], user)
    ensures r.None? <==> !HasActive(invs, user)
    decreases |invs|
  {
    if invs == [] then None
    else if IsActiveOf(invs[0], user) then Some(0)
    else
      match FindActive(invs[1..], user)
      case None =>
        assert forall i :: 1 <= i < |invs| ==> invs[i] == invs[1..][i - 1];
        None
      case Some(j) => Some(j + 1)
  }

  // ---------------------------------------------------------------------
  // Properties of the accrual engine
  // ---------------------------------------------------------------------

  /** Within the `days`-th day after the start, whatever the hour, earnings
      are the principal times the daily rate times `days`: a partial day
      adds nothing. */
  lemma EarningsAtDay(inv: Investment, days: int, seconds: int)
    requires inv.status == Active && inv.startDate.Some?
    requires 0 <= seconds < SecondsPerDay
    ensures CalculateEarnings(inv, inv.startDate.value + SecondsPerDay * days + seconds)
            == inv.amountInvested * DailyRate(inv.plan) * (days as real)
  {
    var s := inv.startDate.value;
    var now := s + SecondsPerDay * days + seconds;
    DayIndex(now - s, days);
    assert ElapsedDays(s, now) == days;
    assert CalculateEarnings(inv, now)
           == inv.amountInvested * DailyRate(inv.plan) * (ElapsedDays(s, now) as real);
  }

  /** The floor of `span / SecondsPerDay` is `days` whenever the span lies
      within that day. */
  lemma DayIndex(span: int, days: int)
    requires SecondsPerDay * days <= span < SecondsPerDay * (days + 1)
    ensures span / SecondsPerDay == days
  {
  }

  /** Earnings at any instant equal the earnings at the most recent day
      boundary: they are flat within a day. */
  lemma EarningsFlatWithinDay(inv: Investment, now: Timestamp)
    requires inv.status == Active && inv.startDate.Some?
    ensures var s := inv.startDate.value;
            CalculateEarnings(inv, now)
            == CalculateEarnings(inv, s + SecondsPerDay * ElapsedDays(s, now))
  {
    var s := inv.startDate.value;
    var d := ElapsedDays(s, now);
    EarningsAtDay(inv, d, now - s - SecondsPerDay * d);
    EarningsAtDay(inv, d, 0);
  }

  /** Elapsed whole days never decrease as the clock advances. */
  lemma ElapsedDaysMonotone(start: Timestamp, t1: Timestamp, t2: Timestamp)
    requires t1 <= t2
    ensures ElapsedDays(start, t1) <= ElapsedDays(start, t2)
  {
  }

  /** With a non-negative principal and rate, earnings never decrease as the
      clock advances. */
  lemma EarningsMonotone(inv: Investment, t1: Timestamp, t2: Timestamp)
    requires inv.amountInvested >= 0.0 && inv.plan.dailyReturn >= 0.0
    requires t1 <= t2
    ensures CalculateEarnings(inv, t1) <= CalculateEarnings(inv, t2)
  {
    if inv.status == Active && inv.startDate.Some? {
      var s := inv.startDate.value;
      ElapsedDaysMonotone(s, t1, t2);
      var k := inv.amountInvested * DailyRate(inv.plan);
      assert k >= 0.0;
      ScaleMonotone(k, ElapsedDays(s, t1) as real, ElapsedDays(s, t2) as real);
    }
  }

  lemma ScaleMonotone(k: real, x: real, y: real)
    requires k >= 0.0 && x <= y
    ensures k * x <= k * y
  {
    assert k * y - k * x == k * (y - x);
  }

  /** An allowed withdrawal keeps the total withdrawn within the earnings,
      and recording it lowers the available earnings by exactly the amount. */
  lemma AllowedWithdrawalWithinEarnings(inv: Investment, amount: real, now: Timestamp)
    requires CanWithdraw(inv, amount, now) == Allowed
    ensures inv.totalWithdrawn + amount <= CalculateEarnings(inv, now)
    ensures var after := inv.(totalWithdrawn := inv.totalWithdrawn + amount);
            CalculateEarnings(after, now) == CalculateEarnings(inv, now) &&
            AvailableEarnings(after, now) == AvailableEarnings(inv, now) - amount
  {
    var after := inv.(totalWithdrawn := inv.totalWithdrawn + amount);
    assert CalculateEarnings(after, now) == CalculateEarnings(inv, now);
  }

  /** The row upgrade_to_plan creates starts from the stored current value
      plus the additional amount, and, having no start date, earns nothing
      at any time. */
  lemma SuccessorEarnsNothing(prev: Investment, newPlan: Plan, additional: real, now: Timestamp)
    ensures var s := Successor(prev, newPlan, additional);
            s.user == prev.user && s.plan == newPlan && s.status == Active &&
            s.amountInvested == prev.currentValue + additional &&
            s.currentValue == s.amountInvested && s.totalWithdrawn == 0.0 &&
            s.startDate.None? && CalculateEarnings(s, now) == 0.0
  {
  }

  /** When an ACTIVE row exists, it is the only ACTIVE row of its user, so
      FindActive returns exactly it. */
  lemma FindActiveIsTheActiveRow(invs: seq<Investment>, user: UserId, i: nat)
    requires UniqueActive(invs)
    requires i < |invs| && IsActiveOf(invs[i], user)
    ensures FindActive(invs, user) == Some(i)
  {
  }

  /** The worked example of a plan at 0.1 % per day on 1000: 1.0 after one
      day, still 1.0 after one day and 23 hours, 2.0 after two days. */
  lemma DailyAccrualExample(inv: Investment)
    requires inv.status == Active && inv.startDate == Some(0)
    requires inv.amountInvested == 1000.0 && inv.plan.dailyReturn == 0.1
    ensures CalculateEarnings(inv, SecondsPerDay) == 1.0
    ensures CalculateEarnings(inv, SecondsPerDay + 23 * 3600) == 1.0
    ensures CalculateEarnings(inv, 2 * SecondsPerDay) == 2.0
  {
    EarningsAtDay(inv, 1, 0);
    EarningsAtDay(inv, 1, 23 * 3600);
    EarningsAtDay(inv, 2, 0);
  }
}
