/**
 Plans, periods and proration (app/plans.py, scripts/set_plan.py). Times and lengths of time are days
 as reals: the daily price ratio is exact here, where the program rounds to microseconds.
 */
module Plans {
  import opened Wrappers
  import opened Workspaces

  /** Stored texts; only the named ones are known to the program. */
  datatype Plan = Pro | Agency | OtherPlan(name: string)
  datatype Cycle = Monthly | Annual | OtherCycle(name: string)
  datatype SubStatus = Active | Trial | Expired | OtherStatus(name: string)

  datatype Subscription = Subscription(plan: Plan, cycle: Cycle, status: SubStatus, end: Option<real>)

  predicate Sold(plan: Plan, cycle: Cycle) {
    !plan.OtherPlan? && !cycle.OtherCycle?
  }

  /** `PLANS[plan]["prices"][cycle]`, in yuan. */
  function Price(plan: Plan, cycle: Cycle): nat
    requires Sold(plan, cycle)
  {
    match plan
    case Pro => if cycle == Monthly then 66 else 666
    case Agency => if cycle == Monthly then 166 else 1666
  }

  function PriceMinorUnits(plan: Plan, cycle: Cycle): nat
    requires Sold(plan, cycle)
  {
    Price(plan, cycle) * 100
  }

  function PeriodDays(cycle: Cycle): nat
    requires !cycle.OtherCycle?
  {
    if cycle == Monthly then 30 else 365
  }

  function DailyPrice(plan: Plan, cycle: Cycle): real
    requires Sold(plan, cycle)
  {
    Price(plan, cycle) as real / PeriodDays(cycle) as real
  }

  function Bought(cycle: Cycle, periods: nat): real
    requires !cycle.OtherCycle?
  {
    (if cycle == Monthly then 30 * periods else 365 * periods) as real
  }

  // ---------------------------------------------------------------- functions

  function EffectiveStatus(sub: Subscription, now: real): SubStatus {
    if sub.status != Active && sub.status != Trial then Expired
    else if sub.end.Some? && sub.end.value <= now then Expired
    else sub.status
  }

  /** Where the bought period starts. */
  function PeriodStart(current: Option<Subscription>, plan: Plan, cycle: Cycle, now: real): real
    requires Sold(plan, cycle)
  {
    if current.None? || current.value.end.None? then now else
    var sub, end := current.value, current.value.end.value;
    var status := EffectiveStatus(sub, now);
    if status == Expired || end <= now then now
    else if sub.plan == plan then end
    else if status == Active && Sold(sub.plan, sub.cycle) then
      now + (end - now) * (DailyPrice(sub.plan, sub.cycle) / DailyPrice(plan, cycle))
    else now
  }

  function PaidPeriodEnd(current: Option<Subscription>, plan: Plan, cycle: Cycle, periods: nat, now: real): real
    requires Sold(plan, cycle)
  {
    PeriodStart(current, plan, cycle, now) + Bought(cycle, periods)
  }

  predicate HasNoEndDate(current: Option<Subscription>) {
    current.Some? && current.value.status == Active && current.value.end.None?
  }

  /** What a payment for `periods` periods leaves. */
  function Paid(current: Option<Subscription>, plan: Plan, cycle: Cycle, periods: nat, now: real): Subscription
    requires Sold(plan, cycle)
  {
    Subscription(plan, cycle, Active, Some(PaidPeriodEnd(current, plan, cycle, periods, now)))
  }

  /** What `get_or_create_subscription` inserts for a workspace that has none. */
  function FirstSubscription(tenant: string, now: real, trialDays: nat): Subscription {
    if tenant == DEFAULT_TENANT then Subscription(Agency, Annual, Active, None)
    else Subscription(Pro, Monthly, Trial, Some(now + trialDays as real))
  }

  // ------------------------------------------------------------------- promises

  /** Still paid or on trial, with an end ahead. */
  predicate Running(sub: Subscription, now: real) {
    sub.end.Some? && sub.end.value > now && (sub.status == Active || sub.status == Trial)
  }

  /** The switch from one paid plan to another keeps the value of the unused days: what they cost
      before plus what was paid is what the new days cost. */
  lemma SwitchConservesValue(sub: Subscription, plan: Plan, cycle: Cycle, periods: nat, now: real)
    requires Sold(plan, cycle) && Sold(sub.plan, sub.cycle) && sub.plan != plan && sub.status == Active && Running(sub, now)
    ensures (PaidPeriodEnd(Some(sub), plan, cycle, periods, now) - now) * DailyPrice(plan, cycle) ==
            (sub.end.value - now) * DailyPrice(sub.plan, sub.cycle) + (Price(plan, cycle) * periods) as real
  {
    var left, p, q := sub.end.value - now, DailyPrice(sub.plan, sub.cycle), DailyPrice(plan, cycle);
    assert left * (p / q) * q == left * p by {
      RatioCancels(left, p, q);
    }
    assert Bought(cycle, periods) * q == (Price(plan, cycle) * periods) as real;
  }

  /** The example the program's documentation gives: twenty days of Pro are about eight of Agency. */
  lemma TwentyProDays(sub: Subscription, now: real)
    requires sub == Subscription(Pro, Monthly, Active, Some(now + 20.0))
    ensures 30.0 + 7.9 < PaidPeriodEnd(Some(sub), Agency, Monthly, 1, now) - now < 30.0 + 8.0
  {
    SwitchConservesValue(sub, Agency, Monthly, 1, now);
  }

  lemma RatioCancels(x: real, p: real, q: real)
    requires q != 0.0
    ensures x * (p / q) * q == x * p
  {
    var r := p / q;
    assert r * q == p;
    assert x * r * q == x * (r * q);
  }

  /** Paying again for the plan that is running, trial or not, loses no day. */
  lemma RenewalConservesDays(sub: Subscription, cycle: Cycle, periods: nat, now: real)
    requires Sold(sub.plan, cycle) && Running(sub, now)
    ensures PaidPeriodEnd(Some(sub), sub.plan, cycle, periods, now) - now == (sub.end.value - now) + (PeriodDays(cycle) * periods) as real
  {
  }

  /** Days, not value: renewing a plan for the other cycle reprices the days that were left. */
  lemma RenewalReprices(sub: Subscription, cycle: Cycle, periods: nat, now: real)
    requires Sold(sub.plan, sub.cycle) && Sold(sub.plan, cycle) && Running(sub, now)
    ensures var before := (sub.end.value - now) * DailyPrice(sub.plan, sub.cycle) + (Price(sub.plan, cycle) * periods) as real;
            var after := (PaidPeriodEnd(Some(sub), sub.plan, cycle, periods, now) - now) * DailyPrice(sub.plan, cycle);
            && after - before == (sub.end.value - now) * (DailyPrice(sub.plan, cycle) - DailyPrice(sub.plan, sub.cycle))
            && (after == before <==> cycle == sub.cycle)
  {
    assert Bought(cycle, periods) * DailyPrice(sub.plan, cycle) == (Price(sub.plan, cycle) * periods) as real;
    var left, gap := sub.end.value - now, DailyPrice(sub.plan, cycle) - DailyPrice(sub.plan, sub.cycle);
    assert left > 0.0;
    assert left * gap == 0.0 <==> gap == 0.0;
  }

  /** Whatever was there before, the whole bought period lies ahead. */
  lemma NeverShort(current: Option<Subscription>, plan: Plan, cycle: Cycle, periods: nat, now: real)
    requires Sold(plan, cycle)
    ensures PaidPeriodEnd(current, plan, cycle, periods, now) >= now + Bought(cycle, periods)
  {
    if current.Some? && current.value.end.Some? && Sold(current.value.plan, current.value.cycle) {
      RatioPositive(current.value.plan, current.value.cycle, plan, cycle);
      var ratio := DailyPrice(current.value.plan, current.value.cycle) / DailyPrice(plan, cycle);
      var left := current.value.end.value - now;
      assert left > 0.0 ==> left * ratio >= 0.0;
    }
  }

  lemma RatioPositive(plan: Plan, cycle: Cycle, plan': Plan, cycle': Cycle)
    requires Sold(plan, cycle) && Sold(plan', cycle')
    ensures DailyPrice(plan, cycle) / DailyPrice(plan', cycle') > 0.0
  {
  }

  /** A later end before the payment never gives an earlier one after it. */
  lemma LaterEndKeepsLater(sub: Subscription, later: real, plan: Plan, cycle: Cycle, periods: nat, now: real)
    requires Sold(plan, cycle) && sub.end.Some? && sub.end.value <= later
    ensures PaidPeriodEnd(Some(sub), plan, cycle, periods, now) <= PaidPeriodEnd(Some(sub.(end := Some(later))), plan, cycle, periods, now)
  {
    if Sold(sub.plan, sub.cycle) {
      RatioPositive(sub.plan, sub.cycle, plan, cycle);
      var ratio := DailyPrice(sub.plan, sub.cycle) / DailyPrice(plan, cycle);
      ScaledOrder(sub.end.value - now, later - now, ratio);
    }
  }

  lemma ScaledOrder(x: real, y: real, r: real)
    requires x <= y && r > 0.0
    ensures x * r <= y * r && (y > 0.0 ==> y * r > 0.0)
  {
    assert (y - x) * r >= 0.0;
    assert y * r == x * r + (y - x) * r;
  }

  /** Payments compose: `m` periods and then `n` more at the same instant are `m + n` periods. */
  lemma PaymentsCompose(current: Option<Subscription>, plan: Plan, cycle: Cycle, m: nat, n: nat, now: real)
    requires Sold(plan, cycle)
    ensures Paid(Some(Paid(current, plan, cycle, m, now)), plan, cycle, n, now) == Paid(current, plan, cycle, m + n, now)
  {
    NeverShort(current, plan, cycle, m, now);
  }

  /** A subscription lets its workspace in while it is active or on trial and has not ended, and that is
      then its status; otherwise it has expired. */
  lemma WhenItRuns(sub: Subscription, now: real)
    ensures EffectiveStatus(sub, now) != Expired <==>
              (sub.status == Active || sub.status == Trial) && (sub.end.Some? ==> now < sub.end.value)
    ensures EffectiveStatus(sub, now) != Expired ==> EffectiveStatus(sub, now) == sub.status
  {
  }

  /** A workspace's first subscription is a Pro trial that lets it in until its days are over; only that
      of the default workspace has no end. */
  lemma FirstIsATrial(tenant: string, started: real, trialDays: nat, now: real)
    ensures var sub := FirstSubscription(tenant, started, trialDays);
            if tenant == "default" then HasNoEndDate(Some(sub)) && EffectiveStatus(sub, now) == Active && sub.plan == Agency
            else !HasNoEndDate(Some(sub)) && sub.plan == Pro
                 && EffectiveStatus(sub, now) == (if now < started + trialDays as real then Trial else Expired)
  {
  }

  /** Nothing carries over from a subscription that has run out, from the trial of another plan, from a
      plan that is not sold, or from none: the period is exactly the 30 or 365 days bought. */
  lemma FreshStart(current: Option<Subscription>, plan: Plan, cycle: Cycle, periods: nat, now: real)
    requires Sold(plan, cycle)
    requires current.Some? && Running(current.value, now) && current.value.plan != plan ==>
               current.value.status == Trial || !Sold(current.value.plan, current.value.cycle)
    requires current.Some? && current.value.plan == plan ==> !Running(current.value, now)
    ensures PaidPeriodEnd(current, plan, cycle, periods, now) == now + (if cycle == Monthly then 30 * periods else 365 * periods) as real
  {
  }

  /** A period that was paid for runs until its end, and not after it. */
  lemma PaidMeansActive(current: Option<Subscription>, plan: Plan, cycle: Cycle, periods: nat, now: real, later: real)
    requires Sold(plan, cycle) && now <= later
    ensures EffectiveStatus(Paid(current, plan, cycle, periods, now), later) ==
            if later < PaidPeriodEnd(current, plan, cycle, periods, now) then Active else Expired
    ensures later < now + Bought(cycle, periods) ==> EffectiveStatus(Paid(current, plan, cycle, periods, now), later) == Active
  {
    NeverShort(current, plan, cycle, periods, now);
  }
}
