/**
 What changes subscriptions: Checkout fulfilment (app/payments.py) and the operator's tool
 (scripts/set_plan.py), over the store.
 */
module Payments {
  import opened Wrappers
  import opened Plans
  import opened Ledger
  import opened SqliteStore
  import opened Subscriptions

  lemma SettledIsApplied(a: Accounts, s: Session, now: real, activate: Option<Subscription> -> Option<Subscription>)
    requires Guard(s, a.tenants) == Proceed
    requires activate(CurrentOf(a, s.tenant.value)) == Activation(s, CurrentOf(a, s.tenant.value), now)
    ensures Settled(a, Entry(s, s.tenant.value, None), activate) == Applied(a, s, now)
  {
  }

  /** `fulfill_checkout_session`: one delivery, and the workspace's pending upgrade requests are
      answered just when it activated a plan. */
  method FulfillCheckoutSession(store: Store, s: Session, ensuredAt: real, appliedAt: real, trialDays: nat) returns (answer: Answer)
    modifies store`subscriptions, store`payments, store`requests
    ensures store.Accounts() == Deliver(old(store.Accounts()), Delivery(s, ensuredAt, appliedAt), trialDays)
    ensures answer == AnswerTo(old(store.Accounts()), Delivery(s, ensuredAt, appliedAt), trialDays)
    ensures store.requests == if answer == Activated then Answered(old(store.requests), s.tenant.value, "fulfilled") else old(store.requests)
    ensures answer == Activated <==> |store.payments| == |old(store.payments)| + 1 && store.payments[|old(store.payments)|].end.Some?
    ensures answer == Review <==> |store.payments| == |old(store.payments)| + 1 && store.payments[|old(store.payments)|].end.None?
    ensures s.paymentStatus != "paid" ==> (answer == AnswerPending || answer == AnswerIgnored)
                                          && store.Accounts() == old(store.Accounts()) && store.requests == old(store.requests)
  {
    hide Recorded, PaidPeriodEnd, Answered, IsPurchase;
    WhatTheAnswerSays(store.Accounts(), Delivery(s, ensuredAt, appliedAt), trialDays);
    OnlyPurchasesProceed(s, store.Accounts().tenants);
    if !("cs_" <= s.id) || s.mode != "payment" || s.tenant.None? || !Sold(s.plan, s.cycle) {
      return AnswerIgnored;
    }
    var tenant := s.tenant.value;
    if s.reference.Some? && s.reference.value != tenant {
      return AnswerIgnored;
    }
    if s.paymentStatus != "paid" {
      return AnswerPending;
    }
    if tenant !in store.tenants {
      return AnswerIgnored;
    }
    var expected := PriceMinorUnits(s.plan, s.cycle);
    var ensured := GetOrCreateSubscription(store, tenant, ensuredAt, trialDays);
    ghost var a := store.Accounts();
    var activate := (current: Option<Subscription>) =>
      if s.amount != Some(expected) || s.currency != CURRENCY then None
      else if HasNoEndDate(current) then None
      else Some(Subscription(s.plan, s.cycle, Active, Some(PaidPeriodEnd(current, s.plan, s.cycle, 1, appliedAt))));
    SettledIsApplied(a, s, appliedAt, activate);
    var row := store.ApplyPayment(Entry(s, tenant, None), activate);
    if row.None? {
      return Duplicate;
    }
    if row.value.end.None? {
      return Review;
    }
    var changed := store.SetUpgradeRequestsStatus("fulfilled", tenant);
    answer := Activated;
  }

  /** `activate` of the operator's tool. */
  method Activate(store: Store, tenant: string, plan: Plan, cycle: Cycle, periods: nat, now: real, trialDays: nat)
    requires Sold(plan, cycle) && 1 <= periods
    modifies store`subscriptions, store`requests
    ensures store.Accounts() == Operated(old(store.Accounts()), tenant, plan, cycle, periods, now, trialDays)
    ensures store.requests == Answered(old(store.requests), tenant, "fulfilled")
  {
    var current := GetOrCreateSubscription(store, tenant, now, trialDays);
    store.SaveSubscription(tenant, Subscription(plan, cycle, Active, Some(PaidPeriodEnd(Some(current), plan, cycle, periods, now))));
    var changed := store.SetUpgradeRequestsStatus("fulfilled", tenant);
  }

  /** `expire` of the operator's tool: access ends now, and stays ended. */
  method Expire(store: Store, tenant: string, now: real, trialDays: nat)
    modifies store`subscriptions
    ensures tenant in store.subscriptions
    ensures var was := CurrentOf(Ensured(old(store.Accounts()), tenant, now, trialDays), tenant).value;
            store.subscriptions == old(store.subscriptions)[tenant := was.(status := Expired, end := Some(now))]
    ensures forall later :: EffectiveStatus(store.subscriptions[tenant], later) == Expired
  {
    var current := GetOrCreateSubscription(store, tenant, now, trialDays);
    store.SaveSubscription(tenant, current.(status := Expired, end := Some(now)));
  }
}
