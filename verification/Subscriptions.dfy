/** The subscription of a workspace, created on first use (app/plans.py). */
module Subscriptions {
  import opened Wrappers
  import opened Workspaces
  import opened Plans
  import opened SqliteStore
  import Ledger

  /** `start_trial`: Pro, until the trial days are over, unless there is a subscription. */
  method StartTrial(store: Store, tenant: string, now: real, trialDays: nat) returns (sub: Subscription)
    modifies store`subscriptions
    ensures Some(sub) == Ledger.CurrentOf(store.Accounts(), tenant)
    ensures store.subscriptions == if tenant in old(store.subscriptions) then old(store.subscriptions)
                                   else old(store.subscriptions)[tenant := Subscription(Pro, Monthly, Trial, Some(now + trialDays as real))]
  {
    sub := store.EnsureSubscription(tenant, Subscription(Pro, Monthly, Trial, Some(now + trialDays as real)));
  }

  /** `get_or_create_subscription`. Its read changes nothing and its insert nothing that is there, so
      together they are the one step that the ledger has. */
  method GetOrCreateSubscription(store: Store, tenant: string, now: real, trialDays: nat) returns (sub: Subscription)
    modifies store`subscriptions
    ensures store.Accounts() == Ledger.Ensured(old(store.Accounts()), tenant, now, trialDays)
    ensures Some(sub) == Ledger.CurrentOf(store.Accounts(), tenant)
    ensures tenant !in old(store.subscriptions) ==>
              sub == if tenant == "default" then Subscription(Agency, Annual, Active, None)
                     else Subscription(Pro, Monthly, Trial, Some(now + trialDays as real))
  {
    var found := store.GetSubscription(tenant);
    if found.Some? {
      return found.value;
    }
    if tenant == DEFAULT_TENANT {
      sub := store.EnsureSubscription(tenant, Subscription(Agency, Annual, Active, None));
    } else {
      sub := StartTrial(store, tenant, now, trialDays);
    }
  }
}
