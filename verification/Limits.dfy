/**
 Plan enforcement (app/dependencies/limits.py): the gate a request carries, its AI runs and its
 channel slots.
 */
module Limits {
  import opened Wrappers
  import opened Plans
  import opened SqliteStore
  import opened Subscriptions
  import opened Channels
  import Usage
  import Ledger

  /** `plan["ai_runs"]` and `plan["channels"]`; an unknown plan counts as Pro. */
  function AiLimit(plan: Plan): Option<int> {
    if plan == Agency then None else Some(300)
  }

  function ChannelLimit(plan: Plan): Option<nat> {
    if plan == Agency then None else Some(3)
  }

  /** What a request's work came to, as `produced_ai_output` looks at it. */
  datatype Work = Work(status: string, drafts: seq<string>)

  /** Did the model write any of it? */
  method ProducedAiOutput(result: Work) returns (produced: bool)
    ensures produced <==> result.status == "ai_generated" || "ai_generated" in result.drafts
  {
    if result.status == "ai_generated" {
      return true;
    }
    for i := 0 to |result.drafts|
      invariant "ai_generated" !in result.drafts[..i]
    {
      if result.drafts[i] == "ai_generated" {
        return true;
      }
    }
    assert result.drafts[..|result.drafts|] == result.drafts;
    produced := false;
  }

  class AIRun {
    const store: Store
    const tenant: string
    var refunded: bool

    constructor (store: Store, tenant: string)
      ensures this.store == store && this.tenant == tenant && !refunded
    {
      this.store, this.tenant, refunded := store, tenant, false;
    }

    /** `refund`: gives the run back the first time, and does nothing after that. */
    method Refund(now: nat)
      modifies this`refunded, store`usage
      ensures refunded
      ensures store.UsageOf(tenant) == if old(refunded) then old(store.UsageOf(tenant)) else Usage.Release(old(store.UsageOf(tenant)), now)
      ensures forall k | k != tenant :: store.UsageOf(k) == old(store.UsageOf(k))
    {
      if !refunded {
        store.ReleaseAiRun(tenant, now);
        refunded := true;
      }
    }

    /** `keep_if_ai`. */
    method KeepIfAi(result: Work, now: nat)
      modifies this`refunded, store`usage
      ensures var refunds := !old(refunded) && result.status != "ai_generated" && "ai_generated" !in result.drafts;
              && refunded == (old(refunded) || refunds)
              && store.UsageOf(tenant) == if refunds then Usage.Release(old(store.UsageOf(tenant)), now) else old(store.UsageOf(tenant))
      ensures forall k | k != tenant :: store.UsageOf(k) == old(store.UsageOf(k))
    {
      var produced := ProducedAiOutput(result);
      if !produced {
        Refund(now);
      }
    }
  }

  class PlanGate {
    const store: Store
    const tenant: string
    const subscription: Subscription
    const status: SubStatus
    var channels: Option<set<ChannelKey>>

    constructor (store: Store, tenant: string, subscription: Subscription, now: real)
      ensures this.store == store && this.tenant == tenant && this.subscription == subscription && channels == None
      ensures status == EffectiveStatus(subscription, now)
    {
      this.store, this.tenant, this.subscription, channels := store, tenant, subscription, None;
      status := EffectiveStatus(subscription, now);
    }

    predicate IsActive() {
      status == Active || status == Trial
    }

    /** `check_ai_quota`; false is the refusal. */
    method CheckAiQuota(now: nat) returns (ok: bool)
      ensures ok <==> subscription.plan == Agency || Usage.CurrentRuns(store.UsageOf(tenant), now) < 300
    {
      var limit := AiLimit(subscription.plan);
      var runs := Usage.CurrentRuns(store.UsageOf(tenant), now);
      ok := limit.None? || runs < limit.value;
    }

    /** An `ai_run` block: one run taken, or the block refused; and for all the times its body, or the
        exception that leaves it, asks for a refund, at most one run given back. */
    method AiRunBlock(takenAt: nat, refunds: seq<nat>) returns (entered: bool)
      modifies store`usage
      ensures var taken := Usage.Increment(old(store.UsageOf(tenant)), takenAt, AiLimit(subscription.plan));
              && entered == taken.1.Some?
              && (entered <==> subscription.plan == Agency || Usage.CurrentRuns(old(store.UsageOf(tenant)), takenAt) < 300)
              && store.UsageOf(tenant) == if entered && refunds != [] then Usage.Release(Some(taken.0), refunds[0]) else Some(taken.0)
      ensures forall k | k != tenant :: store.UsageOf(k) == old(store.UsageOf(k))
    {
      CheckedRunIsTaken(store.UsageOf(tenant), takenAt, subscription.plan);
      var count := store.IncrementAiRuns(tenant, AiLimit(subscription.plan), takenAt);
      if count.None? {
        return false;
      }
      ghost var taken := store.UsageOf(tenant);
      var run := new AIRun(store, tenant);
      for i := 0 to |refunds|
        invariant run.store == store && run.tenant == tenant && run.refunded == (i > 0)
        invariant store.UsageOf(tenant) == if i > 0 then Usage.Release(taken, refunds[0]) else taken
        invariant forall k | k != tenant :: store.UsageOf(k) == old(store.UsageOf(k))
      {
        run.Refund(refunds[i]);
      }
      entered := true;
    }

    /** The keys the gate goes by: the cached ones, or those of the rows. */
    function Keys(): set<ChannelKey>
      reads this`channels, store`accounts
    {
      if channels.Some? then channels.value else ConnectedKeys(store.accounts, tenant)
    }

    /** `channel_keys`. */
    method ChannelKeys() returns (keys: set<ChannelKey>)
      modifies this`channels
      ensures keys == old(Keys()) && channels == Some(keys)
    {
      if channels.None? {
        channels := Some(ConnectedKeys(store.accounts, tenant));
      }
      keys := channels.value;
    }

    /** `require_channel_slot`; false is the refusal. */
    method RequireChannelSlot(platform: string, accountId: string) returns (ok: bool)
      modifies this`channels
      ensures var limit, key := ChannelLimit(subscription.plan), KeyOf(platform, accountId);
              if limit.None? then ok && channels == old(channels)
              else ok == Admits(old(Keys()), limit.value, key)
                   && channels == Some(if ok then old(Keys()) + {key} else old(Keys()))
      ensures ok <==> subscription.plan == Agency || KeyOf(platform, accountId) in old(Keys()) || |old(Keys())| < 3
    {
      var limit := ChannelLimit(subscription.plan);
      if limit.None? {
        return true;
      }
      var key := KeyOf(platform, accountId);
      var keys := ChannelKeys();
      if key in keys {
        assert keys + {key} == keys;
        return true;
      }
      if |keys| >= limit.value {
        return false;
      }
      channels := Some(keys + {key});
      ok := true;
    }
  }

  /** `load_plan_gate`. */
  method LoadPlanGate(store: Store, tenant: string, now: real, trialDays: nat) returns (gate: PlanGate)
    modifies store`subscriptions
    ensures fresh(gate) && gate.store == store && gate.tenant == tenant && gate.channels == None
    ensures store.Accounts() == Ledger.Ensured(old(store.Accounts()), tenant, now, trialDays)
    ensures Some(gate.subscription) == Ledger.CurrentOf(store.Accounts(), tenant)
    ensures gate.status == EffectiveStatus(gate.subscription, now)
  {
    var subscription := GetOrCreateSubscription(store, tenant, now, trialDays);
    gate := new PlanGate(store, tenant, subscription, now);
  }

  datatype Entry = Entered | SubscriptionRequired | AiLimitReached

  /** The dependency that `verify_plan_limit` makes, with or without the check of the AI quota: what it
      answers says whether the workspace is paid up at that time and has a run left. */
  method VerifyPlanLimit(store: Store, tenant: string, aiGeneration: bool, now: real, usageNow: nat, trialDays: nat)
    returns (entry: Entry, gate: PlanGate)
    modifies store`subscriptions
    ensures fresh(gate) && gate.store == store && gate.tenant == tenant && gate.channels == None
    ensures store.Accounts() == Ledger.Ensured(old(store.Accounts()), tenant, now, trialDays)
    ensures Some(gate.subscription) == Ledger.CurrentOf(store.Accounts(), tenant)
    ensures var sub := gate.subscription;
            entry == SubscriptionRequired <==>
              !(sub.status == Active || sub.status == Trial) || (sub.end.Some? && sub.end.value <= now)
    ensures entry == AiLimitReached <==>
              entry != SubscriptionRequired && aiGeneration
              && gate.subscription.plan != Agency && Usage.CurrentRuns(store.UsageOf(tenant), usageNow) >= 300
    ensures entry == AiLimitReached <==>
              entry != SubscriptionRequired && aiGeneration
              && Usage.Increment(store.UsageOf(tenant), usageNow, AiLimit(gate.subscription.plan)).1.None?
    ensures tenant in old(store.subscriptions) ==> gate.subscription == old(store.subscriptions)[tenant]
    ensures tenant !in old(store.subscriptions) && !aiGeneration ==>
              (entry == Entered <==> tenant == "default" || 0 < trialDays)
  {
    gate := LoadPlanGate(store, tenant, now, trialDays);
    if !gate.IsActive() {
      entry := SubscriptionRequired;
      return;
    }
    entry := Entered;
    if aiGeneration {
      CheckedRunIsTaken(store.UsageOf(tenant), usageNow, gate.subscription.plan);
      var ok := gate.CheckAiQuota(usageNow);
      if !ok {
        entry := AiLimitReached;
      }
    }
  }

  /** A request that passes the quota check while no other takes a run gets its run. */
  lemma CheckedRunIsTaken(row: Option<Usage.UsageRow>, now: nat, plan: Plan)
    ensures (AiLimit(plan).None? || Usage.CurrentRuns(row, now) < AiLimit(plan).value) <==> Usage.Increment(row, now, AiLimit(plan)).1.Some?
  {
    Usage.CheckAgreesWithUpdate(row, now, 300);
  }
}
