/**
 The store (db/sqlite_store.py): the tables as fields, and every method as one atomic step that reads
 the clock once (`now`). Each method is tied to the function that specifies its step; the promises
 about runs of such steps are proved of those functions.
 */
module SqliteStore {
  import opened Wrappers
  import opened Workspaces
  import opened Timestamps
  import opened Tasks
  import opened Plans
  import Channels
  import Codes
  import Comments
  import Ledger
  import Slugs
  import Usage

  /** A row of `upgrade_requests`. */
  datatype Request = Request(id: string, tenant: string, plan: Plan, cycle: Cycle, status: string)

  /** The UPDATE of `set_upgrade_requests_status` with its default `from_status`. */
  function Answered(requests: seq<Request>, tenant: string, status: string): (r: seq<Request>)
    ensures |r| == |requests|
  {
    if requests == [] then [] else
    var last := requests[|requests| - 1];
    Answered(requests[..|requests| - 1], tenant, status)
      + [if last.tenant == tenant && last.status == "pending" then last.(status := status) else last]
  }

  function Pending(requests: seq<Request>, tenant: string): nat {
    if requests == [] then 0 else
    var last := requests[|requests| - 1];
    Pending(requests[..|requests| - 1], tenant) + (if last.tenant == tenant && last.status == "pending" then 1 else 0)
  }

  /** Answering leaves nothing pending and the requests of others alone. */
  lemma {:induction false} AnsweredIsAnswered(requests: seq<Request>, tenant: string, status: string)
    requires status != "pending"
    ensures Pending(Answered(requests, tenant, status), tenant) == 0
    ensures forall i | 0 <= i < |requests| && (requests[i].tenant != tenant || requests[i].status != "pending") ::
              Answered(requests, tenant, status)[i] == requests[i]
    ensures forall i | 0 <= i < |requests| && requests[i].tenant == tenant && requests[i].status == "pending" ::
              Answered(requests, tenant, status)[i] == requests[i].(status := status)
  {
    if requests != [] {
      var n := |requests| - 1;
      AnsweredIsAnswered(requests[..n], tenant, status);
      OneMoreAnswered(requests, tenant, status);
    }
  }

  lemma OneMoreAnswered(requests: seq<Request>, tenant: string, status: string)
    requires requests != [] && status != "pending"
    ensures var n, before := |requests| - 1, Answered(requests[..|requests| - 1], tenant, status);
            var after := Answered(requests, tenant, status);
            && after[..n] == before && (forall i | 0 <= i < n :: after[i] == before[i] && requests[..n][i] == requests[i])
            && after[n] == (if requests[n].tenant != tenant || requests[n].status != "pending" then requests[n]
                            else requests[n].(status := status))
            && Pending(after, tenant) == Pending(before, tenant)
  {
    var n, before, after := |requests| - 1, Answered(requests[..|requests| - 1], tenant, status), Answered(requests, tenant, status);
    assert after[..n] == before;
  }

  function PendingPlaces(requests: seq<Request>, tenant: string): set<int> {
    set i | 0 <= i < |requests| && requests[i].tenant == tenant && requests[i].status == "pending"
  }

  lemma OneMorePlace(requests: seq<Request>, tenant: string)
    requires requests != []
    ensures var n := |requests| - 1;
            && PendingPlaces(requests, tenant) ==
               PendingPlaces(requests[..n], tenant) + (if requests[n].tenant == tenant && requests[n].status == "pending" then {n} else {})
            && n !in PendingPlaces(requests[..n], tenant)
  {
    var n := |requests| - 1;
    var earlier := requests[..n];
    assert forall i | 0 <= i < n :: earlier[i] == requests[i];
  }

  /** How many were pending: the places of those that were. */
  lemma {:induction false} PendingAreCounted(requests: seq<Request>, tenant: string)
    ensures Pending(requests, tenant) == |PendingPlaces(requests, tenant)|
  {
    hide PendingPlaces;
    if requests != [] {
      PendingAreCounted(requests[..|requests| - 1], tenant);
      OneMorePlace(requests, tenant);
    } else {
      NoPlaces(tenant);
    }
  }

  lemma NoPlaces(tenant: string)
    ensures PendingPlaces([], tenant) == {}
  {
  }

  /** `apply_payment`, for any closure: the ledger row is inserted once, and what the closure decides
      is written with it. */
  function Settled(a: Ledger.Accounts, payment: Ledger.Payment, activate: Option<Subscription> -> Option<Subscription>): Ledger.Accounts {
    if Ledger.Recorded(a.payments, payment.id) then a
    else
      var update := activate(Ledger.CurrentOf(a, payment.tenant));
      a.(payments := a.payments + [payment.(end := if update.Some? then update.value.end else None)],
         subscriptions := if update.Some? then a.subscriptions[payment.tenant := update.value] else a.subscriptions)
  }

  class Store {
    var tasks: TaskTable
    var drafts: set<string>
    var tenants: Slugs.Tenants
    var subscriptions: map<string, Subscription>
    var payments: seq<Ledger.Payment>
    var requests: seq<Request>
    var usage: map<string, Usage.UsageRow>
    var codes: Codes.Table
    var accounts: Channels.Accounts
    var comments: Comments.Table

    /** A new database: nothing but the default workspace and its house account. */
    constructor ()
      ensures WellKept(tasks) && tasks.rows == map[] && Slugs.DistinctSlugs(tenants) && Ledger.Balanced(Accounts())
      ensures tenants == map[DEFAULT_TENANT := Slugs.Tenant("Default Workspace", Some(DEFAULT_TENANT))]
      ensures subscriptions == map[DEFAULT_TENANT := Subscription(Agency, Annual, Active, None)] && payments == [] && requests == []
      ensures drafts == {} && usage == map[] && codes == map[] && accounts == map[] && comments == map[]
    {
      tasks, drafts, payments, requests := EMPTY_TASKS, {}, [], [];
      usage, codes, accounts, comments := map[], map[], map[], map[];
      tenants := map[DEFAULT_TENANT := Slugs.Tenant("Default Workspace", Some(DEFAULT_TENANT))];
      subscriptions := map[DEFAULT_TENANT := Subscription(Agency, Annual, Active, None)];
    }

    function UsageOf(tenant: string): Option<Usage.UsageRow>
      reads this`usage
    {
      if tenant in usage then Some(usage[tenant]) else None
    }

    /** What the billing functions work on. */
    function Accounts(): Ledger.Accounts
      reads this`tenants, this`subscriptions, this`payments
    {
      Ledger.Accounts(tenants.Keys, subscriptions, payments)
    }

    // ---------------------------------------------------------------- tasks

    /** `save_task`; false where the program raises CrossTenantWriteError. */
    method SaveTask(task: PublishTask, now: nat) returns (ok: bool)
      modifies this`tasks
      ensures tasks == Save(old(tasks), task, now) && ok == SaveAllowed(old(tasks), task)
    {
      if task.id !in tasks.rows {
        tasks := TaskTable(tasks.rows[task.id := SavedRow(task, now)], tasks.order + [task.id]);
      } else if tasks.rows[task.id].tenant == task.tenant {
        tasks := tasks.(rows := tasks.rows[task.id := SavedRow(task, now)]);
      } else {
        return false;
      }
      ok := true;
    }

    method GetTaskAnyTenant(id: string) returns (task: Option<PublishTask>)
      ensures task.Some? <==> id in tasks.rows
      ensures task.Some? ==> task.value == Load(tasks.rows[id])
    {
      task := if id in tasks.rows then Some(Load(tasks.rows[id])) else None;
    }

    /** `claim_task`. */
    method ClaimTask(id: string, expected: Status, next: Status, now: nat) returns (won: bool)
      modifies this`tasks
      ensures tasks == Claim(old(tasks), id, expected, next, now) && won == Claimable(old(tasks), id, expected)
    {
      if id !in tasks.rows || tasks.rows[id].status != StatusText(expected) {
        return false;
      }
      var row := tasks.rows[id];
      var task := Load(row);
      task := task.(status := next, updatedAt := Some(now));
      if next == Publishing {
        task := task.(attempts := task.attempts + 1);
      }
      tasks := tasks.(rows := tasks.rows[id := row.(status := StatusText(next), payload := task, updatedAt := Some(IsoOfInstant(now)))]);
      won := true;
    }

    /** The earliest of some due tasks. */
    method Earliest(due: set<string>) returns (first: string)
      requires due != {} && forall id | id in due :: id in tasks.rows && tasks.rows[id].scheduledAt.Some?
      ensures first in due
      ensures forall id | id in due :: TextAtMost(tasks.rows[first].scheduledAt.value, tasks.rows[id].scheduledAt.value)
    {
      first :| first in due;
      var seen, rest := {first}, due - {first};
      while rest != {}
        invariant seen + rest == due && first in seen
        invariant forall id | id in seen :: TextAtMost(tasks.rows[first].scheduledAt.value, tasks.rows[id].scheduledAt.value)
        decreases rest
      {
        var next :| next in rest;
        var a, b := tasks.rows[first].scheduledAt.value, tasks.rows[next].scheduledAt.value;
        TextTotal(a, b);
        if TextBefore(b, a) {
          forall id | id in seen ensures TextAtMost(b, tasks.rows[id].scheduledAt.value) {
            TextTransitive(b, a, tasks.rows[id].scheduledAt.value);
          }
          first := next;
        }
        seen, rest := seen + {next}, rest - {next};
      }
    }

    /** `list_due_tasks`: WHERE over the columns, ORDER BY scheduled_at, LIMIT. */
    method ListDueTasks(now: nat, limit: nat) returns (ids: seq<string>)
      ensures AnswersByColumns(tasks.rows, now, limit, ids)
    {
      var rows := tasks.rows;
      var rest := set id | id in rows && DueByColumns(rows[id], now);
      ids := [];
      while rest != {} && |ids| < limit
        invariant |ids| <= limit && Distinct(ids)
        invariant forall i | 0 <= i < |ids| :: ids[i] !in rest && ids[i] in rows && DueByColumns(rows[ids[i]], now)
        invariant forall id | id in rest :: id in rows && DueByColumns(rows[id], now)
        invariant forall id | id in rows && DueByColumns(rows[id], now) :: id in rest || id in ids
        invariant forall i, j | 0 <= i < j < |ids| :: TextAtMost(rows[ids[i]].scheduledAt.value, rows[ids[j]].scheduledAt.value)
        invariant forall i, id | 0 <= i < |ids| && id in rest :: TextAtMost(rows[ids[i]].scheduledAt.value, rows[id].scheduledAt.value)
        decreases rest
      {
        var first := Earliest(rest);
        ids, rest := ids + [first], rest - {first};
      }
    }

    /** `list_recoverable_tasks`. */
    method ListRecoverableTasks(before: nat) returns (ids: seq<string>)
      ensures Distinct(ids) && forall id :: id in ids <==> id in tasks.rows && StaleByColumns(tasks.rows[id], before)
    {
      var rows := tasks.rows;
      var rest := set id | id in rows && StaleByColumns(rows[id], before);
      ids := [];
      while rest != {}
        invariant Distinct(ids) && forall i | 0 <= i < |ids| :: ids[i] !in rest
        invariant forall id :: id in rest || id in ids <==> id in rows && StaleByColumns(rows[id], before)
        decreases rest
      {
        var id :| id in rest;
        ids, rest := ids + [id], rest - {id};
      }
    }

    // -------------------------------------------------------------- tenants

    /** `create_tenant`; the caller brings the new id and the slugified name. */
    method CreateTenant(id: string, name: string, base: string) returns (slug: string)
      requires id !in tenants && Slugs.DistinctSlugs(tenants)
      modifies this`tenants
      ensures tenants == old(tenants)[id := Slugs.Tenant(name, Some(slug))] && Slugs.DistinctSlugs(tenants)
      ensures exists k :: Slugs.LeastFree(base, Slugs.SlugsOf(old(tenants)), k) && slug == Slugs.Candidate(base, k)
    {
      var slugs := Slugs.SlugsOf(tenants);
      var candidate, suffix := base, 1;
      while candidate in slugs
        invariant tenants == old(tenants)
        invariant 1 <= suffix && candidate == Slugs.Candidate(base, suffix) && Slugs.Tried(base, suffix) <= slugs
        decreases |slugs| + 1 - suffix
      {
        Slugs.TriedGrows(base, suffix);
        Slugs.SearchEnds(base, suffix + 1, slugs);
        suffix := suffix + 1;
        candidate := base + "-" + Slugs.Decimal(suffix);
      }
      assert Slugs.LeastFree(base, slugs, suffix);
      Slugs.NewSlugKeepsDistinct(tenants, id, name, candidate);
      tenants := tenants[id := Slugs.Tenant(name, Some(candidate))];
      slug := candidate;
    }

    // -------------------------------------------------------------- billing

    method GetSubscription(tenant: string) returns (sub: Option<Subscription>)
      ensures sub == Ledger.CurrentOf(Accounts(), tenant)
    {
      sub := if tenant in subscriptions then Some(subscriptions[tenant]) else None;
    }

    /** `ensure_subscription`: INSERT OR IGNORE, and what is there then. */
    method EnsureSubscription(tenant: string, first: Subscription) returns (sub: Subscription)
      modifies this`subscriptions
      ensures subscriptions == if tenant in old(subscriptions) then old(subscriptions) else old(subscriptions)[tenant := first]
      ensures tenant in subscriptions && sub == subscriptions[tenant]
    {
      if tenant !in subscriptions {
        subscriptions := subscriptions[tenant := first];
      }
      sub := subscriptions[tenant];
    }

    /** `save_subscription`. */
    method SaveSubscription(tenant: string, sub: Subscription)
      modifies this`subscriptions
      ensures subscriptions == old(subscriptions)[tenant := sub]
    {
      subscriptions := subscriptions[tenant := sub];
    }

    /** `apply_payment`; None when the session was applied before. */
    method ApplyPayment(payment: Ledger.Payment, activate: Option<Subscription> -> Option<Subscription>) returns (row: Option<Ledger.Payment>)
      modifies this`subscriptions, this`payments
      ensures Accounts() == Settled(old(Accounts()), payment, activate)
      ensures row.None? <==> Ledger.Recorded(old(payments), payment.id)
      ensures row.Some? ==> payments == old(payments) + [row.value]
    {
      if Ledger.Recorded(payments, payment.id) {
        return None;
      }
      var update := activate(if payment.tenant in subscriptions then Some(subscriptions[payment.tenant]) else None);
      var written := payment.(end := None);
      if update.Some? {
        written := written.(end := update.value.end);
        subscriptions := subscriptions[payment.tenant := update.value];
      }
      payments := payments + [written];
      row := Some(written);
    }

    /** `set_upgrade_requests_status`. */
    method SetUpgradeRequestsStatus(status: string, tenant: string) returns (changed: nat)
      modifies this`requests
      ensures requests == Answered(old(requests), tenant, status) && changed == Pending(old(requests), tenant)
    {
      var i, done := 0, [];
      changed := 0;
      while i < |requests|
        invariant 0 <= i <= |requests| && requests == old(requests)
        invariant changed == Pending(requests[..i], tenant) && done == Answered(requests[..i], tenant, status)
      {
        var r := requests[i];
        assert requests[..i + 1][..i] == requests[..i];
        if r.tenant == tenant && r.status == "pending" {
          r := r.(status := status);
          changed := changed + 1;
        }
        done := done + [r];
        i := i + 1;
      }
      assert requests[..|requests|] == requests;
      requests := done;
    }

    // ---------------------------------------------------------------- usage

    /** `increment_ai_runs`: INSERT OR IGNORE, then the guarded UPDATE. */
    method IncrementAiRuns(tenant: string, limit: Option<int>, now: nat) returns (count: Option<nat>)
      modifies this`usage
      ensures UsageOf(tenant) == Some(Usage.Increment(old(UsageOf(tenant)), now, limit).0)
      ensures count == Usage.Increment(old(UsageOf(tenant)), now, limit).1
      ensures usage == old(usage)[tenant := UsageOf(tenant).value]
    {
      if tenant !in usage {
        usage := usage[tenant := Usage.UsageRow(0, now, now + Usage.CYCLE)];
      }
      var row := usage[tenant];
      if limit.Some? && now <= row.cycleEnd && row.count >= limit.value {
        return None;
      }
      if now > row.cycleEnd {
        row := Usage.UsageRow(1, now, now + Usage.CYCLE);
      } else {
        row := row.(count := row.count + 1);
      }
      usage := usage[tenant := row];
      count := Some(row.count);
    }

    /** `release_ai_run`. */
    method ReleaseAiRun(tenant: string, now: nat)
      modifies this`usage
      ensures UsageOf(tenant) == Usage.Release(old(UsageOf(tenant)), now)
      ensures forall k | k != tenant :: UsageOf(k) == old(UsageOf(k))
    {
      if tenant in usage && usage[tenant].count > 0 && now <= usage[tenant].cycleEnd {
        usage := usage[tenant := usage[tenant].(count := usage[tenant].count - 1)];
      }
    }

    // ---------------------------------------------------------------- codes

    method SaveVerificationCode(key: Codes.Key, hash: string, expires: nat, now: nat)
      modifies this`codes
      ensures codes == Codes.Saved(old(codes), key, hash, expires, now)
    {
      codes := codes - Codes.Outdated(codes, now);
      codes := codes[key := Codes.CodeRow(hash, 0, expires, now)];
    }

    method RecordVerificationFailure(key: Codes.Key) returns (attempts: nat)
      modifies this`codes
      ensures codes == Codes.Failed(old(codes), key) && attempts == Codes.FailureCount(old(codes), key)
    {
      if key !in codes {
        return 0;
      }
      attempts := codes[key].attempts + 1;
      codes := codes[key := codes[key].(attempts := attempts)];
    }

    /** `delete_verification_code` with a hash. */
    method DeleteVerificationCode(key: Codes.Key, hash: string) returns (deleted: bool)
      modifies this`codes
      ensures codes == Codes.Deleted(old(codes), key, hash) && deleted == Codes.Deletes(old(codes), key, hash)
    {
      deleted := key in codes && codes[key].hash == hash;
      if deleted {
        codes := codes - {key};
      }
    }

    // ---------------------------------------------------- accounts, comments

    /** `save_connected_account` with its default status, for a platform name in lower case: look the row
        up, then update it or insert one. */
    method SaveConnectedAccount(id: Channels.AccountId, user: string, name: string, token: string, permissions: seq<string>, stamp: Channels.Stamp)
      modifies this`accounts
      ensures accounts == Channels.Upserted(old(accounts), id, user, name, token, permissions, stamp)
    {
      if id in accounts {
        accounts := accounts[id := accounts[id].(user := user, name := name, token := token, status := "connected",
                                                 permissions := permissions, updatedAt := stamp.at)];
      } else {
        accounts := accounts[id := Channels.Account(stamp.rowId, user, name, token, "connected", permissions, stamp.at, stamp.at)];
      }
    }

    /** `save_page_comment`. */
    method SavePageComment(c: Comments.Comment, tenant: string, now: nat)
      modifies this`comments
      ensures comments == Comments.Saved(old(comments), tenant, c, now)
    {
      var key, row := (tenant, c.commentId), Comments.CommentRow(Comments.Inserted(c), now, now);
      if key in comments {
        var was := comments[key];
        row := Comments.CommentRow(Comments.Merged(was.comment, c), was.createdAt, now);
      }
      comments := comments[key := row];
    }
  }
}
