/**
 The scheduler service (app/scheduler.py) and the publisher it calls (agents/publisher.py), as they
 change a task and the store. Clock readings, platform answers and exceptions come in as arguments.
 */
module Scheduler {
  import opened Wrappers
  import opened Timestamps
  import opened Tasks
  import opened Lifecycle
  import opened Visits
  import opened SqliteStore

  class PublisherAgent {
    constructor () {}

    /** `publish`. */
    method Publish(claimed: PublishTask, outcome: Outcome, now: nat) returns (task: PublishTask)
      ensures task == PublishedTask(claimed, outcome, now)
    {
      task := claimed.(status := Publishing);
      task := task.(logs := task.logs + [PublishLog("INFO", "Publishing started", "")]);
      match outcome
      case Crashed(error) =>
        task := task.(status := Failed, error := Some(error), badge := Some(FAILED_BADGE));
        task := task.(logs := task.logs + [PublishLog("ERROR", "Publish failed with an unexpected error", "")]);
      case Rejected(reason, badge, mode) =>
        task := task.(status := Failed, error := Or(reason, Some("Publish failed")), badge := Or(badge, Some(FAILED_BADGE)));
        task := task.(logs := task.logs + [PublishLog("ERROR", "Publish failed", mode)]);
      case Accepted(externalPostId, id, url, badge, note, mode) =>
        task := task.(status := Published, publishedAt := Some(now), error := None, externalPostId := PostId(task, outcome));
        if url.Some? && url.value != "" {
          task := task.(postUrl := url);
        } else if mode == "live_facebook" {
          task := task.(postUrl := Some("https://www.facebook.com/" + task.externalPostId.GetOr("")));
        }
        if badge.Some? && badge.value != "" {
          task := task.(badge := badge);
        }
        if note.Some? && note.value != "" {
          task := task.(error := note);
        }
        task := task.(logs := task.logs + [PublishLog("INFO", if mode == "live_facebook" then "Publish succeeded" else "Publish completed (simulated)", mode)]);
    }
  }

  class SchedulerService {
    const store: Store
    const publisher: PublisherAgent
    const cfg: Config
    const batchSize: nat

    constructor (store: Store, publisher: PublisherAgent, cfg: Config, batchSize: nat)
      ensures this.store == store && this.publisher == publisher && this.cfg == cfg && this.batchSize == batchSize
    {
      this.store, this.publisher, this.cfg, this.batchSize := store, publisher, cfg, batchSize;
    }

    /** `_fail`. */
    method Fail(task: PublishTask, message: string, now: nat)
      modifies store`tasks
      ensures store.tasks == Save(old(store.tasks), FailedTask(task, message), now)
    {
      var failed := task.(status := Failed, error := Some(message));
      if failed.badge.None? || failed.badge.value == "" {
        failed := failed.(badge := Some(FAILED_BADGE));
      }
      failed := failed.(logs := failed.logs + [PublishLog("ERROR", message, "")]);
      var ok := store.SaveTask(failed, now);
    }

    /** `_is_transient`: the newest entry with a mode decides. */
    method TransientFailure(task: PublishTask) returns (transient: bool)
      ensures transient == IsTransient(task)
    {
      var i := |task.logs|;
      assert task.logs[..i] == task.logs;
      while i > 0
        invariant 0 <= i <= |task.logs| && NewestMode(task.logs[..i]) == NewestMode(task.logs)
      {
        i := i - 1;
        assert task.logs[..i + 1][..i] == task.logs[..i];
        if task.logs[i].mode != "" {
          return task.logs[i].mode == "network_exception";
        }
      }
      transient := false;
    }

    /** `_finalize`. */
    method Finalize(published: PublishTask, decidedAt: nat, savedAt: nat)
      modifies store`tasks
      ensures store.tasks == Save(old(store.tasks), FinalTask(published, decidedAt, cfg), savedAt)
    {
      var task := published;
      var transient := TransientFailure(task);
      if task.status == Failed && transient && task.attempts < cfg.maxAttempts {
        var wait := Delay(cfg, task.attempts);
        task := task.(status := Status.Scheduled, scheduledAt := Some(decidedAt + wait));
        task := task.(logs := task.logs + [PublishLog("WARNING", "Transient failure; will retry", "")]);
      }
      var ok := store.SaveTask(task, savedAt);
    }

    /** The except branch of `run_task`. */
    method HandleException(id: string, task: PublishTask, error: string, now: nat)
      requires id in store.tasks.rows
      modifies store`tasks
      ensures store.tasks == Save(old(store.tasks), FailedTask(Load(old(store.tasks).rows[id]), "Unexpected scheduler error: " + error), now)
    {
      var current := store.GetTaskAnyTenant(id);
      Fail(current.GetOr(task), "Unexpected scheduler error: " + error, now);
    }

    /** `run_task`: it ends as the visit does, and reports whether it won the claim. */
    method RunTask(id: string, v: Visit) returns (ran: bool)
      modifies store`tasks
      ensures store.tasks == AfterVisit(old(store.tasks), id, v, store.drafts, cfg)
      ensures ran == Claimable(old(store.tasks), id, Status.Scheduled)
    {
      hide FailedTask, PublishedTask, FinalTask, Save;
      ran := store.ClaimTask(id, Status.Scheduled, Publishing, v.claimedAt);
      if !ran {
        return;
      }
      var found := store.GetTaskAnyTenant(id);
      var claimed := found.value;
      var task := claimed.(logs := claimed.logs + [PublishLog("INFO", "Claimed by scheduler", "")]);
      if v.trouble.AtCheck? {
        HandleException(id, task, v.trouble.error, v.savedAt);
      } else if task.scheduledAt.Some? && v.now - task.scheduledAt.value > cfg.maxLate {
        if v.trouble.AtSave? {
          HandleException(id, task, v.trouble.error, v.savedAt);
        } else {
          Fail(task, "Missed schedule window", v.savedAt);
        }
      } else if v.trouble.AtDraft? {
        HandleException(id, task, v.trouble.error, v.savedAt);
      } else if task.draftId !in store.drafts {
        if v.trouble.AtSave? {
          HandleException(id, task, v.trouble.error, v.savedAt);
        } else {
          Fail(task, "Draft not found", v.savedAt);
        }
      } else {
        var published := publisher.Publish(task, v.outcome, v.publishedAt);
        if v.trouble.AtFinish? || v.trouble.AtSave? {
          HandleException(id, task, v.trouble.error, v.savedAt);
        } else {
          Finalize(published, v.decidedAt, v.savedAt);
        }
      }
    }

    /** `recover_stuck_tasks`. */
    method RecoverStuckTasks(now: nat, repair: nat -> Repair) returns (recovered: nat, ghost stuck: seq<string>)
      requires WellKept(store.tasks)
      modifies store`tasks
      ensures store.tasks == AfterRecovery(old(store.tasks), stuck, RepairsOf(repair, |stuck|), cfg) && WellKept(store.tasks)
      ensures Distinct(stuck) && recovered == |stuck|
      ensures forall id :: id in stuck <==> id in old(store.tasks).rows && StaleByColumns(old(store.tasks).rows[id], Before(now))
      ensures forall id | id in stuck :: Repaired(old(store.tasks), store.tasks, id, cfg)
      ensures Sortable(Before(now)) ==>
                forall id | id in old(store.tasks).rows && Datable(old(store.tasks).rows[id]) ::
                  id in stuck <==> StuckSince(old(store.tasks).rows[id].payload, now, cfg)
      ensures store.tasks.rows.Keys == old(store.tasks).rows.Keys
      ensures forall id | id in store.tasks.rows && id !in stuck :: store.tasks.rows[id] == old(store.tasks).rows[id]
    {
      hide WellKept, AfterRepair, Repaired, Claim, Save, RecoveredTask;
      var ids := store.ListRecoverableTasks(Before(now));
      stuck := ids;
      recovered := 0;
      var i := 0;
      while i < |ids|
        invariant 0 <= i == recovered <= |ids|
        invariant store.tasks == AfterRecovery(old(store.tasks), ids[..i], RepairsOf(repair, i), cfg)
        invariant WellKept(store.tasks) && store.tasks.rows.Keys == old(store.tasks).rows.Keys
        invariant forall k | k in store.tasks.rows && k !in ids[..i] :: store.tasks.rows[k] == old(store.tasks).rows[k]
        invariant forall k | k in ids[..i] :: Repaired(old(store.tasks), store.tasks, k, cfg)
      {
        RecoveryTurn(ids, i, old(store.tasks), store.tasks, repair, cfg);
        var done := RecoverOne(ids[i], repair(i));
        if done {
          recovered := recovered + 1;
        }
        i := i + 1;
      }
      assert ids[..|ids|] == ids;
      if Sortable(Before(now)) {
        forall id | id in old(store.tasks).rows && Datable(old(store.tasks).rows[id])
          ensures id in stuck <==> StuckSince(old(store.tasks).rows[id].payload, now, cfg)
        {
          StuckIsExact(old(store.tasks), id, now, cfg);
        }
      }
    }

    function Before(now: nat): nat {
      CutOff(now, cfg)
    }

    /** The body of its loop. */
    method RecoverOne(id: string, r: Repair) returns (done: bool)
      modifies store`tasks
      ensures store.tasks == AfterRepair(old(store.tasks), id, r, cfg) && done == Claimable(old(store.tasks), id, Publishing)
    {
      done := store.ClaimTask(id, Publishing, Status.Scheduled, r.claimedAt);
      if done {
        var current := store.GetTaskAnyTenant(id);
        var task := current.value;
        if task.attempts >= cfg.maxAttempts {
          Fail(task, "Publishing interrupted; gave up", r.savedAt);
        } else {
          task := task.(logs := task.logs + [PublishLog("WARNING", "Recovered task stuck in 'publishing' (worker restart?)", "")]);
          var ok := store.SaveTask(task, r.savedAt);
        }
      }
    }

    /** The loop of `poll_once` over the tasks it listed. */
    method RunAll(ids: seq<string>, visit: nat -> Visit) returns (executed: nat)
      requires WellKept(store.tasks) && cfg.Valid() && Distinct(ids)
      requires forall i | 0 <= i < |ids| :: Claimable(store.tasks, ids[i], Status.Scheduled)
      modifies store`tasks
      ensures executed == |ids| && WellKept(store.tasks) && store.tasks.rows.Keys == old(store.tasks).rows.Keys
      ensures store.tasks == AfterRound(old(store.tasks), ids, VisitsOf(visit, |ids|), store.drafts, cfg)
      ensures forall i | 0 <= i < |ids| :: TriedOnce(old(store.tasks), store.tasks, ids[i], visit(i).decidedAt)
      ensures forall id | id in store.tasks.rows && id !in ids :: store.tasks.rows[id] == old(store.tasks).rows[id]
    {
      hide WellKept, AfterRound, AfterVisit, TriedOnce, Claimable;
      ghost var mended := store.tasks;
      NoRoundYet(mended, ids, visit, store.drafts, cfg);
      executed := 0;
      var i := 0;
      while i < |ids|
        invariant 0 <= i == executed <= |ids|
        invariant store.tasks == AfterRound(mended, ids[..i], VisitsOf(visit, i), store.drafts, cfg)
        invariant WellKept(store.tasks) && store.tasks.rows.Keys == mended.rows.Keys
        invariant forall k | k in store.tasks.rows && k !in ids[..i] :: store.tasks.rows[k] == mended.rows[k]
      {
        RoundTurn(ids, i, mended, store.tasks, visit, store.drafts, cfg);
        var ran := RunTask(ids[i], visit(i));
        if ran {
          executed := executed + 1;
        }
        i := i + 1;
      }
      assert ids[..|ids|] == ids;
      RoundMovesOn(mended, ids, VisitsOf(visit, |ids|), store.drafts, cfg);
    }

    /** `poll_once`: the recovery, then the first due tasks in order. Every task it lists is tried once
        and is afterwards done with or due only later; no stale task is left in `publishing`. */
    method PollOnce(leader: bool, recoverAt: nat, now: nat, repair: nat -> Repair, visit: nat -> Visit)
      returns (executed: nat, ghost stuck: seq<string>, ghost due: seq<string>)
      requires WellKept(store.tasks) && cfg.Valid()
      modifies store`tasks
      ensures WellKept(store.tasks) && store.tasks.rows.Keys == old(store.tasks).rows.Keys
      ensures !leader ==> store.tasks == old(store.tasks) && executed == 0
      ensures leader ==>
                var mended := AfterRecovery(old(store.tasks), stuck, RepairsOf(repair, |stuck|), cfg);
                && (forall id :: id in stuck <==> id in old(store.tasks).rows && StaleByColumns(old(store.tasks).rows[id], Before(recoverAt)))
                && (forall id | id in stuck :: Repaired(old(store.tasks), mended, id, cfg))
                && AnswersByColumns(mended.rows, now, batchSize, due) && executed == |due|
                && store.tasks == AfterRound(mended, due, VisitsOf(visit, |due|), store.drafts, cfg)
                && (forall i | 0 <= i < |due| :: TriedOnce(mended, store.tasks, due[i], visit(i).decidedAt))
                && (forall id | id in store.tasks.rows && id !in due :: id in mended.rows && store.tasks.rows[id] == mended.rows[id])
      ensures leader && Sortable(now) && (forall id | id in old(store.tasks).rows :: SortableRow(old(store.tasks).rows[id]))
              && (forall k: nat :: now <= visit(k).decidedAt) ==>
                var mended := AfterRecovery(old(store.tasks), stuck, RepairsOf(repair, |stuck|), cfg);
                forall id | id in mended.rows && DueByModel(mended.rows[id].payload, now) :: Served(mended, store.tasks, now, batchSize, due, id)
    {
      hide WellKept, AfterRecovery, AfterRound, AfterVisit, TriedOnce, Repaired, AnswersByColumns, Claimable;
      executed, stuck, due := 0, [], [];
      if !leader {
        return;
      }
      var recovered;
      recovered, stuck := RecoverStuckTasks(recoverAt, repair);
      var ids := store.ListDueTasks(now, batchSize);
      due := ids;
      ListedAreClaimable(store.tasks, now, batchSize, ids);
      ghost var mended := store.tasks;
      executed := RunAll(ids, visit);
      if Sortable(now) && (forall id | id in old(store.tasks).rows :: SortableRow(old(store.tasks).rows[id]))
         && (forall k: nat :: now <= visit(k).decidedAt) {
        SortableStay(old(store.tasks), mended, stuck, cfg);
        forall id | id in mended.rows && DueByModel(mended.rows[id].payload, now)
          ensures Served(mended, store.tasks, now, batchSize, due, id)
        {
          TickServesTheDue(mended, store.tasks, now, batchSize, due, visit, id);
        }
      }
    }
  }

  /** `now_fn() - stale_after`; an instant before the first there is counts as the first. */
  function CutOff(now: nat, cfg: Config): nat {
    if now < cfg.staleAfter then 0 else now - cfg.staleAfter
  }

  ghost predicate Datable(row: TaskRow) {
    row.payload.updatedAt.Some? ==> Sortable(row.payload.updatedAt.value)
  }

  /** In `publishing`, and last saved longer ago than the configured time. */
  predicate StuckSince(task: PublishTask, now: nat, cfg: Config) {
    task.status == Publishing && task.updatedAt.Some? && task.updatedAt.value + cfg.staleAfter < now
  }

  lemma StuckIsExact(t: TaskTable, id: string, now: nat, cfg: Config)
    requires WellKept(t) && id in t.rows && Datable(t.rows[id]) && Sortable(CutOff(now, cfg))
    ensures StaleByColumns(t.rows[id], CutOff(now, cfg)) <==> StuckSince(t.rows[id].payload, now, cfg)
  {
    hide Sortable, StaleByColumns;
    assert Synced(id, t.rows[id]);
    StaleIsExact(t.rows[id], CutOff(now, cfg));
  }

  function RepairsOf(repair: nat -> Repair, n: nat): (r: seq<Repair>)
    ensures |r| == n && forall i | 0 <= i < n :: r[i] == repair(i)
  {
    if n == 0 then [] else RepairsOf(repair, n - 1) + [repair(n - 1)]
  }

  function VisitsOf(visit: nat -> Visit, n: nat): (r: seq<Visit>)
    ensures |r| == n && forall i | 0 <= i < n :: r[i] == visit(i)
  {
    if n == 0 then [] else VisitsOf(visit, n - 1) + [visit(n - 1)]
  }

  lemma ListedAreClaimable(t: TaskTable, now: nat, limit: nat, ids: seq<string>)
    requires AnswersByColumns(t.rows, now, limit, ids)
    ensures Distinct(ids) && forall i | 0 <= i < |ids| :: Claimable(t, ids[i], Status.Scheduled)
  {
  }

  lemma RecoveryTurn(ids: seq<string>, i: nat, was: TaskTable, t: TaskTable, repair: nat -> Repair, cfg: Config)
    requires i < |ids| && Distinct(ids) && WellKept(t) && t.rows.Keys == was.rows.Keys
    requires ids[i] in was.rows && was.rows[ids[i]].status == StatusText(Publishing)
    requires t == AfterRecovery(was, ids[..i], RepairsOf(repair, i), cfg)
    requires forall k | k in t.rows && k !in ids[..i] :: t.rows[k] == was.rows[k]
    requires forall k | k in ids[..i] :: Repaired(was, t, k, cfg)
    ensures Claimable(t, ids[i], Publishing)
    ensures var n := AfterRepair(t, ids[i], repair(i), cfg);
            && WellKept(n) && n.rows.Keys == t.rows.Keys
            && n == AfterRecovery(was, ids[..i + 1], RepairsOf(repair, i + 1), cfg)
            && (forall k | k in n.rows && k !in ids[..i + 1] :: n.rows[k] == was.rows[k])
            && (forall k | k in ids[..i + 1] :: Repaired(was, n, k, cfg))
  {
    hide WellKept, AfterRepair, AfterRecovery, Repaired;
    assert ids[i] !in ids[..i];
    assert forall k :: k in ids[..i + 1] <==> k in ids[..i] || k == ids[i];
    RecoveryUnfolds(was, ids, i, repair, cfg);
    RepairWorks(t, ids[i], repair(i), cfg);
    forall k | k in ids[..i + 1] ensures Repaired(was, AfterRepair(t, ids[i], repair(i), cfg), k, cfg) {
      SameRepair(was, t, AfterRepair(t, ids[i], repair(i), cfg), k, cfg);
    }
  }

  lemma RecoveryUnfolds(was: TaskTable, ids: seq<string>, i: nat, repair: nat -> Repair, cfg: Config)
    requires i < |ids|
    ensures AfterRecovery(was, ids[..i + 1], RepairsOf(repair, i + 1), cfg) ==
            AfterRepair(AfterRecovery(was, ids[..i], RepairsOf(repair, i), cfg), ids[i], repair(i), cfg)
  {
    assert ids[..i + 1][..i] == ids[..i];
    assert RepairsOf(repair, i + 1)[..i] == RepairsOf(repair, i);
  }

  /** A repair stands while the row is left alone, and is one whichever table it is compared with. */
  lemma SameRepair(was: TaskTable, t: TaskTable, n: TaskTable, id: string, cfg: Config)
    requires (Repaired(was, t, id, cfg) && (id in t.rows ==> id in n.rows && n.rows[id] == t.rows[id]))
             || (Repaired(t, n, id, cfg) && id in was.rows && (id in t.rows ==> was.rows[id] == t.rows[id]))
    ensures Repaired(was, n, id, cfg)
  {
  }

  lemma RoundTurn(ids: seq<string>, i: nat, mended: TaskTable, t: TaskTable, visit: nat -> Visit, drafts: set<string>, cfg: Config)
    requires i < |ids| && Distinct(ids) && WellKept(t) && cfg.Valid() && t.rows.Keys == mended.rows.Keys
    requires forall j | 0 <= j < |ids| :: Claimable(mended, ids[j], Status.Scheduled)
    requires t == AfterRound(mended, ids[..i], VisitsOf(visit, i), drafts, cfg)
    requires forall k | k in t.rows && k !in ids[..i] :: t.rows[k] == mended.rows[k]
    ensures Claimable(t, ids[i], Status.Scheduled)
    ensures var n := AfterVisit(t, ids[i], visit(i), drafts, cfg);
            && WellKept(n) && n.rows.Keys == t.rows.Keys
            && n == AfterRound(mended, ids[..i + 1], VisitsOf(visit, i + 1), drafts, cfg)
            && (forall k | k in n.rows && k !in ids[..i + 1] :: n.rows[k] == mended.rows[k])
  {
    hide WellKept, AfterVisit, AfterRound, TriedOnce;
    assert ids[i] !in ids[..i];
    assert forall k :: k in ids[..i + 1] <==> k in ids[..i] || k == ids[i];
    StillClaimable(mended, t, ids[i]);
    RoundUnfolds(mended, ids, i, visit, drafts, cfg);
    VisitMovesOn(t, ids[i], visit(i), drafts, cfg);
  }

  lemma NoRoundYet(t: TaskTable, ids: seq<string>, visit: nat -> Visit, drafts: set<string>, cfg: Config)
    ensures AfterRound(t, ids[..0], VisitsOf(visit, 0), drafts, cfg) == t
  {
  }

  lemma RoundUnfolds(mended: TaskTable, ids: seq<string>, i: nat, visit: nat -> Visit, drafts: set<string>, cfg: Config)
    requires i < |ids|
    ensures AfterRound(mended, ids[..i + 1], VisitsOf(visit, i + 1), drafts, cfg) ==
            AfterVisit(AfterRound(mended, ids[..i], VisitsOf(visit, i), drafts, cfg), ids[i], visit(i), drafts, cfg)
  {
    assert ids[..i + 1][..i] == ids[..i];
    assert VisitsOf(visit, i + 1)[..i] == VisitsOf(visit, i);
  }

  /** Not due any more, or behind a full batch of tasks due no later than it. */
  ghost predicate Served(mended: TaskTable, n: TaskTable, now: nat, batch: nat, due: seq<string>, id: string)
    requires id in mended.rows && mended.rows[id].payload.scheduledAt.Some?
  {
    (id in n.rows && !(n.rows[id].payload.status == Status.Scheduled && n.rows[id].payload.scheduledAt.Some?
                       && n.rows[id].payload.scheduledAt.value <= now))
    || (|due| == batch && forall i | 0 <= i < |due| ::
          due[i] in mended.rows && mended.rows[due[i]].payload.scheduledAt.Some?
          && mended.rows[due[i]].payload.scheduledAt.value <= mended.rows[id].payload.scheduledAt.value)
  }

  /** So no due task is passed over: after a tick under a clock that does not run back, a task that was
      due when the tick listed is not due at that time any more, unless the batch was full of tasks due
      no later than it. */
  lemma TickServesTheDue(mended: TaskTable, n: TaskTable, now: nat, batch: nat, due: seq<string>, visit: nat -> Visit, id: string)
    requires WellKept(mended) && Sortable(now) && (forall k | k in mended.rows :: SortableRow(mended.rows[k]))
    requires AnswersByColumns(mended.rows, now, batch, due)
    requires forall i | 0 <= i < |due| :: TriedOnce(mended, n, due[i], visit(i).decidedAt) && now <= visit(i).decidedAt
    requires id in mended.rows && mended.rows[id].payload.status == Status.Scheduled
    requires mended.rows[id].payload.scheduledAt.Some? && mended.rows[id].payload.scheduledAt.value <= now
    ensures Served(mended, n, now, batch, due, id)
  {
    ListingIsExact(mended, now, batch, due);
    hide WellKept, AnswersByColumns;
    if id in due {
      var i :| 0 <= i < |due| && due[i] == id;
      assert TriedOnce(mended, n, due[i], visit(i).decidedAt);
    }
  }

  lemma SortableStay(was: TaskTable, mended: TaskTable, stuck: seq<string>, cfg: Config)
    requires mended.rows.Keys == was.rows.Keys && forall id | id in was.rows :: SortableRow(was.rows[id])
    requires forall id | id in stuck :: Repaired(was, mended, id, cfg)
    requires forall id | id in mended.rows && id !in stuck :: mended.rows[id] == was.rows[id]
    ensures forall id | id in mended.rows :: SortableRow(mended.rows[id])
  {
    forall id | id in mended.rows ensures SortableRow(mended.rows[id]) {
      assert id in stuck ==> Repaired(was, mended, id, cfg);
      assert SortableRow(was.rows[id]);
    }
  }
}
