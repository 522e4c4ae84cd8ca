/**
 Whole ticks of the scheduler (app/scheduler.py): a task visited from its claim to its save with
 nothing in between, a round over a list of due tasks, and the recovery before it. A visit is the
 steps of Jobs run through; what it leaves is given in one piece here.
 */
module Visits {
  import opened Wrappers
  import opened Tasks
  import opened Lifecycle
  import opened Jobs

  /** Where an exception strikes, if one does. */
  datatype Trouble = NoTrouble | AtCheck(error: string) | AtDraft(error: string) | AtFinish(error: string) | AtSave(error: string)

  /** The clock readings of a visit and what the platform answers. */
  datatype Visit = Visit(claimedAt: nat, now: nat, outcome: Outcome, publishedAt: nat, decidedAt: nat, savedAt: nat, trouble: Trouble)

  function GiveUp(error: string, at: nat): seq<Act> {
    [Raise] + ([Reread(error)] + [Act.Store(at)])
  }

  function SaveOr(v: Visit): seq<Act> {
    if v.trouble.AtSave? then GiveUp(v.trouble.error, v.savedAt) else [Act.Store(v.savedAt)]
  }

  /** The steps of a visit, after the claim; `task` is the task as claimed. */
  function Script(task: PublishTask, v: Visit, drafts: set<string>, cfg: Config): seq<Act> {
    [Read] + (if v.trouble.AtCheck? then GiveUp(v.trouble.error, v.savedAt) else [CheckLate(v.now)] + Checking(task, v, drafts, cfg))
  }

  function Checking(task: PublishTask, v: Visit, drafts: set<string>, cfg: Config): seq<Act> {
    if TooLate(task, v.now, cfg) then SaveOr(v)
    else if v.trouble.AtDraft? then GiveUp(v.trouble.error, v.savedAt)
    else if task.draftId !in drafts then [NoDraft] + SaveOr(v)
    else [CallPublisher(v.outcome, v.publishedAt)]
         + (if v.trouble.AtFinish? then GiveUp(v.trouble.error, v.savedAt) else [Finish(v.decidedAt)] + SaveOr(v))
  }

  /** The version of the task that a visit saves. */
  function Outcomes(task: PublishTask, v: Visit, drafts: set<string>, cfg: Config): PublishTask {
    var logged := Logged(task, "INFO", "Claimed by scheduler", "");
    if v.trouble.AtCheck? then CrashedTask(task, v)
    else if TooLate(task, v.now, cfg) then (if v.trouble.AtSave? then CrashedTask(task, v) else FailedTask(logged, "Missed schedule window"))
    else if v.trouble.AtDraft? then CrashedTask(task, v)
    else if task.draftId !in drafts then (if v.trouble.AtSave? then CrashedTask(task, v) else FailedTask(logged, "Draft not found"))
    else if v.trouble.AtFinish? || v.trouble.AtSave? then CrashedTask(task, v)
    else FinalTask(PublishedTask(logged, v.outcome, v.publishedAt), v.decidedAt, cfg)
  }

  function CrashedTask(task: PublishTask, v: Visit): PublishTask
    requires v.trouble != NoTrouble
  {
    FailedTask(task, "Unexpected scheduler error: " + v.trouble.error)
  }

  function ClaimedTable(t: TaskTable, id: string, v: Visit): TaskTable {
    Claim(t, id, Status.Scheduled, Publishing, v.claimedAt)
  }

  /** `run_task` by its steps. */
  function Visited(t: TaskTable, id: string, v: Visit, drafts: set<string>, cfg: Config): Result
    requires Claimable(t, id, Status.Scheduled)
  {
    var u := ClaimedTable(t, id, v);
    Steps(u, Some(NewJob(id, u.rows[id])), Script(Load(u.rows[id]), v, drafts, cfg), cfg)
  }

  // ----------------------------------------------------------- step by step

  lemma FirstStep(t: TaskTable, job: Job, act: Act, rest: seq<Act>, cfg: Config)
    ensures Steps(t, Some(job), [act] + rest, cfg) == Steps(Step(t, job, act, cfg).table, Step(t, job, act, cfg).job, rest, cfg)
  {
    assert ([act] + rest)[1..] == rest;
  }

  lemma LastStep(t: TaskTable, job: Job, act: Act, cfg: Config)
    ensures Steps(t, Some(job), [act], cfg) == Step(t, job, act, cfg)
  {
    assert [act][1..] == [];
  }

  lemma GivingUpSaves(t: TaskTable, job: Job, v: Visit, cfg: Config)
    requires v.trouble != NoTrouble && job.id in t.rows
    requires job.phase.Loaded? || job.phase.Checked? || job.phase.Returned? || job.phase.Saving?
    ensures Steps(t, Some(job), GiveUp(v.trouble.error, v.savedAt), cfg) ==
            Result(Save(t, CrashedTask(Load(t.rows[job.id]), v), v.savedAt), None)
  {
    hide Save, FailedTask, Steps;
    var error := v.trouble.error;
    var handling := job.(phase := Handling(job.phase.task));
    var giving := job.(phase := GivingUp(FailedTask(Load(t.rows[job.id]), "Unexpected scheduler error: " + error)));
    FirstStep(t, job, Raise, [Reread(error)] + [Act.Store(v.savedAt)], cfg);
    FirstStep(t, handling, Reread(error), [Act.Store(v.savedAt)], cfg);
    LastStep(t, giving, Act.Store(v.savedAt), cfg);
  }

  lemma SavingSaves(t: TaskTable, job: Job, v: Visit, cfg: Config)
    requires job.id in t.rows && job.phase.Saving? && SaveAllowed(t, job.phase.task)
    ensures Steps(t, Some(job), SaveOr(v), cfg) ==
            Result(Save(t, if v.trouble.AtSave? then CrashedTask(Load(t.rows[job.id]), v) else job.phase.task, v.savedAt), None)
  {
    hide Save, FailedTask, Steps;
    if v.trouble.AtSave? {
      GivingUpSaves(t, job, v, cfg);
    } else {
      LastStep(t, job, Act.Store(v.savedAt), cfg);
    }
  }

  /** A task that differs in nothing the save looks at. */
  predicate SavesAs(task: PublishTask, base: PublishTask) {
    task.id == base.id && task.tenant == base.tenant
  }

  lemma CheckedVisitSaves(t: TaskTable, job: Job, v: Visit, drafts: set<string>, cfg: Config)
    requires job.id in t.rows && job.phase.Loaded? && !v.trouble.AtCheck?
    requires var task := Load(t.rows[job.id]);
             task.id == job.id && job.phase == Loaded(Logged(task, "INFO", "Claimed by scheduler", ""))
    ensures var task := Load(t.rows[job.id]);
            Steps(t, Some(job), [CheckLate(v.now)] + Checking(task, v, drafts, cfg), cfg) ==
            Result(Save(t, Outcomes(task, v, drafts, cfg), v.savedAt), None)
  {
    hide Save, Steps, FailedTask, PublishedTask, FinalTask, GiveUp, SaveOr;
    var task, logged := Load(t.rows[job.id]), job.phase.task;
    FirstStep(t, job, CheckLate(v.now), Checking(task, v, drafts, cfg), cfg);
    if TooLate(task, v.now, cfg) {
      KeepsIdentity(logged, v, cfg);
      SavingSaves(t, job.(phase := Saving(FailedTask(logged, "Missed schedule window"))), v, cfg);
    } else {
      var checked := job.(phase := Checked(logged), checkedAt := v.now);
      if v.trouble.AtDraft? {
        GivingUpSaves(t, checked, v, cfg);
      } else if task.draftId !in drafts {
        FirstStep(t, checked, NoDraft, SaveOr(v), cfg);
        KeepsIdentity(logged, v, cfg);
        SavingSaves(t, checked.(phase := Saving(FailedTask(logged, "Draft not found"))), v, cfg);
      } else {
        CalledVisitSaves(t, checked, v, cfg);
      }
    }
  }

  lemma KeepsIdentity(task: PublishTask, v: Visit, cfg: Config)
    ensures forall message :: SavesAs(FailedTask(task, message), task)
    ensures SavesAs(PublishedTask(task, v.outcome, v.publishedAt), task)
    ensures SavesAs(FinalTask(PublishedTask(task, v.outcome, v.publishedAt), v.decidedAt, cfg), task)
  {
  }

  lemma CalledVisitSaves(t: TaskTable, job: Job, v: Visit, cfg: Config)
    requires job.id in t.rows && job.phase.Checked? && SavesAs(job.phase.task, Load(t.rows[job.id])) && job.phase.task.id == job.id
    ensures var published := PublishedTask(job.phase.task, v.outcome, v.publishedAt);
            Steps(t, Some(job), [CallPublisher(v.outcome, v.publishedAt)]
                  + (if v.trouble.AtFinish? then GiveUp(v.trouble.error, v.savedAt) else [Finish(v.decidedAt)] + SaveOr(v)), cfg) ==
            Result(Save(t, if v.trouble.AtFinish? || v.trouble.AtSave? then CrashedTask(Load(t.rows[job.id]), v)
                           else FinalTask(published, v.decidedAt, cfg), v.savedAt), None)
  {
    hide Save, Steps, FailedTask, PublishedTask, FinalTask, GiveUp, SaveOr;
    var published := PublishedTask(job.phase.task, v.outcome, v.publishedAt);
    var returned := job.(phase := Returned(published), called := true, posted := v.outcome.Accepted?);
    FirstStep(t, job, CallPublisher(v.outcome, v.publishedAt),
              if v.trouble.AtFinish? then GiveUp(v.trouble.error, v.savedAt) else [Finish(v.decidedAt)] + SaveOr(v), cfg);
    if v.trouble.AtFinish? {
      GivingUpSaves(t, returned, v, cfg);
    } else {
      FirstStep(t, returned, Finish(v.decidedAt), SaveOr(v), cfg);
      KeepsIdentity(job.phase.task, v, cfg);
      SavingSaves(t, returned.(phase := Saving(FinalTask(published, v.decidedAt, cfg))), v, cfg);
    }
  }

  /** The steps of a visit come to one save, of one version of the task. */
  lemma VisitSaves(t: TaskTable, id: string, v: Visit, drafts: set<string>, cfg: Config)
    requires WellKept(t) && Claimable(t, id, Status.Scheduled)
    ensures var u := ClaimedTable(t, id, v);
            && id in u.rows && Load(u.rows[id]).id == id
            && Visited(t, id, v, drafts, cfg) == Result(Save(u, Outcomes(Load(u.rows[id]), v, drafts, cfg), v.savedAt), None)
  {
    hide Save, Steps, FailedTask, WellKept, Claim, Outcomes, Checking, GiveUp;
    var u := ClaimedTable(t, id, v);
    ClaimedIdentity(t, id, v);
    var task := Load(u.rows[id]);
    var job := NewJob(id, u.rows[id]);
    var loaded := job.(phase := Loaded(Logged(task, "INFO", "Claimed by scheduler", "")));
    FirstStep(u, job, Read, if v.trouble.AtCheck? then GiveUp(v.trouble.error, v.savedAt) else [CheckLate(v.now)] + Checking(task, v, drafts, cfg), cfg);
    if v.trouble.AtCheck? {
      GivingUpSaves(u, loaded, v, cfg);
      CrashIsOutcome(task, v, drafts, cfg);
    } else {
      CheckedVisitSaves(u, loaded, v, drafts, cfg);
    }
  }

  lemma CrashIsOutcome(task: PublishTask, v: Visit, drafts: set<string>, cfg: Config)
    requires v.trouble.AtCheck?
    ensures Outcomes(task, v, drafts, cfg) == CrashedTask(task, v)
  {
  }

  lemma ClaimedIdentity(t: TaskTable, id: string, v: Visit)
    requires WellKept(t) && Claimable(t, id, Status.Scheduled)
    ensures id in ClaimedTable(t, id, v).rows && Load(ClaimedTable(t, id, v).rows[id]).id == id
  {
  }

  // ---------------------------------------------------------------- progress

  /** Done with, or due again only after `now`. */
  predicate MovedOn(task: PublishTask, now: nat) {
    task.status == Published || task.status == Failed
    || (task.status == Status.Scheduled && task.scheduledAt.Some? && now < task.scheduledAt.value)
  }

  /** What a visit comes to: published, failed, or waiting for a later time with tries left; one
      attempt more; and published exactly when the platform accepted and nothing struck. */
  lemma OutcomesMoveOn(task: PublishTask, v: Visit, drafts: set<string>, cfg: Config)
    requires cfg.Valid() && task.status == Publishing
    ensures var done := Outcomes(task, v, drafts, cfg);
            && MovedOn(done, v.decidedAt) && done.attempts == task.attempts && SavesAs(done, task)
            && (done.status == Status.Scheduled ==> done.attempts < cfg.maxAttempts)
            && (done.status == Published <==>
                  v.outcome.Accepted? && v.trouble == NoTrouble && task.draftId in drafts
                  && (task.scheduledAt.Some? ==> v.now <= task.scheduledAt.value + cfg.maxLate))
            && (done.status == Status.Scheduled ==>
                  v.trouble == NoTrouble && !v.outcome.Accepted? && done.scheduledAt == Some(v.decidedAt + Delay(cfg, task.attempts)))
            && (v.trouble == NoTrouble && task.scheduledAt.Some? && v.now > task.scheduledAt.value + cfg.maxLate ==>
                  done.status == Failed && done.error == Some("Missed schedule window"))
            && (v.trouble.AtCheck? || v.trouble.AtSave? ==>
                  done.status == Failed && done.error == Some("Unexpected scheduler error: " + v.trouble.error))
            && (v.trouble != NoTrouble && (task.scheduledAt.Some? ==> v.now <= task.scheduledAt.value + cfg.maxLate) && task.draftId in drafts ==>
                  done.status == Failed && done.error == Some("Unexpected scheduler error: " + v.trouble.error))
  {
    hide PublishedTask, FinalTask, MovedOn;
    var logged := Logged(task, "INFO", "Claimed by scheduler", "");
    FailureMovesOn(logged, "Missed schedule window", v.decidedAt);
    FailureMovesOn(logged, "Draft not found", v.decidedAt);
    if v.trouble != NoTrouble {
      FailureMovesOn(task, "Unexpected scheduler error: " + v.trouble.error, v.decidedAt);
    }
    CallMovesOn(logged, v, cfg);
  }

  lemma FailureMovesOn(task: PublishTask, message: string, now: nat)
    ensures var done := FailedTask(task, message);
            MovedOn(done, now) && done.status == Failed && done.error == Some(message) && done.attempts == task.attempts && SavesAs(done, task)
  {
  }

  lemma CallMovesOn(task: PublishTask, v: Visit, cfg: Config)
    requires cfg.Valid()
    ensures var done := FinalTask(PublishedTask(task, v.outcome, v.publishedAt), v.decidedAt, cfg);
            && MovedOn(done, v.decidedAt) && done.attempts == task.attempts && SavesAs(done, task)
            && (done.status == Status.Scheduled ==> done.attempts < cfg.maxAttempts)
            && (done.status == Published <==> v.outcome.Accepted?)
            && (done.status == Status.Scheduled ==> done.scheduledAt == Some(v.decidedAt + Delay(cfg, task.attempts)))
  {
    hide Delay, PublishedTask;
    PublishRecords(task, v.outcome, v.publishedAt);
    DelayBounds(cfg, task.attempts);
  }

  /** `run_task` on a table. */
  function AfterVisit(t: TaskTable, id: string, v: Visit, drafts: set<string>, cfg: Config): TaskTable {
    if Claimable(t, id, Status.Scheduled) then
      var u := ClaimedTable(t, id, v);
      if id in u.rows then Save(u, Outcomes(Load(u.rows[id]), v, drafts, cfg), v.savedAt) else u
    else t
  }

  /** One attempt more, and moved on. */
  predicate TriedOnce(t: TaskTable, n: TaskTable, id: string, decidedAt: nat) {
    id in t.rows && id in n.rows && MovedOn(n.rows[id].payload, decidedAt)
    && n.rows[id].payload.attempts == t.rows[id].payload.attempts + 1
  }

  lemma VisitMovesOn(t: TaskTable, id: string, v: Visit, drafts: set<string>, cfg: Config)
    requires WellKept(t) && cfg.Valid() && Claimable(t, id, Status.Scheduled)
    ensures var n := AfterVisit(t, id, v, drafts, cfg);
            && WellKept(n) && n.rows.Keys == t.rows.Keys
            && (forall k | k in t.rows && k != id :: n.rows[k] == t.rows[k])
            && TriedOnce(t, n, id, v.decidedAt)
            && (n.rows[id].payload.status == Status.Scheduled ==> n.rows[id].payload.attempts < cfg.maxAttempts)
  {
    hide WellKept, Save, Claim, Outcomes, Synced;
    ClaimStarts(t, id, v.claimedAt, cfg);
    ClaimedIdentity(t, id, v);
    var u := ClaimedTable(t, id, v);
    var task := Load(u.rows[id]);
    OutcomesMoveOn(task, v, drafts, cfg);
    SavedOver(u, id, Outcomes(task, v, drafts, cfg), v.savedAt);
  }

  lemma SavedOver(u: TaskTable, id: string, task: PublishTask, now: nat)
    requires WellKept(u) && id in u.rows && task.id == id && task.tenant == u.rows[id].tenant
    ensures var n := Save(u, task, now);
            && WellKept(n) && n.rows.Keys == u.rows.Keys && (forall k | k in u.rows && k != id :: n.rows[k] == u.rows[k])
            && n.rows[id].payload == task.(updatedAt := Some(now))
  {
    SaveKeeps(u, task, now);
  }

  /** One task visited again and again, whatever happens to it in between. */
  function AfterTries(t: TaskTable, id: string, visits: seq<Visit>, drafts: set<string>, cfg: Config): TaskTable {
    if visits == [] then t
    else
      var n := |visits| - 1;
      AfterVisit(AfterTries(t, id, visits[..n], drafts, cfg), id, visits[n], drafts, cfg)
  }

  predicate Done(task: PublishTask) {
    task.status == Published || task.status == Failed
  }

  /** Tries run out: each visit ends the task or uses up one of the attempts left, so no task is
      visited forever, and the last attempt allowed ends it. */
  lemma {:induction false} TriesRunOut(t: TaskTable, id: string, visits: seq<Visit>, drafts: set<string>, cfg: Config)
    requires WellKept(t) && cfg.Valid() && Claimable(t, id, Status.Scheduled) && visits != []
    ensures var n, before := AfterTries(t, id, visits, drafts, cfg), t.rows[id].payload.attempts;
            && WellKept(n) && id in n.rows
            && (Done(n.rows[id].payload)
                || (n.rows[id].payload.status == Status.Scheduled && n.rows[id].payload.attempts == before + |visits| < cfg.maxAttempts))
            && n.rows[id].payload.attempts <= before + |visits|
            && (before + |visits| >= cfg.maxAttempts ==> Done(n.rows[id].payload))
    decreases |visits|
  {
    hide WellKept, AfterVisit;
    var n := |visits| - 1;
    if n == 0 {
      assert AfterTries(t, id, visits[..0], drafts, cfg) == t;
      VisitMovesOn(t, id, visits[0], drafts, cfg);
    } else {
      TriesRunOut(t, id, visits[..n], drafts, cfg);
      var before := AfterTries(t, id, visits[..n], drafts, cfg);
      OnlyScheduledIsVisited(before, id, visits[n], drafts, cfg);
      if Claimable(before, id, Status.Scheduled) {
        VisitMovesOn(before, id, visits[n], drafts, cfg);
      }
    }
  }

  lemma OnlyScheduledIsVisited(t: TaskTable, id: string, v: Visit, drafts: set<string>, cfg: Config)
    requires WellKept(t) && id in t.rows
    ensures Claimable(t, id, Status.Scheduled) <==> t.rows[id].payload.status == Status.Scheduled
    ensures !Claimable(t, id, Status.Scheduled) ==> AfterVisit(t, id, v, drafts, cfg) == t
  {
    StatusTextInjective(t.rows[id].payload.status, Status.Scheduled);
  }

  // ------------------------------------------------------------------ a round

  /** The tasks of a list visited in order. */
  function AfterRound(t: TaskTable, ids: seq<string>, visits: seq<Visit>, drafts: set<string>, cfg: Config): TaskTable
    requires |ids| == |visits|
  {
    if ids == [] then t
    else
      var n := |ids| - 1;
      AfterVisit(AfterRound(t, ids[..n], visits[..n], drafts, cfg), ids[n], visits[n], drafts, cfg)
  }

  /** A listed task that is still there and scheduled when the round begins is tried once in it, and
      afterwards is done with or due only later than its visit: no task is picked up twice at once, none
      is left hanging, and no other row is touched. */
  lemma {:induction false} RoundMovesOn(t: TaskTable, ids: seq<string>, visits: seq<Visit>, drafts: set<string>, cfg: Config)
    requires WellKept(t) && cfg.Valid() && |ids| == |visits| && Distinct(ids)
    requires forall i | 0 <= i < |ids| :: Claimable(t, ids[i], Status.Scheduled)
    ensures var n := AfterRound(t, ids, visits, drafts, cfg);
            && WellKept(n) && n.rows.Keys == t.rows.Keys
            && (forall k | k in t.rows && k !in ids :: n.rows[k] == t.rows[k])
            && (forall i | 0 <= i < |ids| :: TriedOnce(t, n, ids[i], visits[i].decidedAt))
  {
    hide WellKept, AfterVisit, TriedOnce, Claimable;
    if ids != [] {
      var n := |ids| - 1;
      RoundMovesOn(t, ids[..n], visits[..n], drafts, cfg);
      var before := AfterRound(t, ids[..n], visits[..n], drafts, cfg);
      assert ids[n] !in ids[..n];
      StillClaimable(t, before, ids[n]);
      VisitMovesOn(before, ids[n], visits[n], drafts, cfg);
      var after := AfterRound(t, ids, visits, drafts, cfg);
      forall i | 0 <= i < |ids| ensures TriedOnce(t, after, ids[i], visits[i].decidedAt) {
        if i < n {
          assert TriedOnce(t, before, ids[..n][i], visits[..n][i].decidedAt);
          TriedStays(t, before, after, ids[i], visits[i].decidedAt);
        } else {
          TriedNow(t, before, after, ids[n], visits[n].decidedAt);
        }
      }
    }
  }

  lemma TriedStays(t: TaskTable, before: TaskTable, after: TaskTable, id: string, decidedAt: nat)
    requires TriedOnce(t, before, id, decidedAt) && (id in before.rows ==> id in after.rows && after.rows[id] == before.rows[id])
    ensures TriedOnce(t, after, id, decidedAt)
  {
  }

  lemma TriedNow(t: TaskTable, before: TaskTable, after: TaskTable, id: string, decidedAt: nat)
    requires id in t.rows && id in before.rows && before.rows[id] == t.rows[id] && TriedOnce(before, after, id, decidedAt)
    ensures TriedOnce(t, after, id, decidedAt)
  {
  }

  lemma StillClaimable(t: TaskTable, n: TaskTable, id: string)
    requires Claimable(t, id, Status.Scheduled)
    ensures id in t.rows
    ensures id in n.rows && n.rows[id] == t.rows[id] ==> Claimable(n, id, Status.Scheduled)
  {
  }

  // ---------------------------------------------------------------- recovery

  datatype Repair = Repair(claimedAt: nat, savedAt: nat)

  /** One task of `recover_stuck_tasks`. */
  function AfterRepair(t: TaskTable, id: string, r: Repair, cfg: Config): TaskTable {
    if Claimable(t, id, Publishing) then
      var u := Claim(t, id, Publishing, Status.Scheduled, r.claimedAt);
      if id in u.rows then Save(u, RecoveredTask(Load(u.rows[id]), cfg), r.savedAt) else u
    else t
  }

  function AfterRecovery(t: TaskTable, ids: seq<string>, repairs: seq<Repair>, cfg: Config): TaskTable
    requires |ids| == |repairs|
  {
    if ids == [] then t
    else
      var n := |ids| - 1;
      AfterRepair(AfterRecovery(t, ids[..n], repairs[..n], cfg), ids[n], repairs[n], cfg)
  }

  /** Out of `publishing`: back in the queue with tries left, or failed. */
  predicate Repaired(t: TaskTable, n: TaskTable, id: string, cfg: Config) {
    id in t.rows && id in n.rows && n.rows[id].payload.attempts == t.rows[id].payload.attempts
    && n.rows[id].payload.scheduledAt == t.rows[id].payload.scheduledAt
    && n.rows[id].payload.status == (if t.rows[id].payload.attempts >= cfg.maxAttempts then Failed else Status.Scheduled)
  }

  lemma RepairWorks(t: TaskTable, id: string, r: Repair, cfg: Config)
    requires WellKept(t) && Claimable(t, id, Publishing)
    ensures var n := AfterRepair(t, id, r, cfg);
            && WellKept(n) && n.rows.Keys == t.rows.Keys && (forall k | k in t.rows && k != id :: n.rows[k] == t.rows[k])
            && Repaired(t, n, id, cfg)
  {
    hide WellKept;
    RepairClaims(t, id, r);
    var u := Claim(t, id, Publishing, Status.Scheduled, r.claimedAt);
    SavedOver(u, id, RecoveredTask(Load(u.rows[id]), cfg), r.savedAt);
  }

  lemma RepairClaims(t: TaskTable, id: string, r: Repair)
    requires WellKept(t) && Claimable(t, id, Publishing)
    ensures var u := Claim(t, id, Publishing, Status.Scheduled, r.claimedAt);
            WellKept(u) && id in u.rows && Load(u.rows[id]).id == id && u.rows.Keys == t.rows.Keys
  {
    ClaimKeeps(t, id, Publishing, Status.Scheduled, r.claimedAt);
  }

  /** After the recovery no listed task is left in `publishing`. */
  lemma {:induction false} RecoveryWorks(t: TaskTable, ids: seq<string>, repairs: seq<Repair>, cfg: Config)
    requires WellKept(t) && |ids| == |repairs| && Distinct(ids)
    requires forall i | 0 <= i < |ids| :: Claimable(t, ids[i], Publishing)
    ensures var n := AfterRecovery(t, ids, repairs, cfg);
            && WellKept(n) && n.rows.Keys == t.rows.Keys
            && (forall k | k in t.rows && k !in ids :: n.rows[k] == t.rows[k])
            && (forall i | 0 <= i < |ids| :: Repaired(t, n, ids[i], cfg))
  {
    hide WellKept, AfterRepair;
    if ids != [] {
      var n := |ids| - 1;
      RecoveryWorks(t, ids[..n], repairs[..n], cfg);
      var before := AfterRecovery(t, ids[..n], repairs[..n], cfg);
      assert ids[n] !in ids[..n];
      RepairWorks(before, ids[n], repairs[n], cfg);
      var after := AfterRecovery(t, ids, repairs, cfg);
      forall i | 0 <= i < n ensures Repaired(t, after, ids[i], cfg) {
        assert Repaired(t, before, ids[..n][i], cfg);
      }
    }
  }
}
