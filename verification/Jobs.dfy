/**
 One run of `run_task` (app/scheduler.py) after its claim has won, cut at the points where another
 process can be scheduled, an exception can be raised or the process can die. Both protocol models
 and the sequential service are built from these steps.
 */
module Jobs {
  import opened Wrappers
  import opened Tasks
  import opened Lifecycle

  datatype Phase =
    | Claimed                        // the claim has won; the row is not read yet
    | Loaded(task: PublishTask)      // read and logged
    | Checked(task: PublishTask)     // found in time
    | Returned(task: PublishTask)    // the publisher has answered
    | Saving(task: PublishTask)      // decided, not yet saved
    | Handling(task: PublishTask)    // an exception was caught
    | GivingUp(task: PublishTask)    // the handler is about to save

  /** `base` is the row as the claim left it; the last three fields only record what was done. */
  datatype Job = Job(id: string, base: TaskRow, phase: Phase, checkedAt: nat, called: bool, posted: bool)

  datatype Act =
    | Read
    | CheckLate(now: nat)
    | NoDraft
    | CallPublisher(outcome: Outcome, now: nat)
    | Finish(now: nat)
    | Raise
    | Reread(error: string)
    | Store(now: nat)

  /** When a step reads the clock. */
  function ActTime(act: Act): Option<nat> {
    match act
    case CheckLate(now) => Some(now)
    case CallPublisher(_, now) => Some(now)
    case Finish(now) => Some(now)
    case Store(now) => Some(now)
    case _ => None
  }

  datatype Result = Result(table: TaskTable, job: Option<Job>)

  function NewJob(id: string, row: TaskRow): Job {
    Job(id, row, Claimed, 0, false, false)
  }

  /** One step; an act that does not fit the phase changes nothing. */
  function Step(t: TaskTable, job: Job, act: Act, cfg: Config): Result {
    match act
    case Read =>
      if !job.phase.Claimed? then Result(t, Some(job))
      else if job.id !in t.rows then Result(t, None)
      else Result(t, Some(job.(phase := Loaded(Logged(Load(t.rows[job.id]), "INFO", "Claimed by scheduler", "")))))
    case CheckLate(now) =>
      if !job.phase.Loaded? then Result(t, Some(job))
      else if TooLate(job.phase.task, now, cfg) then
        Result(t, Some(job.(phase := Saving(FailedTask(job.phase.task, "Missed schedule window")))))
      else Result(t, Some(job.(phase := Checked(job.phase.task), checkedAt := now)))
    case NoDraft =>
      if !job.phase.Checked? then Result(t, Some(job))
      else Result(t, Some(job.(phase := Saving(FailedTask(job.phase.task, "Draft not found")))))
    case CallPublisher(outcome, now) =>
      if !job.phase.Checked? then Result(t, Some(job))
      else Result(t, Some(job.(phase := Returned(PublishedTask(job.phase.task, outcome, now)),
                               called := true, posted := outcome.Accepted?)))
    case Finish(now) =>
      if !job.phase.Returned? then Result(t, Some(job))
      else Result(t, Some(job.(phase := Saving(FinalTask(job.phase.task, now, cfg)))))
    case Raise =>
      if job.phase.Loaded? || job.phase.Checked? || job.phase.Returned? || job.phase.Saving? then
        Result(t, Some(job.(phase := Handling(job.phase.task))))
      else Result(t, Some(job))
    case Reread(error) =>
      if !job.phase.Handling? then Result(t, Some(job))
      else
        var current := if job.id in t.rows then Load(t.rows[job.id]) else job.phase.task;
        Result(t, Some(job.(phase := GivingUp(FailedTask(current, "Unexpected scheduler error: " + error)))))
    case Store(now) =>
      if job.phase.Saving? then
        if SaveAllowed(t, job.phase.task) then Result(Save(t, job.phase.task, now), None)
        else Result(t, Some(job.(phase := Handling(job.phase.task))))
      else if job.phase.GivingUp? then Result(Save(t, job.phase.task, now), None)
      else Result(t, Some(job))
  }

  function Steps(t: TaskTable, job: Option<Job>, acts: seq<Act>, cfg: Config): Result
    decreases |acts|
  {
    if acts == [] || job.None? then Result(t, job)
    else
      var r := Step(t, job.value, acts[0], cfg);
      Steps(r.table, r.job, acts[1..], cfg)
  }

  // ------------------------------------------------------------- what is kept

  /** The row is still exactly as the claim left it. */
  ghost predicate Owns(t: TaskTable, job: Job) {
    job.id in t.rows && t.rows[job.id] == job.base && Synced(job.id, job.base) && job.base.payload.status == Publishing
  }

  /** `task` is a later version of the claimed task: same row, same attempt, nothing of its log lost. */
  ghost predicate Continues(task: PublishTask, base: TaskRow) {
    task.id == base.payload.id && task.tenant == base.tenant && task.attempts == base.payload.attempts
    && base.payload.logs <= task.logs
  }

  ghost predicate PhaseOk(job: Job, cfg: Config) {
    var due := job.base.payload.scheduledAt;
    && (!job.phase.Claimed? ==> Continues(job.phase.task, job.base))
    && (job.posted ==> job.called)
    && match job.phase
       case Claimed => !job.called
       case Loaded(task) => !job.called && task.status == Publishing && task.scheduledAt == due
       case Checked(task) => !job.called && task.status == Publishing && task.scheduledAt == due && !TooLate(task, job.checkedAt, cfg)
       case Returned(task) => job.called && task.scheduledAt == due && task.status == (if job.posted then Published else Failed)
       case Saving(task) =>
         if job.posted then task.status == Published
         else task.status == Failed
              || (job.called && task.status == Scheduled && task.attempts < cfg.maxAttempts && task.scheduledAt.Some?)
       case Handling(_) => true
       case GivingUp(task) => task.status == Failed
  }

  ghost predicate JobOk(t: TaskTable, job: Job, cfg: Config) {
    Owns(t, job) && PhaseOk(job, cfg)
  }

  /** A claim that wins starts a job in order. */
  lemma ClaimStarts(t: TaskTable, id: string, now: nat, cfg: Config)
    requires WellKept(t) && Claimable(t, id, Status.Scheduled)
    ensures var u := Claim(t, id, Status.Scheduled, Publishing, now);
            && WellKept(u) && JobOk(u, NewJob(id, u.rows[id]), cfg)
            && u.rows[id].payload.status == Publishing
            && t.rows[id].payload.status == Status.Scheduled
            && u.rows[id].payload.attempts == t.rows[id].payload.attempts + 1
            && u.rows[id].payload.scheduledAt == t.rows[id].payload.scheduledAt
            && u.rows.Keys == t.rows.Keys && (forall k | k in t.rows && k != id :: u.rows[k] == t.rows[k])
  {
    ClaimKeeps(t, id, Status.Scheduled, Publishing, now);
    StatusTextInjective(t.rows[id].payload.status, Status.Scheduled);
  }

  lemma FinalContinues(task: PublishTask, now: nat, cfg: Config)
    ensures var done := FinalTask(task, now, cfg);
            && done.id == task.id && done.tenant == task.tenant && done.attempts == task.attempts && task.logs <= done.logs
            && (done.status == task.status
                || (task.status == Failed && done.status == Status.Scheduled && task.attempts < cfg.maxAttempts && done.scheduledAt.Some?))
  {
  }

  /** Every step but the save leaves the table alone and the job in order. */
  lemma WorkKeeps(t: TaskTable, job: Job, act: Act, cfg: Config)
    requires JobOk(t, job, cfg) && !act.Store?
    ensures var r := Step(t, job, act, cfg);
            r.table == t && r.job.Some? && JobOk(t, r.job.value, cfg)
            && r.job.value.id == job.id && r.job.value.base == job.base
            && (job.called ==> r.job.value.called && r.job.value.posted == job.posted)
            && (!job.called && r.job.value.called ==> act.CallPublisher? && job.phase.Checked? && (r.job.value.posted <==> act.outcome.Accepted?))
            && (act.CallPublisher? && job.phase.Checked? ==> r.job.value.called)
  {
    hide Step, PhaseOk, Synced;
    WorkFrame(t, job, act, cfg);
    PhaseKept(t, job, act, cfg);
  }

  lemma WorkFrame(t: TaskTable, job: Job, act: Act, cfg: Config)
    requires JobOk(t, job, cfg) && !act.Store?
    ensures var r := Step(t, job, act, cfg);
            r.table == t && r.job.Some? && r.job.value.id == job.id && r.job.value.base == job.base
            && (job.called ==> r.job.value.called && r.job.value.posted == job.posted)
            && (!job.called && r.job.value.called ==> act.CallPublisher? && job.phase.Checked? && (r.job.value.posted <==> act.outcome.Accepted?))
            && (act.CallPublisher? && job.phase.Checked? ==> r.job.value.called)
  {
    hide PublishedTask, FinalTask, Synced, TooLate;
  }

  lemma PhaseKept(t: TaskTable, job: Job, act: Act, cfg: Config)
    requires JobOk(t, job, cfg) && !act.Store?
    ensures var r := Step(t, job, act, cfg);
            r.job.Some? && PhaseOk(r.job.value, cfg)
  {
    hide PublishedTask, FinalTask;
    match act
    case Read =>
      if job.phase.Claimed? {
        assert Load(t.rows[job.id]).logs <= Logged(Load(t.rows[job.id]), "INFO", "Claimed by scheduler", "").logs;
      }
    case CheckLate(now) =>
      if job.phase.Loaded? {
        assert job.phase.task.logs <= FailedTask(job.phase.task, "Missed schedule window").logs;
      }
    case NoDraft =>
      if job.phase.Checked? {
        assert job.phase.task.logs <= FailedTask(job.phase.task, "Draft not found").logs;
      }
    case CallPublisher(outcome, now) =>
      if job.phase.Checked? {
        PublishRecords(job.phase.task, outcome, now);
      }
    case Finish(now) =>
      if job.phase.Returned? {
        FinalContinues(job.phase.task, now, cfg);
      }
    case Raise =>
    case Reread(error) =>
      if job.phase.Handling? {
        var current := Load(t.rows[job.id]);
        assert current.logs <= FailedTask(current, "Unexpected scheduler error: " + error).logs;
      }
  }

  /** The save of a job in order always goes through. It replaces the very row its claim left, keeps
      that row's log, and ends in `published` just when the platform accepted the post and no
      exception came after. */
  lemma StoreKeeps(t: TaskTable, job: Job, now: nat, cfg: Config)
    requires WellKept(t) && JobOk(t, job, cfg)
    ensures var r := Step(t, job, Store(now), cfg);
            if job.phase.Saving? || job.phase.GivingUp? then
              var task := job.phase.task;
              && r.job.None? && WellKept(r.table)
              && r.table == t.(rows := t.rows[job.id := SavedRow(task, now)])
              && Load(r.table.rows[job.id]) == task.(updatedAt := Some(now))
              && job.base.payload.logs <= r.table.rows[job.id].payload.logs
              && (job.phase.Saving? ==> (task.status == Published <==> job.posted))
              && (task.status == Published || task.status == Failed
                  || (task.status == Status.Scheduled && job.called && !job.posted && task.attempts < cfg.maxAttempts))
            else r == Result(t, Some(job))
  {
    hide WellKept, Synced, Save;
    if job.phase.Saving? || job.phase.GivingUp? {
      var task := job.phase.task;
      SaveGoesThrough(t, job, task, now);
      assert Step(t, job, Store(now), cfg) == Result(Save(t, task, now), None);
    }
  }

  lemma SaveGoesThrough(t: TaskTable, job: Job, task: PublishTask, now: nat)
    requires WellKept(t) && Owns(t, job) && Continues(task, job.base)
    ensures SaveAllowed(t, task)
    ensures WellKept(Save(t, task, now))
    ensures Save(t, task, now) == t.(rows := t.rows[job.id := SavedRow(task, now)])
    ensures Load(SavedRow(task, now)) == task.(updatedAt := Some(now))
  {
    SaveKeeps(t, task, now);
  }
}
