/**
 One poller that can die at any point and is started again: recovery, listing, claiming and
 publishing (app/scheduler.py `recover_stuck_tasks`, `poll_once`, `run_task`), under a clock that
 never runs backwards. The web application adds tasks meanwhile.
 */
module PollerProtocol {
  import opened Wrappers
  import opened Tasks
  import opened Lifecycle
  import opened Jobs
  import opened TaskBooks

  datatype Doing =
    | Resting
    | Recovering(id: string, read: Option<PublishTask>)
    | Round(listed: set<string>, at: nat, job: Option<Job>)

  datatype Poller = Poller(table: TaskTable, clock: nat, doing: Doing, books: map<string, Book>)

  datatype Event =
    | Recover(id: string, now: nat)          // the claim of a task that has gone stale
    | RecoverRead
    | RecoverSave(now: nat)
    | List(batch: set<string>, now: nat)     // any part of the due tasks: the batch size is arbitrary
    | Take(id: string, now: nat)             // run_task's claim
    | Work(act: Act)
    | EndRound
    | Die                                    // a crash, or an exception that leaves the tick
    | Create(task: PublishTask, now: nat)

  function BookOf(s: Poller, id: string): Book {
    if id in s.books then s.books[id] else EMPTY_BOOK
  }

  /** When an event happens. */
  function TimeOf(e: Event): Option<nat> {
    match e
    case Recover(_, now) => Some(now)
    case RecoverSave(now) => Some(now)
    case List(_, now) => Some(now)
    case Take(_, now) => Some(now)
    case Work(act) => ActTime(act)
    case Create(_, now) => Some(now)
    case _ => None
  }

  predicate Stale(t: TaskTable, id: string, now: nat, cfg: Config) {
    Claimable(t, id, Publishing) && t.rows[id].payload.updatedAt.Some?
    && t.rows[id].payload.updatedAt.value + cfg.staleAfter < now
  }

  /** The book after `act`: a call is entered when it is made, a retry when it is saved. */
  function Entered(b: Book, job: Job, act: Act): Book {
    if act.CallPublisher? && job.phase.Checked? then
      AfterCall(b, Check(job.checkedAt, act.now, job.phase.task.scheduledAt.GetOr(job.checkedAt), job.base.payload.attempts, false),
                act.outcome.Accepted?)
    else if act.Store? && job.phase.Saving? && job.phase.task.status == Status.Scheduled && b.checks != [] then AfterRetry(b)
    else b
  }

  /** One event at the time it happens; an event that does not fit changes nothing. */
  function Happen(s: Poller, e: Event, cfg: Config): Poller {
    match e
    case Recover(id, now) =>
      if s.doing.Resting? && Stale(s.table, id, now, cfg) then
        s.(table := Claim(s.table, id, Publishing, Status.Scheduled, now), doing := Recovering(id, None))
      else s
    case RecoverRead =>
      if !s.doing.Recovering? then s
      else if s.doing.id !in s.table.rows then s.(doing := Resting)
      else s.(doing := Recovering(s.doing.id, Some(Load(s.table.rows[s.doing.id]))))
    case RecoverSave(now) =>
      if s.doing.Recovering? && s.doing.read.Some? then
        s.(table := Save(s.table, RecoveredTask(s.doing.read.value, cfg), now), doing := Resting)
      else s
    case List(batch, now) =>
      if s.doing.Resting? then
        s.(doing := Round(DueAmong(s.table, batch, now), now, None))
      else s
    case Take(id, now) =>
      if s.doing.Round? && s.doing.job.None? && id in s.doing.listed then
        if Claimable(s.table, id, Status.Scheduled) then
          var table := Claim(s.table, id, Status.Scheduled, Publishing, now);
          s.(table := table, doing := Round(s.doing.listed - {id}, s.doing.at, Some(NewJob(id, table.rows[id]))))
        else s.(doing := s.doing.(listed := s.doing.listed - {id}))
      else s
    case Work(act) =>
      if s.doing.Round? && s.doing.job.Some? then
        var job := s.doing.job.value;
        var r := Step(s.table, job, act, cfg);
        s.(table := r.table, doing := s.doing.(job := r.job),
           books := s.books[job.id := Entered(BookOf(s, job.id), job, act)])
      else s
    case EndRound =>
      if s.doing.Round? && s.doing.job.None? then s.(doing := Resting) else s
    case Die =>
      if s.doing.Recovering? then
        s.(doing := Resting, books := s.books[s.doing.id := AfterCrash(BookOf(s, s.doing.id), Mending(0, None))])
      else if s.doing.Round? && s.doing.job.Some? then
        var job := s.doing.job.value;
        s.(doing := Resting, books := s.books[job.id := AfterCrash(BookOf(s, job.id), Running(0, None, job.called, job.posted))])
      else s.(doing := Resting)
    case Create(task, now) =>
      if task.id !in s.table.rows && task.status == Status.Scheduled && task.attempts == 0 then
        s.(table := Save(s.table, task, now))
      else s
  }

  /** The clock never runs backwards. */
  predicate InTime(s: Poller, e: Event) {
    TimeOf(e).Some? ==> s.clock <= TimeOf(e).value
  }

  function Next(s: Poller, e: Event, cfg: Config): Poller {
    if InTime(s, e) then Happen(s.(clock := TimeOf(e).GetOr(s.clock)), e, cfg) else s
  }

  function Run(s: Poller, events: seq<Event>, cfg: Config): Poller
    decreases |events|
  {
    if events == [] then s else Run(Next(s, events[0], cfg), events[1..], cfg)
  }

  /** Only tasks that were never tried, and nothing done yet. */
  ghost predicate Init(s: Poller) {
    WellKept(s.table) && s.doing == Resting && s.books == map[]
    && forall id | id in s.table.rows :: s.table.rows[id].payload.status == Status.Scheduled && s.table.rows[id].payload.attempts == 0
  }

  // ------------------------------------------------------------ the invariant

  function StandingOf(task: PublishTask, doing: Doing, id: string): Standing {
    match task.status
    case Scheduled =>
      if doing.Recovering? && doing.id == id then Mending(task.attempts, task.scheduledAt)
      else Waiting(task.attempts, task.scheduledAt)
    case Publishing =>
      if doing.Round? && doing.job.Some? && doing.job.value.id == id then
        Running(task.attempts, task.scheduledAt, doing.job.value.called, doing.job.value.posted)
      else Stuck(task.attempts, task.scheduledAt)
    case Published => Ended(task.attempts, true)
    case Failed => Ended(task.attempts, false)
    case Cancelled => Ended(task.attempts, false)
  }

  ghost predicate AccountOk(s: Poller, id: string, cfg: Config)
    requires id in s.table.rows
  {
    BookOk(BookOf(s, id), StandingOf(s.table.rows[id].payload, s.doing, id), s.clock, cfg)
  }

  ghost predicate AccountsOk(s: Poller, cfg: Config) {
    (forall id | id in s.table.rows :: AccountOk(s, id, cfg))
    && (forall id | id in s.books :: id in s.table.rows)
  }

  /** The job in hand was listed as due, checked in time and after every earlier call, and a retry it
      decided on waits long enough. */
  ghost predicate JobInTime(job: Job, b: Book, listedAt: nat, clock: nat, cfg: Config) {
    job.base.payload.scheduledAt.Some? && job.base.payload.scheduledAt.value <= listedAt <= clock
    && (job.phase.Checked? || job.called ==> job.base.payload.scheduledAt.value <= job.checkedAt <= clock)
    && (job.phase.Checked? && b.checks != [] ==> b.checks[|b.checks| - 1].called <= job.checkedAt)
    && (job.phase.Saving? && job.phase.task.status == Status.Scheduled ==>
          job.phase.task.scheduledAt.Some?
          && (b.checks != [] ==> b.checks[|b.checks| - 1].called + Delay(cfg, job.phase.task.attempts) <= job.phase.task.scheduledAt.value))
  }

  ghost predicate ListedOk(s: Poller) {
    s.doing.Round? ==>
      s.doing.at <= s.clock
      && forall id | id in s.doing.listed ::
           id in s.table.rows && s.table.rows[id].payload.status == Status.Scheduled
           && s.table.rows[id].payload.scheduledAt.Some? && s.table.rows[id].payload.scheduledAt.value <= s.doing.at
  }

  ghost predicate HandOk(s: Poller, cfg: Config) {
    match s.doing
    case Resting => true
    case Recovering(id, read) =>
      id in s.table.rows && s.table.rows[id].payload.status == Status.Scheduled
      && (read.Some? ==> read.value == Load(s.table.rows[id]))
    case Round(_, at, job) =>
      job.Some? ==> JobOk(s.table, job.value, cfg) && JobInTime(job.value, BookOf(s, job.value.id), at, s.clock, cfg)
  }

  ghost predicate Inv(s: Poller, cfg: Config) {
    WellKept(s.table) && AccountsOk(s, cfg) && ListedOk(s) && HandOk(s, cfg)
  }

  // ------------------------------------------------------------ small changes

  predicate HandsOnly(doing: Doing, id: string) {
    (doing.Recovering? ==> doing.id == id) && (doing.Round? && doing.job.Some? ==> doing.job.value.id == id)
  }

  /** When only `id` is touched, only its account needs a look. */
  lemma OneAccount(s: Poller, n: Poller, id: string, cfg: Config)
    requires AccountsOk(s, cfg) && s.clock == n.clock && HandsOnly(s.doing, id) && HandsOnly(n.doing, id)
    requires forall k | k in n.table.rows && k != id :: k in s.table.rows && n.table.rows[k] == s.table.rows[k]
    requires forall k | k in s.table.rows :: k in n.table.rows
    requires forall k | k != id :: k in n.books <==> k in s.books
    requires forall k | k in n.books && k != id :: n.books[k] == s.books[k]
    requires id in n.table.rows && AccountOk(n, id, cfg)
    ensures AccountsOk(n, cfg)
  {
    hide BookOk;
    forall k | k in n.table.rows ensures AccountOk(n, k, cfg) {
      if k != id {
        assert AccountOk(s, k, cfg);
        assert BookOf(n, k) == BookOf(s, k);
        assert StandingOf(n.table.rows[k].payload, n.doing, k) == StandingOf(s.table.rows[k].payload, s.doing, k);
      }
    }
  }

  lemma ClockKeeps(s: Poller, later: nat, cfg: Config)
    requires Inv(s, cfg) && s.clock <= later
    ensures Inv(s.(clock := later), cfg)
  {
    hide BookOk, WellKept, JobOk, AccountsOk;
    var n := s.(clock := later);
    ClockAccounts(s, n, cfg);
  }

  lemma ClockAccounts(s: Poller, n: Poller, cfg: Config)
    requires AccountsOk(s, cfg) && s.clock <= n.clock && n == s.(clock := n.clock)
    ensures AccountsOk(n, cfg)
  {
    forall id | id in n.table.rows ensures AccountOk(n, id, cfg) {
      assert AccountOk(s, id, cfg);
      ClockRuns(BookOf(s, id), StandingOf(s.table.rows[id].payload, s.doing, id), s.clock, n.clock, cfg);
    }
  }

  // ------------------------------------------------------------- the recovery

  lemma RecoverEffect(t: TaskTable, id: string, now: nat)
    requires WellKept(t) && Claimable(t, id, Publishing)
    ensures var u := Claim(t, id, Publishing, Status.Scheduled, now);
            && WellKept(u) && u.rows.Keys == t.rows.Keys && (forall k | k in t.rows && k != id :: u.rows[k] == t.rows[k])
            && t.rows[id].payload.status == Publishing
            && u.rows[id].payload.status == Status.Scheduled
            && u.rows[id].payload.attempts == t.rows[id].payload.attempts
            && u.rows[id].payload.scheduledAt == t.rows[id].payload.scheduledAt
  {
    ClaimKeeps(t, id, Publishing, Status.Scheduled, now);
    StatusTextInjective(t.rows[id].payload.status, Publishing);
  }

  lemma RecoverKeeps(s: Poller, id: string, now: nat, cfg: Config)
    requires Inv(s, cfg)
    ensures Inv(Happen(s, Recover(id, now), cfg), cfg)
  {
    var n := Happen(s, Recover(id, now), cfg);
    if s.doing.Resting? && Stale(s.table, id, now, cfg) {
      RecoverEffect(s.table, id, now);
      Mended(s, n, id, cfg);
    }
  }

  lemma Mended(s: Poller, n: Poller, id: string, cfg: Config)
    requires AccountsOk(s, cfg) && s.doing.Resting? && id in s.table.rows
    requires n == s.(table := n.table, doing := Recovering(id, None))
    requires n.table.rows.Keys == s.table.rows.Keys && forall k | k in s.table.rows && k != id :: n.table.rows[k] == s.table.rows[k]
    requires s.table.rows[id].payload.status == Publishing && n.table.rows[id].payload.status == Status.Scheduled
    requires n.table.rows[id].payload.attempts == s.table.rows[id].payload.attempts
    requires n.table.rows[id].payload.scheduledAt == s.table.rows[id].payload.scheduledAt
    ensures AccountsOk(n, cfg)
  {
    hide BookOk;
    assert AccountOk(s, id, cfg);
    Mend(BookOf(s, id), StandingOf(s.table.rows[id].payload, s.doing, id), s.clock, cfg);
    OneAccount(s, n, id, cfg);
  }

  lemma RecoverSaveEffect(t: TaskTable, id: string, now: nat, cfg: Config)
    requires WellKept(t) && id in t.rows && t.rows[id].payload.status == Status.Scheduled
    ensures var u := Save(t, RecoveredTask(Load(t.rows[id]), cfg), now);
            && WellKept(u) && u.rows.Keys == t.rows.Keys && (forall k | k in t.rows && k != id :: u.rows[k] == t.rows[k])
            && u.rows[id].payload.status == (if t.rows[id].payload.attempts >= cfg.maxAttempts then Failed else Status.Scheduled)
            && u.rows[id].payload.attempts == t.rows[id].payload.attempts
            && u.rows[id].payload.scheduledAt == t.rows[id].payload.scheduledAt
  {
    hide WellKept, StatusText, IsoColumn;
    assert Synced(id, t.rows[id]) by {
      RowIsSynced(t, id);
    }
    SaveKeeps(t, RecoveredTask(Load(t.rows[id]), cfg), now);
  }

  lemma RowIsSynced(t: TaskTable, id: string)
    requires WellKept(t) && id in t.rows
    ensures Synced(id, t.rows[id])
  {
  }

  lemma RecoverSaveKeeps(s: Poller, now: nat, cfg: Config)
    requires Inv(s, cfg)
    ensures Inv(Happen(s, RecoverSave(now), cfg), cfg)
  {
    var n := Happen(s, RecoverSave(now), cfg);
    if s.doing.Recovering? && s.doing.read.Some? {
      RecoverSaveEffect(s.table, s.doing.id, now, cfg);
      MendedSaved(s, n, s.doing.id, cfg);
    }
  }

  lemma MendedSaved(s: Poller, n: Poller, id: string, cfg: Config)
    requires AccountsOk(s, cfg) && s.doing.Recovering? && id == s.doing.id && id in s.table.rows
    requires n == s.(table := n.table, doing := Resting)
    requires n.table.rows.Keys == s.table.rows.Keys && forall k | k in s.table.rows && k != id :: n.table.rows[k] == s.table.rows[k]
    requires s.table.rows[id].payload.status == Status.Scheduled
    requires n.table.rows[id].payload.status == (if s.table.rows[id].payload.attempts >= cfg.maxAttempts then Failed else Status.Scheduled)
    requires n.table.rows[id].payload.attempts == s.table.rows[id].payload.attempts
    requires n.table.rows[id].payload.scheduledAt == s.table.rows[id].payload.scheduledAt
    ensures AccountsOk(n, cfg)
  {
    hide BookOk;
    assert AccountOk(s, id, cfg);
    var st := StandingOf(s.table.rows[id].payload, s.doing, id);
    Mend(BookOf(s, id), st, s.clock, cfg);
    End(BookOf(s, id), st, false, s.clock, cfg);
    OneAccount(s, n, id, cfg);
  }

  // --------------------------------------------------------------- the round

  lemma ListKeeps(s: Poller, batch: set<string>, now: nat, cfg: Config)
    requires Inv(s, cfg) && s.clock == now
    ensures Inv(Happen(s, List(batch, now), cfg), cfg)
  {
    hide BookOk, WellKept, AccountsOk;
    var n := Happen(s, List(batch, now), cfg);
    if s.doing.Resting? {
      SameAccounts(s, n, cfg);
    }
  }

  lemma SameAccounts(s: Poller, n: Poller, cfg: Config)
    requires AccountsOk(s, cfg) && n == s.(doing := n.doing)
    requires forall id | id in s.table.rows ::
               StandingOf(s.table.rows[id].payload, n.doing, id) == StandingOf(s.table.rows[id].payload, s.doing, id)
    ensures AccountsOk(n, cfg)
  {
    hide BookOk;
    forall id | id in n.table.rows ensures AccountOk(n, id, cfg) {
      assert AccountOk(s, id, cfg);
    }
  }

  lemma TakeKeeps(s: Poller, id: string, now: nat, cfg: Config)
    requires Inv(s, cfg)
    ensures Inv(Happen(s, Take(id, now), cfg), cfg)
  {
    hide BookOk, WellKept, JobOk, AccountsOk, Synced;
    var n := Happen(s, Take(id, now), cfg);
    if s.doing.Round? && s.doing.job.None? && id in s.doing.listed {
      if Claimable(s.table, id, Status.Scheduled) {
        ClaimStarts(s.table, id, now, cfg);
        Taken(s, n, id, cfg);
      } else {
        SameAccounts(s, n, cfg);
      }
    }
  }

  lemma Taken(s: Poller, n: Poller, id: string, cfg: Config)
    requires AccountsOk(s, cfg) && ListedOk(s) && s.doing.Round? && s.doing.job.None? && id in s.doing.listed
    requires n.table.rows.Keys == s.table.rows.Keys && forall k | k in s.table.rows && k != id :: n.table.rows[k] == s.table.rows[k]
    requires n == s.(table := n.table, doing := Round(s.doing.listed - {id}, s.doing.at, Some(NewJob(id, n.table.rows[id]))))
    requires n.table.rows[id].payload.status == Publishing
    requires n.table.rows[id].payload.attempts == s.table.rows[id].payload.attempts + 1
    requires n.table.rows[id].payload.scheduledAt == s.table.rows[id].payload.scheduledAt
    ensures AccountsOk(n, cfg) && ListedOk(n)
    ensures JobInTime(n.doing.job.value, BookOf(n, id), n.doing.at, n.clock, cfg)
  {
    hide BookOk;
    assert AccountOk(s, id, cfg);
    Start(BookOf(s, id), StandingOf(s.table.rows[id].payload, s.doing, id), s.clock, cfg);
    OneAccount(s, n, id, cfg);
  }

  lemma DieKeeps(s: Poller, cfg: Config)
    requires Inv(s, cfg)
    ensures Inv(Happen(s, Die, cfg), cfg)
  {
    hide BookOk, WellKept, JobOk, AccountsOk;
    var n := Happen(s, Die, cfg);
    if s.doing.Recovering? {
      Died(s, n, s.doing.id, cfg);
    } else if s.doing.Round? && s.doing.job.Some? {
      JobFacts(s.table, s.doing.job.value, cfg);
      Died(s, n, s.doing.job.value.id, cfg);
    } else {
      SameAccounts(s, n, cfg);
    }
  }

  lemma Died(s: Poller, n: Poller, id: string, cfg: Config)
    requires AccountsOk(s, cfg) && id in s.table.rows && HandsOnly(s.doing, id)
    requires var st := StandingOf(s.table.rows[id].payload, s.doing, id);
             (st.Running? || st.Mending?)
             && n == s.(doing := Resting, books := s.books[id := AfterCrash(BookOf(s, id), st)])
    ensures AccountsOk(n, cfg)
  {
    hide BookOk;
    assert AccountOk(s, id, cfg);
    Crash(BookOf(s, id), StandingOf(s.table.rows[id].payload, s.doing, id), s.clock, cfg);
    OneAccount(s, n, id, cfg);
  }

  lemma JobFacts(t: TaskTable, job: Job, cfg: Config)
    requires JobOk(t, job, cfg)
    ensures job.id in t.rows && t.rows[job.id] == job.base && job.base.payload.status == Publishing
    ensures job.posted ==> job.called
    ensures job.phase.Checked? ==> !job.called && job.phase.task.scheduledAt == job.base.payload.scheduledAt && !TooLate(job.phase.task, job.checkedAt, cfg)
  {
  }

  lemma CreateKeeps(s: Poller, task: PublishTask, now: nat, cfg: Config)
    requires Inv(s, cfg) && cfg.Valid()
    ensures Inv(Happen(s, Create(task, now), cfg), cfg)
  {
    hide WellKept, AccountsOk, ListedOk, HandOk;
    var n := Happen(s, Create(task, now), cfg);
    if task.id !in s.table.rows && task.status == Status.Scheduled && task.attempts == 0 {
      SaveKeeps(s.table, task, now);
      Added(s, n, task, now, cfg);
    }
  }

  lemma Added(s: Poller, n: Poller, task: PublishTask, now: nat, cfg: Config)
    requires AccountsOk(s, cfg) && ListedOk(s) && HandOk(s, cfg) && cfg.Valid()
    requires task.id !in s.table.rows && task.status == Status.Scheduled && task.attempts == 0
    requires n == s.(table := n.table) && n.table.rows == s.table.rows[task.id := SavedRow(task, now)]
    ensures AccountsOk(n, cfg) && ListedOk(n) && HandOk(n, cfg)
  {
    hide BookOk;
    assert BookOf(n, task.id) == EMPTY_BOOK;
    Open(task.scheduledAt, n.clock, cfg);
    if s.doing.Round? && s.doing.job.Some? {
      JobFacts(s.table, s.doing.job.value, cfg);
    }
    forall k | k in n.table.rows ensures AccountOk(n, k, cfg) {
      if k != task.id {
        assert AccountOk(s, k, cfg);
      }
    }
  }

  // ----------------------------------------------------------------- the work

  /** Every step of the job but its save, on the job's account and times. */
  lemma ThinkTimes(t: TaskTable, job: Job, act: Act, b: Book, listedAt: nat, clock: nat, cfg: Config) returns (next: Job)
    requires JobOk(t, job, cfg) && JobInTime(job, b, listedAt, clock, cfg) && !act.Store?
    requires ActTime(act).Some? ==> ActTime(act).value == clock
    requires BookOk(b, Running(job.base.payload.attempts, job.base.payload.scheduledAt, job.called, job.posted), clock, cfg)
    ensures Step(t, job, act, cfg) == Result(t, Some(next)) && next.id == job.id && next.base == job.base && JobOk(t, next, cfg)
    ensures BookOk(Entered(b, job, act),
                   Running(job.base.payload.attempts, job.base.payload.scheduledAt, next.called, next.posted), clock, cfg)
    ensures JobInTime(next, Entered(b, job, act), listedAt, clock, cfg)
  {
    WorkKeeps(t, job, act, cfg);
    next := Step(t, job, act, cfg).job.value;
    ThinkBook(t, job, act, b, listedAt, clock, cfg);
    ThinkInTime(t, job, act, b, listedAt, clock, cfg);
  }

  lemma ThinkBook(t: TaskTable, job: Job, act: Act, b: Book, listedAt: nat, clock: nat, cfg: Config)
    requires JobOk(t, job, cfg) && JobInTime(job, b, listedAt, clock, cfg) && !act.Store?
    requires ActTime(act).Some? ==> ActTime(act).value == clock
    requires BookOk(b, Running(job.base.payload.attempts, job.base.payload.scheduledAt, job.called, job.posted), clock, cfg)
    ensures var next := Step(t, job, act, cfg).job;
            next.Some? && BookOk(Entered(b, job, act), Running(job.base.payload.attempts, job.base.payload.scheduledAt,
                                                               next.value.called, next.value.posted), clock, cfg)
  {
    hide BookOk, JobOk;
    WorkKeeps(t, job, act, cfg);
    JobFacts(t, job, cfg);
    if act.CallPublisher? && job.phase.Checked? {
      Call(b, Running(job.base.payload.attempts, job.base.payload.scheduledAt, job.called, job.posted),
           act.outcome.Accepted?, job.checkedAt, clock, cfg);
    }
  }

  lemma ThinkInTime(t: TaskTable, job: Job, act: Act, b: Book, listedAt: nat, clock: nat, cfg: Config)
    requires JobOk(t, job, cfg) && JobInTime(job, b, listedAt, clock, cfg) && !act.Store?
    requires ActTime(act).Some? ==> ActTime(act).value == clock
    requires BookOk(b, Running(job.base.payload.attempts, job.base.payload.scheduledAt, job.called, job.posted), clock, cfg)
    ensures Step(t, job, act, cfg).job.Some? && JobInTime(Step(t, job, act, cfg).job.value, Entered(b, job, act), listedAt, clock, cfg)
  {
    WorkKeeps(t, job, act, cfg);
    JobFacts(t, job, cfg);
    if act.CheckLate? && job.phase.Loaded? {
      assert !job.called;
    }
  }

  lemma ThinkKeeps(s: Poller, act: Act, cfg: Config)
    requires Inv(s, cfg) && s.doing.Round? && s.doing.job.Some? && !act.Store?
    requires ActTime(act).Some? ==> ActTime(act).value == s.clock
    ensures Inv(Happen(s, Work(act), cfg), cfg)
  {
    hide BookOk, WellKept, JobOk, Entered;
    var n := Happen(s, Work(act), cfg);
    var job := s.doing.job.value;
    JobFacts(s.table, job, cfg);
    assert AccountOk(s, job.id, cfg);
    var next := ThinkTimes(s.table, job, act, BookOf(s, job.id), s.doing.at, s.clock, cfg);
    JobFacts(s.table, next, cfg);
    Thought(s, n, next, Entered(BookOf(s, job.id), job, act), cfg);
  }

  lemma Thought(s: Poller, n: Poller, next: Job, b: Book, cfg: Config)
    requires AccountsOk(s, cfg) && ListedOk(s) && s.doing.Round? && s.doing.job.Some? && next.id == s.doing.job.value.id
    requires n == s.(doing := s.doing.(job := Some(next)), books := s.books[next.id := b])
    requires next.id in s.table.rows && s.table.rows[next.id] == next.base && next.base.payload.status == Publishing
    requires BookOk(b, Running(next.base.payload.attempts, next.base.payload.scheduledAt, next.called, next.posted), s.clock, cfg)
    ensures AccountsOk(n, cfg) && ListedOk(n) && BookOf(n, next.id) == b
  {
    hide BookOk;
    OneAccount(s, n, next.id, cfg);
  }

  lemma StoreEffect(t: TaskTable, job: Job, now: nat, cfg: Config)
    requires WellKept(t) && JobOk(t, job, cfg) && (job.phase.Saving? || job.phase.GivingUp?)
    ensures var r, task := Step(t, job, Act.Store(now), cfg), job.phase.task;
            && r.job.None? && WellKept(r.table) && job.id in t.rows && r.table.rows.Keys == t.rows.Keys
            && (forall k | k in t.rows && k != job.id :: r.table.rows[k] == t.rows[k])
            && r.table.rows[job.id].payload == task.(updatedAt := Some(now))
            && task.attempts == job.base.payload.attempts
            && (task.status == Published ==> job.posted)
            && (task.status == Published || task.status == Failed
                || (task.status == Status.Scheduled && job.phase.Saving? && job.called && !job.posted && task.attempts < cfg.maxAttempts))
  {
    hide WellKept, Synced, Save;
    StoreKeeps(t, job, now, cfg);
  }

  lemma StoreStepKeeps(s: Poller, now: nat, cfg: Config)
    requires Inv(s, cfg) && s.doing.Round? && s.doing.job.Some?
    ensures Inv(Happen(s, Work(Act.Store(now)), cfg), cfg)
  {
    hide BookOk, WellKept, JobOk;
    var n := Happen(s, Work(Act.Store(now)), cfg);
    var job := s.doing.job.value;
    JobFacts(s.table, job, cfg);
    assert AccountOk(s, job.id, cfg);
    if job.phase.Saving? || job.phase.GivingUp? {
      StoreEffect(s.table, job, now, cfg);
      Stored(s, n, now, cfg);
    } else {
      Thought(s, n, job, BookOf(s, job.id), cfg);
    }
  }

  ghost predicate StoredAs(s: Poller, n: Poller, job: Job, task: PublishTask, now: nat, cfg: Config)
    requires s.doing.Round?
  {
    job.id in s.table.rows && s.table.rows[job.id] == job.base && job.base.payload.status == Publishing
    && n.table.rows.Keys == s.table.rows.Keys
    && (forall k | k in s.table.rows && k != job.id :: n.table.rows[k] == s.table.rows[k])
    && n == s.(table := n.table, doing := s.doing.(job := None),
               books := s.books[job.id := Entered(BookOf(s, job.id), job, Act.Store(now))])
    && n.table.rows[job.id].payload == task.(updatedAt := Some(now))
    && task.attempts == job.base.payload.attempts && (task.status == Published ==> job.posted)
    && (task.status == Published || task.status == Failed
        || (task.status == Status.Scheduled && job.phase.Saving? && job.called && !job.posted && task.attempts < cfg.maxAttempts))
  }

  lemma Stored(s: Poller, n: Poller, now: nat, cfg: Config)
    requires AccountsOk(s, cfg) && ListedOk(s) && s.doing.Round? && s.doing.job.Some?
    requires s.doing.job.value.phase.Saving? || s.doing.job.value.phase.GivingUp?
    requires JobInTime(s.doing.job.value, BookOf(s, s.doing.job.value.id), s.doing.at, s.clock, cfg)
    requires StoredAs(s, n, s.doing.job.value, s.doing.job.value.phase.task, now, cfg)
    ensures AccountsOk(n, cfg) && ListedOk(n)
  {
    hide BookOk;
    var job := s.doing.job.value;
    var b, st := BookOf(s, job.id), StandingOf(s.table.rows[job.id].payload, s.doing, job.id);
    assert AccountOk(s, job.id, cfg);
    if job.phase.task.status == Status.Scheduled {
      Retry(b, st, job.phase.task.scheduledAt.value, s.clock, cfg);
    } else {
      End(b, st, job.phase.task.status == Published, s.clock, cfg);
    }
    OneAccount(s, n, job.id, cfg);
  }

  // --------------------------------------------------------------- every run

  lemma HappenKeeps(s: Poller, e: Event, cfg: Config)
    requires Inv(s, cfg) && cfg.Valid() && (TimeOf(e).Some? ==> TimeOf(e).value == s.clock)
    ensures Inv(Happen(s, e, cfg), cfg)
  {
    hide Inv;
    match e
    case Recover(id, now) => RecoverKeeps(s, id, now, cfg);
    case RecoverRead => ReadKeeps(s, cfg);
    case RecoverSave(now) => RecoverSaveKeeps(s, now, cfg);
    case List(batch, now) => ListKeeps(s, batch, now, cfg);
    case Take(id, now) => TakeKeeps(s, id, now, cfg);
    case Work(act) =>
      if s.doing.Round? && s.doing.job.Some? {
        if act.Store? {
          StoreStepKeeps(s, act.now, cfg);
        } else {
          ThinkKeeps(s, act, cfg);
        }
      }
    case EndRound => EndKeeps(s, cfg);
    case Die => DieKeeps(s, cfg);
    case Create(task, now) => CreateKeeps(s, task, now, cfg);
  }

  lemma ReadKeeps(s: Poller, cfg: Config)
    requires Inv(s, cfg)
    ensures Inv(Happen(s, RecoverRead, cfg), cfg)
  {
    hide BookOk, WellKept, JobOk, AccountOk;
    if s.doing.Recovering? {
      SameAccounts(s, Happen(s, RecoverRead, cfg), cfg);
    }
  }

  lemma EndKeeps(s: Poller, cfg: Config)
    requires Inv(s, cfg)
    ensures Inv(Happen(s, EndRound, cfg), cfg)
  {
    hide BookOk, WellKept, JobOk, AccountOk;
    if s.doing.Round? && s.doing.job.None? {
      SameAccounts(s, Happen(s, EndRound, cfg), cfg);
    }
  }

  lemma {:induction false} RunKeeps(s: Poller, events: seq<Event>, cfg: Config)
    requires Inv(s, cfg) && cfg.Valid()
    ensures Inv(Run(s, events, cfg), cfg)
    decreases |events|
  {
    hide Inv, Happen;
    if events != [] {
      var e := events[0];
      if InTime(s, e) {
        ClockKeeps(s, TimeOf(e).GetOr(s.clock), cfg);
        HappenKeeps(s.(clock := TimeOf(e).GetOr(s.clock)), e, cfg);
      }
      RunKeeps(Next(s, e, cfg), events[1..], cfg);
    }
  }

  lemma InitIsInv(s: Poller, cfg: Config)
    requires Init(s) && cfg.Valid()
    ensures Inv(s, cfg)
  {
    hide BookOk;
    forall id | id in s.table.rows ensures AccountOk(s, id, cfg) {
      Open(s.table.rows[id].payload.scheduledAt, s.clock, cfg);
    }
  }

  /** Whatever happens, crashes at any point included: a task is claimed at most `maxAttempts` times
      plus once for each recovery that was itself interrupted; the publisher is called at most once a
      claim, after a lateness check that passed between the due time and the end of the grace window;
      after a transient failure the next check, and so the next call, comes no sooner than the delay
      after the failed call; and a task is posted once, plus once for each post that a crash kept from
      being saved. (When there can be such a second post, SecondPosts says.) */
  lemma PollerIsSafe(s: Poller, events: seq<Event>, id: string, cfg: Config)
    requires Init(s) && cfg.Valid()
    ensures var n := Run(s, events, cfg);
            id in n.table.rows ==>
              var task, b := n.table.rows[id].payload, BookOf(n, id);
              && task.attempts <= cfg.maxAttempts + b.interrupted
              && b.posts <= |b.checks| <= task.attempts
              && (forall i | 0 <= i < |b.checks| ::
                    b.checks[i].due <= b.checks[i].at <= b.checks[i].due + cfg.maxLate && b.checks[i].at <= b.checks[i].called)
              && (forall i | 0 <= i < |b.checks| - 1 :: b.checks[i].called <= b.checks[i + 1].at)
              && (forall i | 0 <= i < |b.checks| - 1 && b.checks[i].retried ::
                    b.checks[i].called + Delay(cfg, b.checks[i].attempts) <= b.checks[i + 1].due)
              && b.posts <= b.lost + 1
              && (task.status == Published ==> b.posts == b.lost + 1)
  {
    hide Inv, Init, Run, Delay;
    InitIsInv(s, cfg);
    RunKeeps(s, events, cfg);
    if id in Run(s, events, cfg).table.rows {
      AccountsKept(Run(s, events, cfg), cfg);
      AccountPromises(Run(s, events, cfg), id, cfg);
    }
  }

  lemma AccountsKept(n: Poller, cfg: Config)
    requires Inv(n, cfg)
    ensures AccountsOk(n, cfg)
  {
  }

  lemma AccountPromises(n: Poller, id: string, cfg: Config)
    requires AccountsOk(n, cfg) && id in n.table.rows
    ensures var task, b := n.table.rows[id].payload, BookOf(n, id);
            && task.attempts <= cfg.maxAttempts + b.interrupted
            && b.posts <= |b.checks| <= task.attempts
            && ChecksOk(b.checks, cfg)
            && b.posts <= b.lost + 1
            && (task.status == Published ==> b.posts == b.lost + 1)
  {
    hide BookOk, ChecksOk;
    assert AccountOk(n, id, cfg);
    BookPromises(BookOf(n, id), StandingOf(n.table.rows[id].payload, n.doing, id), n.clock, cfg);
  }

  /** While no crash touches a task, its n-th call is the n-th attempt, and any two of its calls are at
      least the sum of the delays between them apart; even the check before the later one is. So call and
      next check are apart by the configured base, doubled for every try before, or by an hour. */
  lemma RetriesAreSpaced(s: Poller, events: seq<Event>, id: string, i: nat, j: nat, cfg: Config)
    requires Init(s) && cfg.Valid()
    requires var n := Run(s, events, cfg);
             id in n.table.rows && BookOf(n, id).crashes == 0 && i <= j < |BookOf(n, id).checks|
    ensures var checks := BookOf(Run(s, events, cfg), id).checks;
            && checks[j].attempts == j + 1
            && checks[i].called + TotalDelay(cfg, i + 1, j + 1) <= checks[j].called
            && (i < j ==> checks[i].called + TotalDelay(cfg, i + 1, j + 1) <= checks[j].at)
            && (j == i + 1 ==>
                  var wait := cfg.retryBase * Power2(i);
                  checks[i].called + (if wait < 3_600_000_000 then wait else 3_600_000_000) <= checks[j].at)
  {
    var n := Run(s, events, cfg);
    InitIsInv(s, cfg);
    RunKeeps(s, events, cfg);
    assert AccountOk(n, id, cfg);
    TriesAreSpaced(BookOf(n, id), StandingOf(n.table.rows[id].payload, n.doing, id), n.clock, cfg, i, j);
    if j == i + 1 {
      OneDelay(cfg, i + 1);
      DelayIs(cfg, i + 1);
    }
  }

  lemma OneDelay(cfg: Config, i: nat)
    ensures TotalDelay(cfg, i, i + 1) == Delay(cfg, i)
  {
    assert TotalDelay(cfg, i, i) == 0;
  }

  // ------------------------------------------------------------ final statuses

  /** `published` and `failed` are final, crashes and recoveries included. */
  lemma {:induction false} FinalRowsStay(s: Poller, events: seq<Event>, id: string, cfg: Config)
    requires Inv(s, cfg) && cfg.Valid() && id in s.table.rows && s.table.rows[id].payload.status in {Published, Failed, Cancelled}
    ensures id in Run(s, events, cfg).table.rows && Run(s, events, cfg).table.rows[id] == s.table.rows[id]
    decreases |events|
  {
    hide Inv, Happen;
    if events != [] {
      var e := events[0];
      if InTime(s, e) {
        var t := s.(clock := TimeOf(e).GetOr(s.clock));
        ClockKeeps(s, t.clock, cfg);
        HappenKeeps(t, e, cfg);
        FinalRowStays(t, e, id, cfg);
      }
      FinalRowsStay(Next(s, e, cfg), events[1..], id, cfg);
    }
  }

  lemma FinalRowStays(s: Poller, e: Event, id: string, cfg: Config)
    requires Inv(s, cfg) && id in s.table.rows && s.table.rows[id].payload.status in {Published, Failed, Cancelled}
    ensures id in Happen(s, e, cfg).table.rows && Happen(s, e, cfg).table.rows[id] == s.table.rows[id]
  {
    hide BookOk, AccountsOk, JobOk, WellKept, Synced;
    match e
    case Recover(k, now) => FinalIsUnclaimable(s.table, id);
    case RecoverSave(now) =>
      if s.doing.Recovering? && s.doing.read.Some? {
        RecoverSaveEffect(s.table, s.doing.id, now, cfg);
      }
    case Take(k, now) => FinalIsUnclaimable(s.table, id);
    case Work(act) =>
      if s.doing.Round? && s.doing.job.Some? {
        var job := s.doing.job.value;
        JobFacts(s.table, job, cfg);
        if !act.Store? {
          WorkKeeps(s.table, job, act, cfg);
        } else if job.phase.Saving? || job.phase.GivingUp? {
          StoreEffect(s.table, job, act.now, cfg);
        }
      }
    case _ =>
  }

  lemma FinalIsUnclaimable(t: TaskTable, id: string)
    requires WellKept(t) && id in t.rows && t.rows[id].payload.status in {Published, Failed, Cancelled}
    ensures !Claimable(t, id, Status.Scheduled) && !Claimable(t, id, Publishing)
  {
    StatusTextInjective(t.rows[id].payload.status, Status.Scheduled);
    StatusTextInjective(t.rows[id].payload.status, Publishing);
  }
}
