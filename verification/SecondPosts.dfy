/**
 When a crash makes a task be posted twice. A post that was accepted but not saved is forgotten with
 its worker; recovery gives the task back with its old due time (app/scheduler.py
 `recover_stuck_tasks`), and only the lateness check of the next try stands in the way. Which of the
 two settings is longer, the age at which a task counts as stuck or the lateness allowed, decides.
 */
module SecondPosts {
  import opened Wrappers
  import opened Tasks
  import opened Lifecycle
  import opened Jobs
  import opened TaskBooks
  import opened PollerProtocol

  /** `events` lead to a second post of `id`. */
  ghost predicate PostsTwice(s: Poller, events: seq<Event>, id: string, cfg: Config) {
    id in Run(s, events, cfg).table.rows && BookOf(Run(s, events, cfg), id).posts >= 2
  }

  // -------------------------------------------------- when stuck is later than late

  /** The job in hand for `id`. */
  function HandOf(doing: Doing, id: string): Option<Job> {
    if doing.Round? && doing.job.Some? && doing.job.value.id == id then doing.job else None
  }

  /** More time has passed since the task was due than makes it stuck. */
  predicate LongDue(task: PublishTask, clock: nat, cfg: Config) {
    task.scheduledAt.Some? && task.scheduledAt.value + cfg.staleAfter < clock
  }

  /** It is posted once at most: it is claimed no sooner than due, and once a post is lost it is long due
      whenever it can be tried, so that no check passes again. */
  ghost predicate OnceOk(task: PublishTask, b: Book, hand: Option<Job>, clock: nat, cfg: Config) {
    b.posts <= 1
    && (task.status == Publishing ==>
          task.scheduledAt.Some? && task.updatedAt.Some? && task.scheduledAt.value <= task.updatedAt.value)
    && (b.lost >= 1 && task.status == Status.Scheduled ==> LongDue(task, clock, cfg))
    && (b.lost >= 1 && hand.Some? ==> LongDue(task, clock, cfg) && !hand.value.phase.Checked? && !hand.value.called)
  }

  ghost predicate TaskOnce(s: Poller, id: string, cfg: Config)
    requires id in s.table.rows
  {
    OnceOk(s.table.rows[id].payload, BookOf(s, id), HandOf(s.doing, id), s.clock, cfg)
  }

  ghost predicate Once(s: Poller, cfg: Config) {
    forall id | id in s.table.rows :: TaskOnce(s, id, cfg)
  }

  lemma OneTouched(s: Poller, n: Poller, id: string, cfg: Config)
    requires Once(s, cfg) && s.clock == n.clock
    requires forall k | k in n.table.rows && k != id :: k in s.table.rows && n.table.rows[k] == s.table.rows[k]
    requires forall k | k != id :: HandOf(n.doing, k) == HandOf(s.doing, k) && BookOf(n, k) == BookOf(s, k)
    requires id in n.table.rows ==> TaskOnce(n, id, cfg)
    ensures Once(n, cfg)
  {
    hide OnceOk, HandOf, BookOf;
    forall k | k in n.table.rows ensures TaskOnce(n, k, cfg) {
      assert k != id ==> TaskOnce(s, k, cfg);
    }
  }

  lemma SameTasks(s: Poller, n: Poller, cfg: Config)
    requires Once(s, cfg) && s.clock <= n.clock && s.table == n.table && s.books == n.books
    requires forall k :: HandOf(n.doing, k) == HandOf(s.doing, k)
    ensures Once(n, cfg)
  {
    forall k | k in n.table.rows ensures TaskOnce(n, k, cfg) {
      assert TaskOnce(s, k, cfg);
    }
  }

  lemma RecoverOnce(s: Poller, id: string, now: nat, cfg: Config)
    requires Inv(s, cfg) && Once(s, cfg) && s.clock == now
    ensures Once(Happen(s, Recover(id, now), cfg), cfg)
  {
    hide WellKept, AccountsOk;
    var n := Happen(s, Recover(id, now), cfg);
    if s.doing.Resting? && Stale(s.table, id, now, cfg) {
      assert TaskOnce(s, id, cfg);
      RecoverEffect(s.table, id, now);
      OneTouched(s, n, id, cfg);
    }
  }

  lemma RecoverSaveOnce(s: Poller, now: nat, cfg: Config)
    requires Inv(s, cfg) && Once(s, cfg)
    ensures Once(Happen(s, RecoverSave(now), cfg), cfg)
  {
    hide WellKept, AccountsOk, Save, RecoveredTask;
    var n := Happen(s, RecoverSave(now), cfg);
    if s.doing.Recovering? && s.doing.read.Some? {
      var id := s.doing.id;
      assert TaskOnce(s, id, cfg);
      RecoverSaveEffect(s.table, id, now, cfg);
      OneTouched(s, n, id, cfg);
    }
  }

  lemma TakeOnce(s: Poller, id: string, now: nat, cfg: Config)
    requires Inv(s, cfg) && Once(s, cfg) && s.clock == now
    ensures Once(Happen(s, Take(id, now), cfg), cfg)
  {
    hide WellKept, AccountsOk, JobOk;
    var n := Happen(s, Take(id, now), cfg);
    if s.doing.Round? && s.doing.job.None? && id in s.doing.listed {
      if Claimable(s.table, id, Status.Scheduled) {
        assert TaskOnce(s, id, cfg);
        ClaimStarts(s.table, id, now, cfg);
        OneTouched(s, n, id, cfg);
      } else {
        SameTasks(s, n, cfg);
      }
    }
  }

  /** After a lost post no step leads to a call: the lateness check fails. */
  lemma ThinkOnce(t: TaskTable, job: Job, act: Act, b: Book, clock: nat, cfg: Config)
    requires JobOk(t, job, cfg) && !act.Store? && cfg.maxLate <= cfg.staleAfter
    requires ActTime(act).Some? ==> ActTime(act).value == clock
    requires job.posted || b.posts == b.lost
    requires OnceOk(job.base.payload, b, Some(job), clock, cfg)
    ensures OnceOk(job.base.payload, Entered(b, job, act), Step(t, job, act, cfg).job, clock, cfg)
  {
    WorkKeeps(t, job, act, cfg);
  }

  lemma WorkOnce(s: Poller, act: Act, cfg: Config)
    requires Inv(s, cfg) && Once(s, cfg) && cfg.maxLate <= cfg.staleAfter && !act.Store?
    requires ActTime(act).Some? ==> ActTime(act).value == s.clock
    requires s.doing.Round? && s.doing.job.Some?
    ensures Once(Happen(s, Work(act), cfg), cfg)
  {
    hide WellKept, OnceOk, JobOk, Entered, Step, AccountsOk, ListedOk, JobInTime, BookOf;
    var n, job := Happen(s, Work(act), cfg), s.doing.job.value;
    JobFacts(s.table, job, cfg);
    assert TaskOnce(s, job.id, cfg);
    LostOrPosted(s, cfg);
    WorkKeeps(s.table, job, act, cfg);
    ThinkOnce(s.table, job, act, BookOf(s, job.id), s.clock, cfg);
    BookEntered(s, n, job.id, Entered(BookOf(s, job.id), job, act));
    OneTouched(s, n, job.id, cfg);
  }

  lemma LostOrPosted(s: Poller, cfg: Config)
    requires Inv(s, cfg) && s.doing.Round? && s.doing.job.Some?
    ensures var job := s.doing.job.value;
            job.posted || BookOf(s, job.id).posts == BookOf(s, job.id).lost
  {
    hide WellKept, ListedOk;
    JobFacts(s.table, s.doing.job.value, cfg);
    assert AccountOk(s, s.doing.job.value.id, cfg);
  }

  lemma BookEntered(s: Poller, n: Poller, id: string, b: Book)
    requires n.books == s.books[id := b]
    ensures BookOf(n, id) == b && forall k | k != id :: BookOf(n, k) == BookOf(s, k)
  {
  }

  lemma StoreOnce(s: Poller, now: nat, cfg: Config)
    requires Inv(s, cfg) && Once(s, cfg) && s.doing.Round? && s.doing.job.Some?
    ensures Once(Happen(s, Work(Act.Store(now)), cfg), cfg)
  {
    hide WellKept, AccountsOk, JobOk, Save;
    var n, job := Happen(s, Work(Act.Store(now)), cfg), s.doing.job.value;
    JobFacts(s.table, job, cfg);
    assert TaskOnce(s, job.id, cfg);
    if job.phase.Saving? || job.phase.GivingUp? {
      StoreEffect(s.table, job, now, cfg);
    }
    OneTouched(s, n, job.id, cfg);
  }

  lemma DieOnce(s: Poller, cfg: Config)
    requires Inv(s, cfg) && Once(s, cfg)
    ensures Once(Happen(s, Die, cfg), cfg)
  {
    hide WellKept, AccountsOk, JobOk;
    var n := Happen(s, Die, cfg);
    if s.doing.Recovering? {
      assert TaskOnce(s, s.doing.id, cfg);
      OneTouched(s, n, s.doing.id, cfg);
    } else if s.doing.Round? && s.doing.job.Some? {
      JobFacts(s.table, s.doing.job.value, cfg);
      assert TaskOnce(s, s.doing.job.value.id, cfg);
      OneTouched(s, n, s.doing.job.value.id, cfg);
    } else {
      SameTasks(s, n, cfg);
    }
  }

  lemma CreateOnce(s: Poller, task: PublishTask, now: nat, cfg: Config)
    requires Inv(s, cfg) && Once(s, cfg)
    ensures Once(Happen(s, Create(task, now), cfg), cfg)
  {
    hide WellKept, JobOk, AccountsOk, Once, TaskOnce, ListedOk;
    var n := Happen(s, Create(task, now), cfg);
    if task.id !in s.table.rows && task.status == Status.Scheduled && task.attempts == 0 {
      NotInHand(s, task.id, cfg);
      NewOnce(s, n, task, now, cfg);
    }
  }

  lemma NotInHand(s: Poller, id: string, cfg: Config)
    requires Inv(s, cfg) && id !in s.table.rows
    ensures BookOf(s, id) == EMPTY_BOOK && HandOf(s.doing, id).None?
  {
    hide WellKept, JobOk, AccountOk, ListedOk;
    if s.doing.Round? && s.doing.job.Some? {
      JobFacts(s.table, s.doing.job.value, cfg);
    }
  }

  lemma NewOnce(s: Poller, n: Poller, task: PublishTask, now: nat, cfg: Config)
    requires Once(s, cfg) && task.status == Status.Scheduled && n == s.(table := n.table)
    requires n.table.rows == s.table.rows[task.id := SavedRow(task, now)]
    requires BookOf(s, task.id) == EMPTY_BOOK && HandOf(s.doing, task.id).None?
    ensures Once(n, cfg)
  {
    assert BookOf(n, task.id) == EMPTY_BOOK;
    OneTouched(s, n, task.id, cfg);
  }

  lemma HappenOnce(s: Poller, e: Event, cfg: Config)
    requires Inv(s, cfg) && Once(s, cfg) && cfg.maxLate <= cfg.staleAfter && (TimeOf(e).Some? ==> TimeOf(e).value == s.clock)
    ensures Once(Happen(s, e, cfg), cfg)
  {
    hide Inv, OnceOk;
    match e
    case Recover(id, now) => RecoverOnce(s, id, now, cfg);
    case RecoverRead => SameTasks(s, Happen(s, e, cfg), cfg);
    case RecoverSave(now) => RecoverSaveOnce(s, now, cfg);
    case List(batch, now) => SameTasks(s, Happen(s, e, cfg), cfg);
    case Take(id, now) => TakeOnce(s, id, now, cfg);
    case Work(act) =>
      if s.doing.Round? && s.doing.job.Some? {
        if act.Store? {
          StoreOnce(s, act.now, cfg);
        } else {
          WorkOnce(s, act, cfg);
        }
      }
    case EndRound => SameTasks(s, Happen(s, e, cfg), cfg);
    case Die => DieOnce(s, cfg);
    case Create(task, now) => CreateOnce(s, task, now, cfg);
  }

  lemma {:induction false} RunOnce(s: Poller, events: seq<Event>, cfg: Config)
    requires Inv(s, cfg) && Once(s, cfg) && cfg.Valid() && cfg.maxLate <= cfg.staleAfter
    ensures Inv(Run(s, events, cfg), cfg) && Once(Run(s, events, cfg), cfg)
    decreases |events|
  {
    hide Inv, Happen, OnceOk;
    if events != [] {
      var e := events[0];
      if InTime(s, e) {
        var t := s.(clock := TimeOf(e).GetOr(s.clock));
        ClockKeeps(s, t.clock, cfg);
        SameTasks(s, t, cfg);
        HappenKeeps(t, e, cfg);
        HappenOnce(t, e, cfg);
      }
      RunOnce(Next(s, e, cfg), events[1..], cfg);
    }
  }

  /** When a task is too late for another try by the time it counts as stuck, it is posted once at most,
      wherever the worker dies and however often, and it is `published` only when it was. */
  lemma OnePostWhenStuckIsLate(s: Poller, events: seq<Event>, id: string, cfg: Config)
    requires Init(s) && cfg.Valid() && cfg.maxLate <= cfg.staleAfter
    ensures var n := Run(s, events, cfg);
            id in n.table.rows ==>
              BookOf(n, id).posts <= 1
              && (n.table.rows[id].payload.status == Published ==> BookOf(n, id).posts == 1 && BookOf(n, id).lost == 0)
  {
    InitIsInv(s, cfg);
    RunOnce(s, events, cfg);
    var n := Run(s, events, cfg);
    if id in n.table.rows {
      assert TaskOnce(n, id, cfg);
      PollerIsSafe(s, events, id, cfg);
    }
  }

  // -------------------------------------------------- when stuck is sooner than late

  const NOTHING_YET := Poller(EMPTY_TASKS, 0, Resting, map[])

  const POST := Accepted(Some("1"), None, None, None, None, "live_facebook")

  ghost predicate Reached(s: Poller, cfg: Config) {
    exists events :: Run(NOTHING_YET, events, cfg) == s
  }

  lemma {:induction false} RunThen(s: Poller, events: seq<Event>, e: Event, cfg: Config)
    ensures Run(s, events + [e], cfg) == Next(Run(s, events, cfg), e, cfg)
    decreases |events|
  {
    hide Next;
    var longer := events + [e];
    if events == [] {
      assert longer[1..] == [];
    } else {
      assert longer[0] == events[0] && longer[1..] == events[1..] + [e];
      RunThen(Next(s, events[0], cfg), events[1..], e, cfg);
    }
  }

  /** The next event, at the time it happens. */
  lemma Reach(s: Poller, e: Event, cfg: Config) returns (n: Poller)
    requires Reached(s, cfg) && InTime(s, e)
    ensures Reached(n, cfg) && n == Happen(s.(clock := TimeOf(e).GetOr(s.clock)), e, cfg)
  {
    hide Happen;
    n := Next(s, e, cfg);
    var events :| Run(NOTHING_YET, events, cfg) == s;
    RunThen(NOTHING_YET, events, e, cfg);
    assert Run(NOTHING_YET, events + [e], cfg) == n;
  }

  /** How far a task has got: its row and its posts. */
  ghost predicate Stands(s: Poller, id: string, status: Status, due: nat, attempts: nat, posts: nat) {
    id in s.table.rows && Synced(id, s.table.rows[id])
    && s.table.rows[id].payload.status == status && s.table.rows[id].payload.scheduledAt == Some(due)
    && s.table.rows[id].payload.attempts == attempts && BookOf(s, id).posts == posts
  }

  lemma Created(task: PublishTask, cfg: Config) returns (n: Poller)
    requires task.status == Status.Scheduled && task.attempts == 0 && task.scheduledAt.Some?
    ensures Reached(n, cfg) && n.doing.Resting? && n.clock == task.scheduledAt.value
    ensures Stands(n, task.id, Status.Scheduled, n.clock, 0, 0) && BookOf(n, task.id).interrupted == 0
  {
    assert Run(NOTHING_YET, [], cfg) == NOTHING_YET;
    n := Reach(NOTHING_YET, Create(task, task.scheduledAt.value), cfg);
  }

  /** The poller lists a due task and claims it. */
  lemma Claimed(s: Poller, id: string, due: nat, attempts: nat, posts: nat, cfg: Config) returns (n: Poller)
    requires Reached(s, cfg) && s.doing.Resting? && Stands(s, id, Status.Scheduled, due, attempts, posts) && due <= s.clock
    ensures Reached(n, cfg) && n.clock == s.clock && n.books == s.books
    ensures Stands(n, id, Publishing, due, attempts + 1, posts) && n.table.rows[id].payload.updatedAt == Some(n.clock)
    ensures n.doing.Round? && n.doing.job == Some(NewJob(id, n.table.rows[id]))
  {
    hide Synced;
    var t := Reach(s, List({id}, s.clock), cfg);
    assert id in t.doing.listed;
    ClaimedSynced(id, s.table.rows[id], s.clock);
    n := Reach(t, Take(id, s.clock), cfg);
  }

  lemma ClaimedSynced(id: string, row: TaskRow, now: nat)
    requires Synced(id, row)
    ensures row.status == StatusText(row.payload.status)
    ensures Synced(id, ClaimedRow(row, Publishing, now))
    ensures Synced(id, ClaimedRow(row, Status.Scheduled, now))
  {
  }

  /** A step of the job in hand that leaves the table alone. */
  lemma Stepped(s: Poller, act: Act, cfg: Config) returns (n: Poller)
    requires Reached(s, cfg) && s.doing.Round? && s.doing.job.Some? && (ActTime(act).Some? ==> ActTime(act).value == s.clock)
    requires Step(s.table, s.doing.job.value, act, cfg).table == s.table
    ensures Reached(n, cfg) && n.table == s.table && n.clock == s.clock
    ensures n.doing == s.doing.(job := Step(s.table, s.doing.job.value, act, cfg).job)
    ensures n.books == s.books[s.doing.job.value.id := Entered(BookOf(s, s.doing.job.value.id), s.doing.job.value, act)]
  {
    hide Step, Entered;
    n := Reach(s, Work(act), cfg);
  }

  /** The claimed task is read, found in time and accepted by the platform. */
  lemma Posted(s: Poller, id: string, due: nat, attempts: nat, posts: nat, cfg: Config) returns (n: Poller)
    requires Reached(s, cfg) && Stands(s, id, Publishing, due, attempts, posts) && due <= s.clock <= due + cfg.maxLate
    requires s.doing.Round? && s.doing.job == Some(NewJob(id, s.table.rows[id]))
    ensures Reached(n, cfg) && n.clock == s.clock && n.table == s.table
    ensures Stands(n, id, Publishing, due, attempts, posts + 1) && BookOf(n, id).interrupted == BookOf(s, id).interrupted
    ensures n.doing.Round? && n.doing.job.Some? && n.doing.job.value.id == id
  {
    hide Synced, PublishedTask, Reached;
    var t := Stepped(s, Read, cfg);
    var u := Stepped(t, CheckLate(s.clock), cfg);
    n := Stepped(u, CallPublisher(POST, s.clock), cfg);
  }

  /** The worker dies with the post accepted and not saved. */
  lemma PostedAndDied(s: Poller, id: string, due: nat, attempts: nat, posts: nat, cfg: Config) returns (n: Poller)
    requires Reached(s, cfg) && s.doing.Resting? && Stands(s, id, Status.Scheduled, due, attempts, posts)
    requires due <= s.clock <= due + cfg.maxLate
    ensures Reached(n, cfg) && n.doing.Resting? && n.clock == s.clock
    ensures Stands(n, id, Publishing, due, attempts + 1, posts + 1) && n.table.rows[id].payload.updatedAt == Some(n.clock)
    ensures BookOf(n, id).interrupted == BookOf(s, id).interrupted
  {
    hide Synced, Reached;
    var t := Claimed(s, id, due, attempts, posts, cfg);
    var u := Posted(t, id, due, attempts + 1, posts, cfg);
    n := Reach(u, Die, cfg);
  }

  lemma Recovering(s: Poller, id: string, due: nat, attempts: nat, posts: nat, now: nat, cfg: Config) returns (n: Poller)
    requires Reached(s, cfg) && s.doing.Resting? && Stands(s, id, Publishing, due, attempts, posts)
    requires s.table.rows[id].payload.updatedAt.Some? && s.table.rows[id].payload.updatedAt.value + cfg.staleAfter < now && s.clock <= now
    ensures Reached(n, cfg) && n.doing == Doing.Recovering(id, None) && n.clock == now
    ensures Stands(n, id, Status.Scheduled, due, attempts, posts) && BookOf(n, id) == BookOf(s, id)
  {
    hide Synced, Reached;
    ClaimedSynced(id, s.table.rows[id], now);
    n := Reach(s, Recover(id, now), cfg);
  }

  /** The stuck task is claimed by a recovery that dies before its save. */
  lemma RecoveryDied(s: Poller, id: string, due: nat, attempts: nat, posts: nat, now: nat, cfg: Config) returns (n: Poller)
    requires Reached(s, cfg) && s.doing.Resting? && Stands(s, id, Publishing, due, attempts, posts)
    requires s.table.rows[id].payload.updatedAt.Some? && s.table.rows[id].payload.updatedAt.value + cfg.staleAfter < now && s.clock <= now
    ensures Reached(n, cfg) && n.doing.Resting? && n.clock == now
    ensures Stands(n, id, Status.Scheduled, due, attempts, posts)
  {
    hide Synced, Reached;
    var t := Recovering(s, id, due, attempts, posts, now, cfg);
    n := Reach(t, Die, cfg);
  }

  /** The stuck task is recovered; it has a try left. */
  lemma Recovered(s: Poller, id: string, due: nat, attempts: nat, posts: nat, now: nat, cfg: Config) returns (n: Poller)
    requires Reached(s, cfg) && s.doing.Resting? && Stands(s, id, Publishing, due, attempts, posts) && attempts < cfg.maxAttempts
    requires s.table.rows[id].payload.updatedAt.Some? && s.table.rows[id].payload.updatedAt.value + cfg.staleAfter < now && s.clock <= now
    ensures Reached(n, cfg) && n.doing.Resting? && n.clock == now
    ensures Stands(n, id, Status.Scheduled, due, attempts, posts) && BookOf(n, id) == BookOf(s, id)
  {
    hide Reached;
    var t := Recovering(s, id, due, attempts, posts, now, cfg);
    var u := Reach(t, RecoverRead, cfg);
    n := Reach(u, RecoverSave(now), cfg);
  }

  /** Every task with a time can be posted twice, at the very time it is due and again as soon as it
      counts as stuck: by way of a recovery that is itself interrupted, whatever the number of tries
      allowed, and of one that is not if there are two. */
  lemma SecondPostHappens(task: PublishTask, interrupted: bool, cfg: Config) returns (events: seq<Event>)
    requires cfg.Valid() && task.status == Status.Scheduled && task.attempts == 0 && task.scheduledAt.Some?
    requires cfg.staleAfter < cfg.maxLate && (interrupted || 2 <= cfg.maxAttempts)
    ensures Init(NOTHING_YET) && PostsTwice(NOTHING_YET, events, task.id, cfg)
    ensures !interrupted ==> BookOf(Run(NOTHING_YET, events, cfg), task.id).interrupted == 0
  {
    hide Stands, BookOf, Run;
    var id, due := task.id, task.scheduledAt.value;
    var s := Created(task, cfg);
    var t := PostedAndDied(s, id, due, 0, 0, cfg);
    var u;
    assert Stands(t, id, Publishing, due, 1, 1);
    if interrupted {
      u := RecoveryDied(t, id, due, 1, 1, due + cfg.staleAfter + 1, cfg);
    } else {
      u := Recovered(t, id, due, 1, 1, due + cfg.staleAfter + 1, cfg);
    }
    var n := PostedAndDied(u, id, due, 1, 1, cfg);
    events :| Run(NOTHING_YET, events, cfg) == n;
    assert Stands(n, id, Publishing, due, 2, 2);
    TwoPosts(n, id, due);
  }

  lemma TwoPosts(n: Poller, id: string, due: nat)
    requires Stands(n, id, Publishing, due, 2, 2)
    ensures id in n.table.rows && BookOf(n, id).posts >= 2
  {
  }

  // ----------------------------------------------------------- the exact condition

  const SAMPLE := PublishTask("t1", "omniflow", "c1", "d1", "facebook", Status.Scheduled, Some(0), None, None, None, None, None, 0, None, [])

  /** A task can be posted twice if and only if it can count as stuck while it may still be tried. */
  lemma SecondPostIffStuckBeforeLate(cfg: Config)
    requires cfg.Valid()
    ensures (exists s, events, id :: Init(s) && PostsTwice(s, events, id, cfg)) <==> cfg.staleAfter < cfg.maxLate
  {
    hide Init, Run;
    if s, events, id :| Init(s) && PostsTwice(s, events, id, cfg) {
      if cfg.maxLate <= cfg.staleAfter {
        OnePostWhenStuckIsLate(s, events, id, cfg);
      }
    }
    if cfg.staleAfter < cfg.maxLate {
      var events := SecondPostHappens(SAMPLE, true, cfg);
    }
  }

  /** Where every recovery completes, it takes a second try as well. */
  lemma SecondPostAfterRecovery(cfg: Config)
    requires cfg.Valid()
    ensures (exists s, events, id :: Init(s) && PostsTwice(s, events, id, cfg) && BookOf(Run(s, events, cfg), id).interrupted == 0)
            <==> cfg.staleAfter < cfg.maxLate && 2 <= cfg.maxAttempts
  {
    hide Init, Run;
    if s, events, id :| Init(s) && PostsTwice(s, events, id, cfg) && BookOf(Run(s, events, cfg), id).interrupted == 0 {
      if cfg.maxLate <= cfg.staleAfter {
        OnePostWhenStuckIsLate(s, events, id, cfg);
      }
      PollerIsSafe(s, events, id, cfg);
    }
    if cfg.staleAfter < cfg.maxLate && 2 <= cfg.maxAttempts {
      var events := SecondPostHappens(SAMPLE, false, cfg);
    }
  }
}
