/**
 The workers of WorkerProtocol under a clock that never runs backwards: when the publisher is called.
 Several workers can hold lists of different age, so a task can be claimed before it is due again; this
 says exactly when that happens and what holds all the same.
 */
module WorkerTimes {
  import opened Wrappers
  import opened Tasks
  import opened Lifecycle
  import opened Jobs
  import TaskBooks
  import W = WorkerProtocol

  /** One call of the publisher: when its task was claimed, found in time and published, what was due
      when at the claim, on which attempt, and whether it was saved for a retry. */
  datatype Deed = Deed(claimed: nat, checked: nat, called: nat, due: nat, attempts: nat, retried: bool)

  /** `claims` holds when each busy worker won its claim. */
  datatype Timed = Timed(cluster: W.Cluster, clock: nat, claims: map<nat, nat>, deeds: map<string, seq<Deed>>)

  function DeedsOf(s: Timed, id: string): seq<Deed> {
    if id in s.deeds then s.deeds[id] else []
  }

  function TimeOf(e: W.Event): Option<nat> {
    match e
    case List(_, _, _, now) => Some(now)
    case Poll(_, _, now) => Some(now)
    case Work(_, act) => ActTime(act)
    case Abandon(_) => None
    case Create(_, now) => Some(now)
  }

  /** The deeds after `act`: a call is entered when it is made, a retry when it is saved. */
  function Entered(ds: seq<Deed>, job: Job, claimed: nat, act: Act): seq<Deed> {
    if act.CallPublisher? && job.phase.Checked? then
      ds + [Deed(claimed, job.checkedAt, act.now, job.base.payload.scheduledAt.GetOr(claimed), job.base.payload.attempts, false)]
    else if act.Store? && job.phase.Saving? && job.phase.task.status == Status.Scheduled && ds != [] then
      ds[|ds| - 1 := ds[|ds| - 1].(retried := true)]
    else ds
  }

  /** An event at the time it happens. */
  function Happen(s: Timed, e: W.Event, cfg: Config): Timed {
    var cluster := W.Next(s.cluster, e, cfg);
    match e
    case Poll(w, _, now) =>
      if w !in s.cluster.busy && w in cluster.busy then s.(cluster := cluster, claims := s.claims[w := now]) else s.(cluster := cluster)
    case Work(w, act) =>
      if w !in s.cluster.busy || w !in s.claims then s.(cluster := cluster)
      else
        var job := s.cluster.busy[w];
        s.(cluster := cluster, deeds := s.deeds[job.id := Entered(DeedsOf(s, job.id), job, s.claims[w], act)])
    case _ => s.(cluster := cluster)
  }

  predicate InTime(s: Timed, e: W.Event) {
    TimeOf(e).Some? ==> s.clock <= TimeOf(e).value
  }

  function Next(s: Timed, e: W.Event, cfg: Config): Timed {
    if InTime(s, e) then Happen(s.(clock := TimeOf(e).GetOr(s.clock)), e, cfg) else s
  }

  function Run(s: Timed, events: seq<W.Event>, cfg: Config): Timed
    decreases |events|
  {
    if events == [] then s else Run(Next(s, events[0], cfg), events[1..], cfg)
  }

  ghost predicate Init(s: Timed) {
    W.Init(s.cluster) && s.claims == map[] && s.deeds == map[]
  }

  // ------------------------------------------------------------ the invariant

  /** A call follows its check, its check its claim, and the check was not late. Another call comes only
      after a transient failure, is claimed later, on the next attempt, and was then due no sooner than
      the delay after the failed call. */
  ghost predicate DeedsOk(ds: seq<Deed>, cfg: Config) {
    (forall i | 0 <= i < |ds| :: ds[i].claimed <= ds[i].checked <= ds[i].called && ds[i].checked <= ds[i].due + cfg.maxLate)
    && (forall i | 0 <= i < |ds| - 1 ::
          ds[i].retried && ds[i].called <= ds[i + 1].claimed && ds[i].attempts + 1 == ds[i + 1].attempts
          && ds[i].called + Delay(cfg, ds[i].attempts) <= ds[i + 1].due)
  }

  /** What the last call leaves for a task that waits with so many attempts made. */
  ghost predicate Ready(ds: seq<Deed>, attempts: int, due: Option<nat>, cfg: Config) {
    ds != [] ==>
      var last := ds[|ds| - 1];
      last.retried && last.attempts == attempts && due.Some? && last.called + Delay(cfg, last.attempts) <= due.value
  }

  ghost predicate Past(ds: seq<Deed>, clock: nat) {
    ds != [] ==> ds[|ds| - 1].called <= clock
  }

  ghost predicate TaskOk(ds: seq<Deed>, task: PublishTask, clock: nat, cfg: Config) {
    DeedsOk(ds, cfg) && Past(ds, clock) && (task.status == Status.Scheduled ==> Ready(ds, task.attempts, task.scheduledAt, cfg))
  }

  /** A job in hand, claimed at `claimed`. */
  ghost predicate JobTimed(job: Job, claimed: nat, ds: seq<Deed>, clock: nat, cfg: Config) {
    var base := job.base.payload;
    && base.scheduledAt.Some? && claimed <= clock
    && (if job.called then
          ds != [] && var last := ds[|ds| - 1];
          last.claimed == claimed && last.due == base.scheduledAt.value && last.attempts == base.attempts
          && (job.phase.Saving? && job.phase.task.status == Status.Scheduled ==>
                job.phase.task.scheduledAt.Some? && job.phase.task.attempts == base.attempts
                && last.called + Delay(cfg, base.attempts) <= job.phase.task.scheduledAt.value)
        else
          && Ready(ds, base.attempts - 1, base.scheduledAt, cfg) && Past(ds, claimed)
          && (job.phase.Checked? ==> claimed <= job.checkedAt <= clock))
  }

  ghost predicate TasksOk(s: Timed, cfg: Config) {
    (forall id | id in s.cluster.table.rows :: TaskOk(DeedsOf(s, id), s.cluster.table.rows[id].payload, s.clock, cfg))
    && (forall id | id in s.deeds :: id in s.cluster.table.rows)
  }

  ghost predicate JobsTimed(s: Timed, cfg: Config) {
    forall w | w in s.cluster.busy ::
      w in s.claims && JobTimed(s.cluster.busy[w], s.claims[w], DeedsOf(s, s.cluster.busy[w].id), s.clock, cfg)
  }

  /** A list names tasks that have a due time. */
  ghost predicate ListsOk(c: W.Cluster) {
    forall w, id | w in c.lists && id in c.lists[w] ::
      id in c.table.rows && (c.table.rows[id].payload.status == Status.Scheduled ==> c.table.rows[id].payload.scheduledAt.Some?)
  }

  ghost predicate Inv(s: Timed, cfg: Config) {
    W.Inv(s.cluster, cfg) && TasksOk(s, cfg) && JobsTimed(s, cfg) && ListsOk(s.cluster)
  }

  // ------------------------------------------------------------ small changes

  lemma InitIsInv(s: Timed, cfg: Config)
    requires Init(s)
    ensures Inv(s, cfg)
  {
    hide W.Inv, TaskOk;
    W.InitIsInv(s.cluster, cfg);
    NoDeeds(s, cfg);
  }

  lemma NoDeeds(s: Timed, cfg: Config)
    requires s.deeds == map[]
    ensures forall id | id in s.cluster.table.rows :: DeedsOf(s, id) == [] && TaskOk([], s.cluster.table.rows[id].payload, s.clock, cfg)
  {
  }

  lemma ClockRuns(s: Timed, later: nat, cfg: Config)
    requires TasksOk(s, cfg) && JobsTimed(s, cfg) && s.clock <= later
    ensures TasksOk(s.(clock := later), cfg) && JobsTimed(s.(clock := later), cfg)
  {
    hide DeedsOk, Ready;
    var n := s.(clock := later);
    forall id | id in n.cluster.table.rows ensures TaskOk(DeedsOf(n, id), n.cluster.table.rows[id].payload, n.clock, cfg) {
      assert TaskOk(DeedsOf(s, id), s.cluster.table.rows[id].payload, s.clock, cfg);
    }
    forall w | w in n.cluster.busy
      ensures JobTimed(n.cluster.busy[w], n.claims[w], DeedsOf(n, n.cluster.busy[w].id), n.clock, cfg)
    {
      assert JobTimed(s.cluster.busy[w], s.claims[w], DeedsOf(s, s.cluster.busy[w].id), s.clock, cfg);
    }
  }

  /** When only the task `id` and the worker `w` are touched, only they need a look. */
  lemma OneTask(s: Timed, n: Timed, w: nat, id: string, cfg: Config)
    requires TasksOk(s, cfg) && JobsTimed(s, cfg) && s.clock == n.clock
    requires forall k | k != id :: k in n.cluster.table.rows <==> k in s.cluster.table.rows
    requires forall k | k in s.cluster.table.rows && k != id :: n.cluster.table.rows[k] == s.cluster.table.rows[k]
    requires forall k | k != id :: DeedsOf(n, k) == DeedsOf(s, k) && (k in n.deeds ==> k in s.deeds)
    requires forall v | v in n.cluster.busy && v != w ::
               v in s.cluster.busy && n.cluster.busy[v] == s.cluster.busy[v] && v in n.claims && (v in s.claims ==> n.claims[v] == s.claims[v])
               && s.cluster.busy[v].id != id
    requires id in n.cluster.table.rows && TaskOk(DeedsOf(n, id), n.cluster.table.rows[id].payload, n.clock, cfg)
    requires w in n.cluster.busy ==>
               w in n.claims && JobTimed(n.cluster.busy[w], n.claims[w], DeedsOf(n, n.cluster.busy[w].id), n.clock, cfg)
    ensures TasksOk(n, cfg) && JobsTimed(n, cfg)
  {
    hide TaskOk, JobTimed;
  }

  // --------------------------------------------------------------- the events

  lemma ListKeeps(s: Timed, w: nat, leader: bool, batch: set<string>, now: nat, cfg: Config)
    requires TasksOk(s, cfg) && JobsTimed(s, cfg) && ListsOk(s.cluster)
    ensures var n := Happen(s, W.List(w, leader, batch, now), cfg);
            TasksOk(n, cfg) && JobsTimed(n, cfg) && ListsOk(n.cluster)
  {
    hide TasksOk, JobsTimed;
    SameTimes(s, Happen(s, W.List(w, leader, batch, now), cfg), cfg);
  }

  lemma PollKeeps(s: Timed, w: nat, id: string, now: nat, cfg: Config)
    requires Inv(s, cfg) && now == s.clock
    ensures var n := Happen(s, W.Poll(w, id, now), cfg);
            TasksOk(n, cfg) && JobsTimed(n, cfg) && ListsOk(n.cluster)
  {
    hide W.Inv, W.Next, TasksOk, JobsTimed, ListsOk, Taken;
    var n := Happen(s, W.Poll(w, id, now), cfg);
    InvKept(s.cluster, cfg);
    PollChanges(s.cluster, w, id, now, cfg);
    if Claims(s.cluster, w, id) {
      TakenIsBusy(s.cluster, n.cluster, w, id);
      PollTimed(s, n, w, id, now, cfg);
    } else {
      SameTimes(s, n, cfg);
    }
  }

  lemma TakenIsBusy(c: W.Cluster, n: W.Cluster, w: nat, id: string)
    requires Taken(c, n, w, id)
    ensures w !in c.busy && w in n.busy
  {
  }

  lemma SameTimes(s: Timed, n: Timed, cfg: Config)
    requires TasksOk(s, cfg) && JobsTimed(s, cfg)
    requires n.cluster.table == s.cluster.table && n.cluster.busy == s.cluster.busy && n.clock == s.clock && n.claims == s.claims && n.deeds == s.deeds
    ensures TasksOk(n, cfg) && JobsTimed(n, cfg)
  {
    hide TaskOk, JobTimed;
    assert forall id :: DeedsOf(n, id) == DeedsOf(s, id);
  }

  lemma PollTimed(s: Timed, n: Timed, w: nat, id: string, now: nat, cfg: Config)
    requires TasksOk(s, cfg) && JobsTimed(s, cfg) && now == s.clock && Taken(s.cluster, n.cluster, w, id)
    requires s.cluster.table.rows[id].payload.scheduledAt.Some?
    requires n == s.(cluster := n.cluster, claims := s.claims[w := now])
    ensures TasksOk(n, cfg) && JobsTimed(n, cfg)
  {
    hide TaskOk, JobTimed;
    assert forall k :: DeedsOf(n, k) == DeedsOf(s, k);
    var was, job := s.cluster.table.rows[id].payload, n.cluster.busy[w];
    assert TaskOk(DeedsOf(s, id), was, s.clock, cfg);
    ClaimTimed(DeedsOf(s, id), was, job, now, cfg);
    TaskClaimed(DeedsOf(s, id), was, n.cluster.table.rows[id].payload, s.clock, cfg);
    OneTask(s, n, w, id, cfg);
  }

  lemma InvKept(c: W.Cluster, cfg: Config)
    requires W.Inv(c, cfg)
    ensures WellKept(c.table) && W.JobsOk(c, cfg) && W.Exclusive(c) && W.ClaimsOk(c)
  {
  }

  predicate Claims(c: W.Cluster, w: nat, id: string) {
    w !in c.busy && w in c.lists && id in c.lists[w] && Claimable(c.table, id, Status.Scheduled)
  }

  /** A claim by a listed id: what changes, and that nobody else has the task. */
  lemma PollChanges(c: W.Cluster, w: nat, id: string, now: nat, cfg: Config)
    requires WellKept(c.table) && W.ClaimsOk(c) && ListsOk(c)
    ensures var n := W.Next(c, W.Poll(w, id, now), cfg);
            && ListsOk(n)
            && (!Claims(c, w, id) ==> n == c.(lists := n.lists))
            && (Claims(c, w, id) ==> Taken(c, n, w, id) && c.table.rows[id].payload.scheduledAt.Some?)
  {
    hide WellKept, Claim, ListsOk;
    if Claims(c, w, id) {
      ClaimStarts(c.table, id, now, cfg);
      assert !W.Held(c, id);
      assert forall v | v in c.busy :: c.busy[v].id != id;
      ListedIsTimed(c, w, id);
    }
    ListsShrink(c, W.Next(c, W.Poll(w, id, now), cfg), id);
  }

  ghost predicate Taken(c: W.Cluster, n: W.Cluster, w: nat, id: string) {
    id in c.table.rows && c.table.rows[id].payload.status == Status.Scheduled && w !in c.busy
    && n.table.rows.Keys == c.table.rows.Keys
    && (forall k | k in c.table.rows && k != id :: n.table.rows[k] == c.table.rows[k])
    && n.table.rows[id].payload.status == Publishing
    && n.table.rows[id].payload.attempts == c.table.rows[id].payload.attempts + 1
    && n.table.rows[id].payload.scheduledAt == c.table.rows[id].payload.scheduledAt
    && n.busy == c.busy[w := NewJob(id, n.table.rows[id])]
    && (forall v | v in c.busy :: c.busy[v].id != id)
  }

  lemma ListedIsTimed(c: W.Cluster, w: nat, id: string)
    requires ListsOk(c) && w in c.lists && id in c.lists[w]
    ensures id in c.table.rows && (c.table.rows[id].payload.status == Status.Scheduled ==> c.table.rows[id].payload.scheduledAt.Some?)
  {
  }

  /** Lists that only shrink stay in order while at most `id` changes, and not to a task without a time. */
  lemma ListsShrink(c: W.Cluster, n: W.Cluster, id: string)
    requires ListsOk(c)
    requires forall v | v in n.lists :: v in c.lists && n.lists[v] <= c.lists[v]
    requires forall k | k in c.table.rows :: k in n.table.rows && (k != id ==> n.table.rows[k] == c.table.rows[k])
    requires id in n.table.rows && id in c.table.rows && n.table.rows[id] != c.table.rows[id] && n.table.rows[id].payload.status == Status.Scheduled ==>
               n.table.rows[id].payload.scheduledAt.Some?
    ensures ListsOk(n)
  {
    forall w, k | w in n.lists && k in n.lists[w]
      ensures k in n.table.rows && (n.table.rows[k].payload.status == Status.Scheduled ==> n.table.rows[k].payload.scheduledAt.Some?)
    {
      assert k in c.lists[w];
      ListedIsTimed(c, w, k);
    }
  }

  lemma ClaimTimed(ds: seq<Deed>, was: PublishTask, job: Job, now: nat, cfg: Config)
    requires TaskOk(ds, was, now, cfg) && was.status == Status.Scheduled && was.scheduledAt.Some?
    requires job == NewJob(job.id, job.base) && job.base.payload.attempts == was.attempts + 1 && job.base.payload.scheduledAt == was.scheduledAt
    ensures JobTimed(job, now, ds, now, cfg)
  {
  }

  lemma TaskClaimed(ds: seq<Deed>, was: PublishTask, task: PublishTask, clock: nat, cfg: Config)
    requires TaskOk(ds, was, clock, cfg) && task.status != Status.Scheduled
    ensures TaskOk(ds, task, clock, cfg)
  {
  }

  lemma ThinkKeeps(s: Timed, w: nat, act: Act, cfg: Config)
    requires Inv(s, cfg) && w in s.cluster.busy && !act.Store? && (ActTime(act).Some? ==> ActTime(act).value == s.clock)
    ensures var n := Happen(s, W.Work(w, act), cfg);
            TasksOk(n, cfg) && JobsTimed(n, cfg) && ListsOk(n.cluster)
  {
    hide W.Inv, W.Next, TasksOk, JobsTimed, W.JobsOk, W.Exclusive, JobOk, WellKept, Entered, JobTimed, TaskOk;
    InvKept(s.cluster, cfg);
    var job := s.cluster.busy[w];
    var ds := DeedsOf(s, job.id);
    InHand(s, w, cfg);
    TaskInHand(s, job.id, cfg);
    ThoughtTimed(s.cluster.table, job, act, s.claims[w], ds, s.clock, cfg);
    ThoughtResult(s.cluster, w, act, cfg);
    ThoughtTask(ds, job, s.claims[w], act, s.clock, cfg);
    Thought(s, Happen(s, W.Work(w, act), cfg), w, Step(s.cluster.table, job, act, cfg).job.value, Entered(ds, job, s.claims[w], act), cfg);
  }

  lemma TaskInHand(s: Timed, id: string, cfg: Config)
    requires TasksOk(s, cfg) && id in s.cluster.table.rows
    ensures TaskOk(DeedsOf(s, id), s.cluster.table.rows[id].payload, s.clock, cfg) && Past(DeedsOf(s, id), s.clock)
  {
  }

  lemma Thought(s: Timed, n: Timed, w: nat, next: Job, ds: seq<Deed>, cfg: Config)
    requires TasksOk(s, cfg) && JobsTimed(s, cfg) && W.Exclusive(s.cluster) && w in s.cluster.busy && w in s.claims
    requires next.id == s.cluster.busy[w].id && next.id in s.cluster.table.rows
    requires n.cluster.table == s.cluster.table && n.cluster.busy == s.cluster.busy[w := next]
    requires n == s.(cluster := n.cluster, deeds := s.deeds[next.id := ds])
    requires TaskOk(ds, s.cluster.table.rows[next.id].payload, s.clock, cfg) && JobTimed(next, s.claims[w], ds, s.clock, cfg)
    ensures TasksOk(n, cfg) && JobsTimed(n, cfg)
  {
    hide TaskOk, JobTimed;
    OneTask(s, n, w, next.id, cfg);
  }

  lemma InHand(s: Timed, w: nat, cfg: Config)
    requires W.JobsOk(s.cluster, cfg) && JobsTimed(s, cfg) && w in s.cluster.busy
    ensures var job := s.cluster.busy[w];
            && JobOk(s.cluster.table, job, cfg) && w in s.claims
            && JobTimed(job, s.claims[w], DeedsOf(s, job.id), s.clock, cfg)
            && job.id in s.cluster.table.rows && s.cluster.table.rows[job.id] == job.base && job.base.payload.status == Publishing
            && (job.phase.Checked? ==> !job.called && !TooLate(job.base.payload, job.checkedAt, cfg))
  {
    W.JobFacts(s.cluster.table, s.cluster.busy[w], cfg);
  }

  lemma ThoughtResult(c: W.Cluster, w: nat, act: Act, cfg: Config)
    requires w in c.busy && JobOk(c.table, c.busy[w], cfg) && !act.Store?
    ensures var n, r := W.Next(c, W.Work(w, act), cfg), Step(c.table, c.busy[w], act, cfg);
            && n.table == c.table && n.lists == c.lists && r.job.Some? && n.busy == c.busy[w := r.job.value]
            && r.job.value.id == c.busy[w].id
  {
    WorkKeeps(c.table, c.busy[w], act, cfg);
  }

  /** Every step of a job but its save keeps its times. */
  lemma ThoughtTimed(t: TaskTable, job: Job, act: Act, claimed: nat, ds: seq<Deed>, clock: nat, cfg: Config)
    requires JobOk(t, job, cfg) && JobTimed(job, claimed, ds, clock, cfg) && !act.Store? && Past(ds, clock)
    requires ActTime(act).Some? ==> ActTime(act).value == clock
    ensures Step(t, job, act, cfg).job.Some?
    ensures JobTimed(Step(t, job, act, cfg).job.value, claimed, Entered(ds, job, claimed, act), clock, cfg)
  {
    hide Delay;
    WorkKeeps(t, job, act, cfg);
  }

  lemma ThoughtTask(ds: seq<Deed>, job: Job, claimed: nat, act: Act, clock: nat, cfg: Config)
    requires TaskOk(ds, job.base.payload, clock, cfg) && job.base.payload.status == Publishing
    requires JobTimed(job, claimed, ds, clock, cfg) && !act.Store?
    requires ActTime(act).Some? ==> ActTime(act).value == clock
    requires job.phase.Checked? ==> !job.called && !TooLate(job.base.payload, job.checkedAt, cfg)
    ensures TaskOk(Entered(ds, job, claimed, act), job.base.payload, clock, cfg)
  {
    var es := Entered(ds, job, claimed, act);
    if es != ds {
      forall i | 0 <= i < |es| - 1
        ensures es[i].retried && es[i].called <= es[i + 1].claimed && es[i].attempts + 1 == es[i + 1].attempts
        ensures es[i].called + Delay(cfg, es[i].attempts) <= es[i + 1].due
      {
        if i < |ds| - 1 {
          assert es[i] == ds[i] && es[i + 1] == ds[i + 1];
        }
      }
    }
  }

  /** The save of a job in hand: the one row, and what it says then. */
  ghost predicate SavedAs(c: W.Cluster, n: W.Cluster, w: nat, job: Job, now: nat) {
    w in c.busy && job == c.busy[w] && (job.phase.Saving? || job.phase.GivingUp?)
    && n.lists == c.lists && n.busy == c.busy - {w} && job.id in c.table.rows && n.table.rows.Keys == c.table.rows.Keys
    && (forall k | k in c.table.rows && k != job.id :: n.table.rows[k] == c.table.rows[k])
    && n.table.rows[job.id].payload == job.phase.task.(updatedAt := Some(now))
    && job.phase.task.attempts == job.base.payload.attempts
    && (job.phase.task.status == Published || job.phase.task.status == Failed
        || (job.phase.task.status == Status.Scheduled && job.phase.Saving? && job.called && job.phase.task.scheduledAt.Some?))
  }

  lemma SaveChanges(c: W.Cluster, w: nat, now: nat, cfg: Config)
    requires WellKept(c.table) && w in c.busy && JobOk(c.table, c.busy[w], cfg)
    ensures var n, job := W.Next(c, W.Work(w, Act.Store(now)), cfg), c.busy[w];
            if job.phase.Saving? || job.phase.GivingUp? then SavedAs(c, n, w, job, now)
            else n.table == c.table && n.lists == c.lists && n.busy == c.busy
  {
    hide WellKept, Synced, Save;
    var job := c.busy[w];
    if job.phase.Saving? || job.phase.GivingUp? {
      StoreKeeps(c.table, job, now, cfg);
    } else {
      W.NothingToSave(c.table, job, now, cfg);
      assert c.busy[w := job] == c.busy;
    }
  }

  lemma StoreStepKeeps(s: Timed, w: nat, now: nat, cfg: Config)
    requires Inv(s, cfg) && w in s.cluster.busy && now == s.clock
    ensures var n := Happen(s, W.Work(w, Act.Store(now)), cfg);
            TasksOk(n, cfg) && JobsTimed(n, cfg) && ListsOk(n.cluster)
  {
    hide W.Inv, W.Next, TasksOk, JobsTimed, W.JobsOk, W.Exclusive, JobOk, WellKept, JobTimed, TaskOk, SavedAs, ListsOk;
    InvKept(s.cluster, cfg);
    var job, n := s.cluster.busy[w], Happen(s, W.Work(w, Act.Store(now)), cfg);
    var ds := DeedsOf(s, job.id);
    InHand(s, w, cfg);
    TaskInHand(s, job.id, cfg);
    SaveChanges(s.cluster, w, now, cfg);
    if job.phase.Saving? || job.phase.GivingUp? {
      SavedLists(s.cluster, n.cluster, w, job, now);
      Stored(s, n, w, job, now, cfg);
    } else {
      ListsShrink(s.cluster, n.cluster, job.id);
      SameDeeds(s, n, job.id, cfg);
    }
  }

  lemma SameDeeds(s: Timed, n: Timed, id: string, cfg: Config)
    requires TasksOk(s, cfg) && JobsTimed(s, cfg) && id in s.cluster.table.rows
    requires n.cluster.table == s.cluster.table && n.cluster.busy == s.cluster.busy
    requires n == s.(cluster := n.cluster, deeds := s.deeds[id := DeedsOf(s, id)])
    ensures TasksOk(n, cfg) && JobsTimed(n, cfg)
  {
    hide TaskOk, JobTimed;
    assert forall k :: DeedsOf(n, k) == DeedsOf(s, k);
  }

  lemma SavedLists(c: W.Cluster, n: W.Cluster, w: nat, job: Job, now: nat)
    requires ListsOk(c) && SavedAs(c, n, w, job, now)
    ensures ListsOk(n)
  {
    hide ListsOk;
    ListsShrink(c, n, job.id);
  }

  lemma Stored(s: Timed, n: Timed, w: nat, job: Job, now: nat, cfg: Config)
    requires TasksOk(s, cfg) && JobsTimed(s, cfg) && W.Exclusive(s.cluster) && w in s.claims
    requires SavedAs(s.cluster, n.cluster, w, job, now)
    requires n == s.(cluster := n.cluster, deeds := s.deeds[job.id := Entered(DeedsOf(s, job.id), job, s.claims[w], Act.Store(now))])
    ensures TasksOk(n, cfg) && JobsTimed(n, cfg)
  {
    hide TaskOk, JobTimed, Entered;
    var ds := DeedsOf(s, job.id);
    assert TaskOk(ds, s.cluster.table.rows[job.id].payload, s.clock, cfg) && JobTimed(job, s.claims[w], ds, s.clock, cfg);
    StoredTask(ds, s.cluster.table.rows[job.id].payload, job, s.claims[w], now, s.clock, cfg);
    OneTask(s, n, w, job.id, cfg);
  }

  /** A retry that is saved is due no sooner than the delay after its call. */
  lemma StoredTask(ds: seq<Deed>, was: PublishTask, job: Job, claimed: nat, now: nat, clock: nat, cfg: Config)
    requires TaskOk(ds, was, clock, cfg) && JobTimed(job, claimed, ds, clock, cfg)
    requires (job.phase.Saving? || job.phase.GivingUp?) && job.phase.task.attempts == job.base.payload.attempts
    requires job.phase.task.status == Status.Scheduled ==> job.phase.Saving? && job.called
    ensures TaskOk(Entered(ds, job, claimed, Act.Store(now)), job.phase.task.(updatedAt := Some(now)), clock, cfg)
  {
    hide Delay;
    if job.phase.Saving? && job.phase.task.status == Status.Scheduled {
      RetryMarked(ds, cfg);
    }
  }

  lemma RetryMarked(ds: seq<Deed>, cfg: Config)
    requires DeedsOk(ds, cfg) && ds != []
    ensures DeedsOk(ds[|ds| - 1 := ds[|ds| - 1].(retried := true)], cfg)
  {
    hide Delay;
    var es := ds[|ds| - 1 := ds[|ds| - 1].(retried := true)];
    forall i | 0 <= i < |es| - 1
      ensures es[i].retried && es[i].called <= es[i + 1].claimed && es[i].attempts + 1 == es[i + 1].attempts
      ensures es[i].called + Delay(cfg, es[i].attempts) <= es[i + 1].due
    {
      assert es[i] == ds[i] && es[i + 1] == ds[i + 1].(retried := es[i + 1].retried);
    }
  }

  lemma AbandonKeeps(s: Timed, w: nat, cfg: Config)
    requires TasksOk(s, cfg) && JobsTimed(s, cfg) && ListsOk(s.cluster)
    ensures var n := Happen(s, W.Abandon(w), cfg);
            TasksOk(n, cfg) && JobsTimed(n, cfg) && ListsOk(n.cluster)
  {
    hide TaskOk, JobTimed;
    var n := Happen(s, W.Abandon(w), cfg);
    assert forall id :: DeedsOf(n, id) == DeedsOf(s, id);
    assert forall v | v in n.cluster.busy :: v in s.cluster.busy && n.cluster.busy[v] == s.cluster.busy[v];
  }

  lemma CreateKeeps(s: Timed, task: PublishTask, now: nat, cfg: Config)
    requires TasksOk(s, cfg) && JobsTimed(s, cfg) && ListsOk(s.cluster)
    requires forall w | w in s.cluster.busy :: s.cluster.busy[w].id in s.cluster.table.rows
    ensures var n := Happen(s, W.Create(task, now), cfg);
            TasksOk(n, cfg) && JobsTimed(n, cfg) && ListsOk(n.cluster)
  {
    hide TaskOk, JobTimed;
    var n := Happen(s, W.Create(task, now), cfg);
    if task.id !in s.cluster.table.rows && task.status != Publishing {
      assert n.cluster.table.rows == s.cluster.table.rows[task.id := SavedRow(task, now)];
      assert forall id :: DeedsOf(n, id) == DeedsOf(s, id);
      NothingDone(task.(updatedAt := Some(now)), s.clock, cfg);
    }
  }

  lemma NothingDone(task: PublishTask, clock: nat, cfg: Config)
    ensures TaskOk([], task, clock, cfg)
  {
  }

  lemma BusyRows(c: W.Cluster, cfg: Config)
    requires W.JobsOk(c, cfg)
    ensures forall w | w in c.busy :: c.busy[w].id in c.table.rows
  {
    forall w | w in c.busy ensures c.busy[w].id in c.table.rows {
      W.JobFacts(c.table, c.busy[w], cfg);
    }
  }

  lemma HappenKeeps(s: Timed, e: W.Event, cfg: Config)
    requires Inv(s, cfg) && (TimeOf(e).Some? ==> TimeOf(e).value == s.clock)
    ensures Inv(Happen(s, e, cfg), cfg)
  {
    hide W.Inv, W.Next, TasksOk, JobsTimed, ListsOk, W.JobsOk, WellKept, W.Exclusive;
    W.NextKeeps(s.cluster, e, cfg);
    match e
    case List(w, leader, batch, now) => ListKeeps(s, w, leader, batch, now, cfg);
    case Poll(w, id, now) => PollKeeps(s, w, id, now, cfg);
    case Work(w, act) =>
      if w in s.cluster.busy {
        if act.Store? {
          StoreStepKeeps(s, w, act.now, cfg);
        } else {
          ThinkKeeps(s, w, act, cfg);
        }
      } else {
        IdleWork(s, w, act, cfg);
      }
    case Abandon(w) => AbandonKeeps(s, w, cfg);
    case Create(task, now) =>
      InvKept(s.cluster, cfg);
      BusyRows(s.cluster, cfg);
      CreateKeeps(s, task, now, cfg);
  }

  lemma IdleWork(s: Timed, w: nat, act: Act, cfg: Config)
    requires w !in s.cluster.busy
    ensures Happen(s, W.Work(w, act), cfg) == s
  {
  }

  lemma {:induction false} RunKeeps(s: Timed, events: seq<W.Event>, cfg: Config)
    requires Inv(s, cfg)
    ensures Inv(Run(s, events, cfg), cfg)
    decreases |events|
  {
    hide W.Inv, TasksOk, JobsTimed, ListsOk, Happen;
    if events != [] {
      var e := events[0];
      if InTime(s, e) {
        var t := s.(clock := TimeOf(e).GetOr(s.clock));
        ClockRuns(s, t.clock, cfg);
        HappenKeeps(t, e, cfg);
      }
      RunKeeps(Next(s, e, cfg), events[1..], cfg);
    }
  }

  // ---------------------------------------------------------------- promises

  /** In every run of any number of workers, whatever lists they hold: a call follows its check and its
      check its claim; a retried call was followed by one that had become due only after the delay; and
      a call is early only if its claim, and then its check, were early. So a claim of a row that is due
      leads to a call in time, and one that is spaced from the call before. */
  lemma DueClaimsKeepSpacing(s: Timed, events: seq<W.Event>, id: string, i: nat, cfg: Config)
    requires Init(s) && i < |DeedsOf(Run(s, events, cfg), id)|
    ensures var ds := DeedsOf(Run(s, events, cfg), id);
            && ds[i].claimed <= ds[i].checked <= ds[i].called && ds[i].checked <= ds[i].due + cfg.maxLate
            && (i > 0 ==> ds[i - 1].retried && ds[i - 1].attempts + 1 == ds[i].attempts && ds[i - 1].called <= ds[i].claimed
                          && ds[i - 1].called + Delay(cfg, ds[i - 1].attempts) <= ds[i].due)
            && (ds[i].called < ds[i].due ==> ds[i].checked < ds[i].due && ds[i].claimed < ds[i].due)
            && (ds[i].due <= ds[i].claimed ==>
                  ds[i].due <= ds[i].checked && (i > 0 ==> ds[i - 1].called + Delay(cfg, ds[i - 1].attempts) <= ds[i].checked))
  {
    InitIsInv(s, cfg);
    RunKeeps(s, events, cfg);
    var n := Run(s, events, cfg);
    assert id in n.deeds;
    assert TaskOk(DeedsOf(n, id), n.cluster.table.rows[id].payload, n.clock, cfg);
  }

  /** And when every claim is of a row that is due, any two calls are the sum of the delays between them
      apart, whichever workers made them. */
  lemma {:induction false} DueClaimsAddUp(s: Timed, events: seq<W.Event>, id: string, i: nat, j: nat, cfg: Config)
    requires Init(s) && i <= j < |DeedsOf(Run(s, events, cfg), id)|
    requires forall k | i < k <= j :: DeedsOf(Run(s, events, cfg), id)[k].due <= DeedsOf(Run(s, events, cfg), id)[k].claimed
    ensures var ds := DeedsOf(Run(s, events, cfg), id);
            && ds[i].attempts <= ds[j].attempts
            && ds[i].called + TaskBooks.TotalDelay(cfg, ds[i].attempts, ds[j].attempts) <= ds[j].called
    decreases j
  {
    hide Run, Init, Delay;
    DueClaimsKeepSpacing(s, events, id, j, cfg);
    if i < j {
      DueClaimsAddUp(s, events, id, i, j - 1, cfg);
    }
  }

  // --------------------------------------------------- the call of one claim

  /** The claim of `id` that `w` won at `now`, when `due` was due: it still has the task and has not
      called; or its call is deed number `k`; or it will never call, and nobody will again. */
  ghost predicate Follows(s: Timed, w: nat, id: string, k: nat, now: nat, due: nat) {
    var c, ds := s.cluster, DeedsOf(s, id);
    || (|ds| == k && w in c.busy && c.busy[w].id == id && !c.busy[w].called && c.busy[w].base.payload.scheduledAt == Some(due)
        && w in s.claims && s.claims[w] == now)
    || (|ds| > k && ds[k].claimed == now && ds[k].due == due)
    || (|ds| == k && id in c.table.rows && c.table.rows[id].payload.status != Status.Scheduled && forall v | v in c.busy :: c.busy[v].id != id)
  }

  lemma EnteredKeeps(ds: seq<Deed>, job: Job, claimed: nat, act: Act)
    ensures var es := Entered(ds, job, claimed, act);
            |ds| <= |es| && forall i | 0 <= i < |ds| :: es[i].claimed == ds[i].claimed && es[i].due == ds[i].due
  {
  }

  /** A deed that is entered keeps its claim and its due time whatever happens. */
  lemma DeedStays(s: Timed, e: W.Event, id: string, k: nat, cfg: Config)
    requires k < |DeedsOf(s, id)|
    ensures var n := Happen(s, e, cfg);
            k < |DeedsOf(n, id)| && DeedsOf(n, id)[k].claimed == DeedsOf(s, id)[k].claimed && DeedsOf(n, id)[k].due == DeedsOf(s, id)[k].due
  {
    hide W.Next, Entered;
    if e.Work? && e.worker in s.cluster.busy && e.worker in s.claims {
      EnteredKeeps(DeedsOf(s, s.cluster.busy[e.worker].id), s.cluster.busy[e.worker], s.claims[e.worker], e.act);
    }
  }

  predicate Holds(s: Timed, w: nat, id: string) {
    w in s.cluster.busy && s.cluster.busy[w].id == id
  }

  /** The task, its deeds and its worker, if `w` is that, are as they were, and nobody else has taken it. */
  ghost predicate LeftAlone(s: Timed, n: Timed, w: nat, id: string) {
    && id in s.cluster.table.rows && id in n.cluster.table.rows && n.cluster.table.rows[id] == s.cluster.table.rows[id]
    && DeedsOf(n, id) == DeedsOf(s, id)
    && (forall v | v in n.cluster.busy && n.cluster.busy[v].id == id :: Holds(s, v, id))
    && (Holds(s, w, id) ==> w in n.cluster.busy && n.cluster.busy[w] == s.cluster.busy[w]
                            && (w in s.claims ==> w in n.claims && n.claims[w] == s.claims[w]))
  }

  lemma PollLeavesIt(s: Timed, v: nat, pick: string, now: nat, w: nat, id: string, cfg: Config)
    requires WellKept(s.cluster.table) && W.ClaimsOk(s.cluster) && ListsOk(s.cluster)
    requires id in s.cluster.table.rows && s.cluster.table.rows[id].payload.status != Status.Scheduled
    ensures LeftAlone(s, Happen(s, W.Poll(v, pick, now), cfg), w, id)
  {
    hide W.Next, WellKept, W.ClaimsOk, ListsOk, Taken;
    PollChanges(s.cluster, v, pick, now, cfg);
    if Claims(s.cluster, v, pick) {
      TakenElsewhere(s.cluster, Happen(s, W.Poll(v, pick, now), cfg).cluster, v, pick, id);
    }
  }

  lemma WorkLeavesIt(s: Timed, v: nat, act: Act, w: nat, id: string, cfg: Config)
    requires WellKept(s.cluster.table) && v in s.cluster.busy && JobOk(s.cluster.table, s.cluster.busy[v], cfg)
    requires id in s.cluster.table.rows && s.cluster.busy[v].id != id
    ensures LeftAlone(s, Happen(s, W.Work(v, act), cfg), w, id)
  {
    hide W.Next, WellKept, JobOk, Entered, SavedAs;
    var job := s.cluster.busy[v];
    if act.Store? {
      SaveChanges(s.cluster, v, act.now, cfg);
      if job.phase.Saving? || job.phase.GivingUp? {
        SavedElsewhere(s.cluster, Happen(s, W.Work(v, act), cfg).cluster, v, act.now, id);
      }
    } else {
      ThoughtResult(s.cluster, v, act, cfg);
    }
  }

  /** Whatever is not a step of its own worker leaves a task alone that is not scheduled. */
  lemma OthersLeaveIt(s: Timed, e: W.Event, w: nat, id: string, cfg: Config)
    requires Inv(s, cfg) && id in s.cluster.table.rows && s.cluster.table.rows[id].payload.status != Status.Scheduled
    requires e.Work? || e.Abandon? ==> !Holds(s, e.worker, id)
    ensures LeftAlone(s, Happen(s, e, cfg), w, id)
  {
    hide W.Inv, TasksOk, JobsTimed, ListsOk, W.JobsOk, WellKept, JobOk, W.Exclusive, W.ClaimsOk, LeftAlone;
    InvKept(s.cluster, cfg);
    match e
    case List(_, _, _, _) => SmallLeavesIt(s, e, w, id, cfg);
    case Poll(v, pick, now) => PollLeavesIt(s, v, pick, now, w, id, cfg);
    case Work(v, act) =>
      if v in s.cluster.busy {
        InHand(s, v, cfg);
        WorkLeavesIt(s, v, act, w, id, cfg);
      } else {
        SmallLeavesIt(s, e, w, id, cfg);
      }
    case Abandon(_) => SmallLeavesIt(s, e, w, id, cfg);
    case Create(_, _) => SmallLeavesIt(s, e, w, id, cfg);
  }

  lemma SmallLeavesIt(s: Timed, e: W.Event, w: nat, id: string, cfg: Config)
    requires id in s.cluster.table.rows
    requires e.List? || e.Create? || (e.Abandon? && !Holds(s, e.worker, id)) || (e.Work? && e.worker !in s.cluster.busy)
    ensures LeftAlone(s, Happen(s, e, cfg), w, id)
  {
    hide W.Next;
    W.OthersSpare(s.cluster, e, id, cfg);
    SmallLeavesJobs(s.cluster, e, cfg);
  }

  lemma SmallLeavesJobs(c: W.Cluster, e: W.Event, cfg: Config)
    requires !e.Poll? && (e.Work? ==> e.worker !in c.busy)
    ensures W.Next(c, e, cfg).busy == if e.Abandon? then c.busy - {e.worker} else c.busy
  {
    hide Save, DueAmong;
  }

  lemma TakenElsewhere(c: W.Cluster, n: W.Cluster, v: nat, pick: string, id: string)
    requires Taken(c, n, v, pick) && id in c.table.rows && c.table.rows[id].payload.status != Status.Scheduled
    ensures v !in c.busy && v in n.busy && n.busy[v].id == pick != id && n.busy == c.busy[v := n.busy[v]]
    ensures id in n.table.rows && n.table.rows[id] == c.table.rows[id]
  {
  }

  lemma SavedElsewhere(c: W.Cluster, n: W.Cluster, v: nat, now: nat, id: string)
    requires v in c.busy && SavedAs(c, n, v, c.busy[v], now) && id in c.table.rows
    ensures n.busy == c.busy - {v} && (c.busy[v].id != id ==> id in n.table.rows && n.table.rows[id] == c.table.rows[id])
  {
  }

  lemma FollowsOn(s: Timed, e: W.Event, w: nat, id: string, k: nat, now: nat, due: nat, cfg: Config)
    requires Inv(s, cfg) && Follows(s, w, id, k, now, due)
    ensures Follows(Happen(s, e, cfg), w, id, k, now, due)
  {
    hide W.Inv, W.Next, TasksOk, JobsTimed, ListsOk, W.JobsOk, WellKept, JobOk, TaskOk, JobTimed, Happen, W.ClaimsOk;
    InvKept(s.cluster, cfg);
    if |DeedsOf(s, id)| > k {
      DeedStays(s, e, id, k, cfg);
    } else if w in s.cluster.busy && s.cluster.busy[w].id == id {
      InHand(s, w, cfg);
      if e.Work? && e.worker == w {
        OwnStep(s, w, e.act, k, now, due, cfg);
      } else if e.Abandon? && e.worker == w {
        OwnEnd(s, w, cfg);
      } else {
        OthersLeaveIt(s, e, w, id, cfg);
      }
    } else {
      OthersLeaveIt(s, e, w, id, cfg);
    }
  }

  lemma OwnEnd(s: Timed, w: nat, cfg: Config)
    requires w in s.cluster.busy && W.Exclusive(s.cluster)
    ensures var n, id := Happen(s, W.Abandon(w), cfg), s.cluster.busy[w].id;
            && n.cluster.table == s.cluster.table && DeedsOf(n, id) == DeedsOf(s, id)
            && forall v | v in n.cluster.busy :: n.cluster.busy[v].id != id
  {
  }

  lemma OwnStep(s: Timed, w: nat, act: Act, k: nat, now: nat, due: nat, cfg: Config)
    requires w in s.cluster.busy && JobOk(s.cluster.table, s.cluster.busy[w], cfg) && WellKept(s.cluster.table) && W.Exclusive(s.cluster)
    requires !s.cluster.busy[w].called && s.cluster.busy[w].base.payload.scheduledAt == Some(due) && w in s.claims && s.claims[w] == now
    requires |DeedsOf(s, s.cluster.busy[w].id)| == k
    ensures Follows(Happen(s, W.Work(w, act), cfg), w, s.cluster.busy[w].id, k, now, due)
  {
    hide W.Next, WellKept, JobOk;
    var job := s.cluster.busy[w];
    if act.Store? {
      SaveChanges(s.cluster, w, act.now, cfg);
    } else {
      ThoughtResult(s.cluster, w, act, cfg);
      WorkKeeps(s.cluster.table, job, act, cfg);
    }
  }

  lemma {:induction false} RunFollows(s: Timed, events: seq<W.Event>, w: nat, id: string, k: nat, now: nat, due: nat, cfg: Config)
    requires Inv(s, cfg) && Follows(s, w, id, k, now, due)
    ensures Follows(Run(s, events, cfg), w, id, k, now, due)
    decreases |events|
  {
    hide W.Inv, TasksOk, JobsTimed, ListsOk, Happen;
    if events != [] {
      var e := events[0];
      if InTime(s, e) {
        var t := s.(clock := TimeOf(e).GetOr(s.clock));
        ClockRuns(s, t.clock, cfg);
        HappenKeeps(t, e, cfg);
        FollowsOn(t, e, w, id, k, now, due, cfg);
      }
      RunFollows(Next(s, e, cfg), events[1..], w, id, k, now, due, cfg);
    }
  }

  // ------------------------------------------------------ calls without delay

  lemma RunStep(s: Timed, e: W.Event, rest: seq<W.Event>, cfg: Config)
    ensures Run(s, [e] + rest, cfg) == Run(Next(s, e, cfg), rest, cfg)
  {
    assert ([e] + rest)[1..] == rest;
  }

  lemma {:induction false} RunJoined(s: Timed, first: seq<W.Event>, second: seq<W.Event>, cfg: Config)
    ensures Run(s, first + second, cfg) == Run(Run(s, first, cfg), second, cfg)
    decreases |first|
  {
    if first == [] {
      assert first + second == second;
    } else {
      assert (first + second)[1..] == first[1..] + second;
      RunJoined(Next(s, first[0], cfg), first[1..], second, cfg);
    }
  }

  /** A state that differs from `s` in the clock and in what `w` does with `id`: its job and its deeds. */
  ghost predicate AtWork(s: Timed, n: Timed, clock: nat, w: nat, id: string, job: Job, ds: seq<Deed>) {
    && n.cluster.table == s.cluster.table && n.cluster.lists == s.cluster.lists && n.cluster.busy == s.cluster.busy[w := job]
    && n.clock == clock && n.claims == s.claims && DeedsOf(n, id) == ds
  }

  lemma StepAt(s: Timed, w: nat, act: Act, cfg: Config)
    requires w in s.cluster.busy && w in s.claims && !act.Store? && (ActTime(act).Some? ==> s.clock <= ActTime(act).value)
    requires Step(s.cluster.table, s.cluster.busy[w], act, cfg).job.Some?
    requires Step(s.cluster.table, s.cluster.busy[w], act, cfg).table == s.cluster.table
    ensures var job := s.cluster.busy[w];
            AtWork(s, Next(s, W.Work(w, act), cfg), ActTime(act).GetOr(s.clock), w, job.id, Step(s.cluster.table, job, act, cfg).job.value,
                   Entered(DeedsOf(s, job.id), job, s.claims[w], act))
  {
  }

  function Calling(w: nat, outcome: Outcome, now: nat, later: nat): seq<W.Event> {
    [W.Work(w, Read)] + ([W.Work(w, CheckLate(now))] + [W.Work(w, CallPublisher(outcome, later))])
  }

  /** A worker that has just claimed a task can read and check it at that very moment, unless the task is
      too late, and publish it then or at any time later. */
  lemma CallsAt(s: Timed, w: nat, outcome: Outcome, later: nat, cfg: Config)
    requires w in s.cluster.busy && w in s.claims && s.claims[w] == s.clock <= later && s.cluster.busy[w].id in s.cluster.table.rows
    requires s.cluster.busy[w] == NewJob(s.cluster.busy[w].id, s.cluster.table.rows[s.cluster.busy[w].id])
    requires !TooLate(s.cluster.busy[w].base.payload, s.clock, cfg)
    ensures var job, m := s.cluster.busy[w], Run(s, Calling(w, outcome, s.clock, later), cfg);
            var task := PublishedTask(Logged(Load(job.base), "INFO", "Claimed by scheduler", ""), outcome, later);
            AtWork(s, m, later, w, job.id, Job(job.id, job.base, Returned(task), s.clock, true, outcome.Accepted?),
                   DeedsOf(s, job.id) + [Deed(s.clock, s.clock, later, job.base.payload.scheduledAt.GetOr(s.clock), job.base.payload.attempts, false)])
  {
    hide PublishedTask, Logged;
    var job, now := s.cluster.busy[w], s.clock;
    var read, check, call: W.Event := W.Work(w, Read), W.Work(w, CheckLate(now)), W.Work(w, CallPublisher(outcome, later));
    var t := Next(s, read, cfg);
    var u := Next(t, check, cfg);
    LoggedKeepsTime(Load(job.base));
    StepAt(s, w, Read, cfg);
    StepAt(t, w, CheckLate(now), cfg);
    StepAt(u, w, CallPublisher(outcome, later), cfg);
    RunStep(s, read, [check] + [call], cfg);
    RunStep(t, check, [call], cfg);
    RunOne(u, call, cfg);
  }

  lemma LoggedKeepsTime(task: PublishTask)
    ensures Logged(task, "INFO", "Claimed by scheduler", "").scheduledAt == task.scheduledAt
  {
  }

  lemma PollAtOnce(s: Timed, w: nat, id: string, now: nat, cfg: Config)
    requires WellKept(s.cluster.table) && W.ClaimsOk(s.cluster) && ListsOk(s.cluster) && s.clock <= now && Claims(s.cluster, w, id)
    ensures var n := Next(s, W.Poll(w, id, now), cfg);
            && Taken(s.cluster, n.cluster, w, id) && n.clock == now && n.claims == s.claims[w := now] && n.deeds == s.deeds
            && s.cluster.table.rows[id].payload.scheduledAt.Some?
            && n.cluster.busy[w].id == id && n.cluster.busy[w].base == n.cluster.table.rows[id]
            && n.cluster.lists == s.cluster.lists[w := s.cluster.lists[w] - {id}]
  {
    hide WellKept, W.ClaimsOk, ListsOk, Claim;
    PollChanges(s.cluster, w, id, now, cfg);
  }

  /** `events` lead to a call, as deed number `k` of `id`, before what was due at its claim. */
  ghost predicate CallsEarly(s: Timed, events: seq<W.Event>, id: string, k: nat, cfg: Config) {
    var ds := DeedsOf(Run(s, events, cfg), id);
    k < |ds| && ds[k].called < ds[k].due
  }

  /** The exact condition, which whoever claims can check before: the call of a claim can come before the
      task is due if and only if the task was not due when it was claimed. */
  lemma EarlyCallIffEarlyClaim(s: Timed, w: nat, id: string, now: nat, cfg: Config)
    requires Inv(s, cfg) && s.clock <= now && Claims(s.cluster, w, id)
    ensures id in s.cluster.table.rows && s.cluster.table.rows[id].payload.scheduledAt.Some?
    ensures (exists events :: CallsEarly(Next(s, W.Poll(w, id, now), cfg), events, id, |DeedsOf(s, id)|, cfg))
            <==> now < s.cluster.table.rows[id].payload.scheduledAt.value
  {
    hide W.Inv, TasksOk, JobsTimed, ListsOk, Run, WellKept, W.ClaimsOk, W.JobsOk, W.Exclusive;
    InvKept(s.cluster, cfg);
    PollAtOnce(s, w, id, now, cfg);
    var n, k, due := Next(s, W.Poll(w, id, now), cfg), |DeedsOf(s, id)|, s.cluster.table.rows[id].payload.scheduledAt.value;
    if now < due {
      CallsAt(n, w, Outcome.Crashed(""), now, cfg);
      assert CallsEarly(n, Calling(w, Outcome.Crashed(""), now, now), id, k, cfg);
    }
    if events :| CallsEarly(n, events, id, k, cfg) {
      ClaimedInv(s, w, id, now, cfg);
      RunFollows(n, events, w, id, k, now, due, cfg);
      RunKeeps(n, events, cfg);
      DeedInOrder(Run(n, events, cfg), id, k, cfg);
    }
  }

  /** The claim decides, and not the check: after an early claim and an early check the call can still
      come as late as one likes, since looking up the draft and calling take their time. */
  lemma EarlyCheckCanCallInTime(s: Timed, w: nat, id: string, now: nat, later: nat, cfg: Config)
    requires Inv(s, cfg) && s.clock <= now && Claims(s.cluster, w, id)
    requires id in s.cluster.table.rows && s.cluster.table.rows[id].payload.scheduledAt.Some?
    requires now < s.cluster.table.rows[id].payload.scheduledAt.value <= later
    ensures var ds := DeedsOf(Run(Next(s, W.Poll(w, id, now), cfg), Calling(w, Outcome.Crashed(""), now, later), cfg), id);
            var k := |DeedsOf(s, id)|;
            k < |ds| && ds[k].claimed == ds[k].checked == now < ds[k].due <= ds[k].called == later
  {
    hide W.Inv, TasksOk, JobsTimed, ListsOk, Run, WellKept, W.ClaimsOk, W.JobsOk, W.Exclusive;
    InvKept(s.cluster, cfg);
    PollAtOnce(s, w, id, now, cfg);
    CallsAt(Next(s, W.Poll(w, id, now), cfg), w, Outcome.Crashed(""), later, cfg);
  }

  lemma ClaimedInv(s: Timed, w: nat, id: string, now: nat, cfg: Config)
    requires Inv(s, cfg) && s.clock <= now
    ensures Inv(Next(s, W.Poll(w, id, now), cfg), cfg)
  {
    hide Inv, Happen, Run;
    RunKeeps(s, [W.Poll(w, id, now)], cfg);
    RunOne(s, W.Poll(w, id, now), cfg);
  }

  lemma RunOne(s: Timed, e: W.Event, cfg: Config)
    ensures Run(s, [e], cfg) == Next(s, e, cfg)
  {
    assert [e][1..] == [];
  }

  lemma DeedInOrder(s: Timed, id: string, k: nat, cfg: Config)
    requires Inv(s, cfg) && k < |DeedsOf(s, id)|
    ensures DeedsOf(s, id)[k].claimed <= DeedsOf(s, id)[k].checked <= DeedsOf(s, id)[k].called
  {
    assert id in s.deeds;
    assert TaskOk(DeedsOf(s, id), s.cluster.table.rows[id].payload, s.clock, cfg);
  }

  // ------------------------------------------------------------- an early retry

  const NOTHING_YET := Timed(W.Cluster(EMPTY_TASKS, map[], map[], {}, map[], map[]), 0, map[], map[])

  const NETWORK_FAILURE := Rejected(None, None, "network_exception")

  /** A task is saved and two workers list it. */
  lemma BothList(task: PublishTask, now: nat, cfg: Config) returns (events: seq<W.Event>)
    requires DueByModel(task, now)
    ensures var s, id := Run(NOTHING_YET, events, cfg), task.id;
            && s.clock == now && s.cluster.table.rows == map[id := SavedRow(task, now)] && s.cluster.busy == map[] && s.deeds == map[]
            && s.cluster.lists == map[0 := {id}, 1 := {id}]
  {
    var id := task.id;
    var a, b, c: W.Event := W.Create(task, now), W.List(0, true, {id}, now), W.List(1, true, {id}, now);
    var t := Next(NOTHING_YET, a, cfg);
    var u := Next(t, b, cfg);
    var v := Next(u, c, cfg);
    assert t.cluster.table.rows == map[id := SavedRow(task, now)];
    assert DueAmong(t.cluster.table, {id}, now) == {id};
    assert v.cluster.lists == map[0 := {id}, 1 := {id}];
    events := [a] + ([b] + [c]);
    RunStep(NOTHING_YET, a, [b] + [c], cfg);
    RunStep(t, b, [c], cfg);
    RunStep(u, c, [], cfg);
    assert [c] + [] == [c];
  }

  /** The call has just failed on the network, for the first time. */
  ghost predicate FailedNow(s: Timed, w: nat, cfg: Config) {
    w in s.cluster.busy
    && var job := s.cluster.busy[w];
       && job.phase.Returned? && job.called && !job.posted && job.base.payload.attempts < cfg.maxAttempts
       && job.phase.task == PublishedTask(Logged(Load(job.base), "INFO", "Claimed by scheduler", ""), NETWORK_FAILURE, s.clock)
       && |DeedsOf(s, job.id)| == 1
  }

  /** A retry is decided. */
  lemma Decides(s: Timed, w: nat, cfg: Config) returns (t: Timed)
    requires Inv(s, cfg) && FailedNow(s, w, cfg) && cfg.Valid()
    ensures t == Next(s, W.Work(w, Finish(s.clock)), cfg) && Inv(t, cfg) && t.clock == s.clock && t.cluster.lists == s.cluster.lists
    ensures w in t.cluster.busy && w in t.claims && t.cluster.busy == s.cluster.busy[w := t.cluster.busy[w]]
    ensures var was, job := s.cluster.busy[w], t.cluster.busy[w];
            && job.id == was.id && DeedsOf(t, job.id) == DeedsOf(s, job.id) && job.phase.Saving?
            && job.phase.task.status == Status.Scheduled && job.phase.task.attempts == was.base.payload.attempts
            && job.phase.task.scheduledAt == Some(s.clock + Delay(cfg, was.base.payload.attempts))
  {
    hide W.Inv, TasksOk, JobsTimed, ListsOk, Run, W.JobsOk, WellKept, W.ClaimsOk, W.Exclusive, PublishedTask, FinalTask, Delay, JobOk, Next;
    InvKept(s.cluster, cfg);
    InHand(s, w, cfg);
    var finish := W.Work(w, Finish(s.clock));
    t := Next(s, finish, cfg);
    StepAt(s, w, Finish(s.clock), cfg);
    NetworkFailureRetries(Load(s.cluster.busy[w].base), s.clock, cfg);
    RunOne(s, finish, cfg);
    RunKeeps(s, [finish], cfg);
  }

  /** After a network failure the retry is decided and saved. */
  lemma GivesUpAtOnce(s: Timed, w: nat, cfg: Config) returns (events: seq<W.Event>)
    requires Inv(s, cfg) && FailedNow(s, w, cfg) && cfg.Valid()
    ensures var n, job := Run(s, events, cfg), s.cluster.busy[w];
            && n.clock == s.clock && n.cluster.busy == s.cluster.busy - {w} && n.cluster.lists == s.cluster.lists
            && job.id in n.cluster.table.rows
            && n.cluster.table.rows[job.id].payload.status == Status.Scheduled
            && n.cluster.table.rows[job.id].payload.scheduledAt == Some(s.clock + Delay(cfg, job.base.payload.attempts))
            && n.cluster.table.rows[job.id].payload.attempts == job.base.payload.attempts
            && DeedsOf(n, job.id) == [DeedsOf(s, job.id)[0].(retried := true)]
  {
    hide W.Inv, TasksOk, JobsTimed, ListsOk, Run, W.JobsOk, WellKept, W.ClaimsOk, W.Exclusive, PublishedTask, Delay, JobOk, SavedAs, Next;
    var finish, store := W.Work(w, Finish(s.clock)), W.Work(w, Act.Store(s.clock));
    var t := Decides(s, w, cfg);
    InvKept(t.cluster, cfg);
    InHand(t, w, cfg);
    SaveChanges(t.cluster, w, s.clock, cfg);
    RetryIsSaved(t, w, s.clock, cfg);
    RunStep(s, finish, [store], cfg);
    RunOne(t, store, cfg);
    events := [finish] + [store];
  }

  /** A worker claims the task and fails on the network. */
  lemma ClaimsAndFails(s: Timed, w: nat, id: string, cfg: Config) returns (u: Timed, events: seq<W.Event>)
    requires Inv(s, cfg) && Claims(s.cluster, w, id) && cfg.Valid() && DeedsOf(s, id) == []
    requires id in s.cluster.table.rows && s.cluster.table.rows[id].payload.attempts + 1 < cfg.maxAttempts
    requires s.cluster.table.rows[id].payload.scheduledAt == Some(s.clock)
    ensures u == Run(s, events, cfg) && Inv(u, cfg) && FailedNow(u, w, cfg) && u.clock == s.clock && w !in s.cluster.busy
    ensures u.cluster.busy == s.cluster.busy[w := u.cluster.busy[w]] && u.cluster.lists == s.cluster.lists[w := s.cluster.lists[w] - {id}]
    ensures u.cluster.busy[w].id == id && u.cluster.busy[w].base.payload.attempts == s.cluster.table.rows[id].payload.attempts + 1
    ensures DeedsOf(u, id) == [Deed(s.clock, s.clock, s.clock, s.clock, s.cluster.table.rows[id].payload.attempts + 1, false)]
  {
    hide W.Inv, TasksOk, JobsTimed, ListsOk, Run, Next, W.JobsOk, WellKept, W.ClaimsOk, W.Exclusive, PublishedTask, FinalTask, Delay, JobOk;
    InvKept(s.cluster, cfg);
    var now := s.clock;
    PollAtOnce(s, w, id, now, cfg);
    var t := Next(s, W.Poll(w, id, now), cfg);
    var calling := Calling(w, NETWORK_FAILURE, now, now);
    CallsAt(t, w, NETWORK_FAILURE, now, cfg);
    u := Run(t, calling, cfg);
    ClaimedInv(s, w, id, now, cfg);
    RunKeeps(t, calling, cfg);
    RunStep(s, W.Poll(w, id, now), calling, cfg);
    events := [W.Poll(w, id, now)] + calling;
  }

  /** A worker claims the task, fails on the network and saves the retry, all at once. */
  lemma FailsAtOnce(s: Timed, w: nat, id: string, cfg: Config) returns (events: seq<W.Event>)
    requires Inv(s, cfg) && Claims(s.cluster, w, id) && cfg.Valid() && DeedsOf(s, id) == []
    requires id in s.cluster.table.rows && s.cluster.table.rows[id].payload.attempts + 1 < cfg.maxAttempts
    requires s.cluster.table.rows[id].payload.scheduledAt == Some(s.clock)
    ensures var n, attempts := Run(s, events, cfg), s.cluster.table.rows[id].payload.attempts + 1;
            && n.clock == s.clock && w !in n.cluster.busy && n.cluster.lists == s.cluster.lists[w := s.cluster.lists[w] - {id}]
            && n.cluster.busy == s.cluster.busy && id in n.cluster.table.rows
            && n.cluster.table.rows[id].payload.status == Status.Scheduled
            && n.cluster.table.rows[id].payload.scheduledAt == Some(s.clock + Delay(cfg, attempts))
            && n.cluster.table.rows[id].payload.attempts == attempts
            && DeedsOf(n, id) == [Deed(s.clock, s.clock, s.clock, s.clock, attempts, true)]
  {
    hide Inv, Run, Next, Delay, DeedsOf;
    var u, failing := ClaimsAndFails(s, w, id, cfg);
    var saving := GivesUpAtOnce(u, w, cfg);
    RunJoined(s, failing, saving, cfg);
    events := failing + saving;
    assert s.cluster.busy[w := u.cluster.busy[w]] - {w} == s.cluster.busy;
  }

  lemma NetworkFailureRetries(task: PublishTask, now: nat, cfg: Config)
    requires task.attempts < cfg.maxAttempts
    ensures var done := FinalTask(PublishedTask(Logged(task, "INFO", "Claimed by scheduler", ""), NETWORK_FAILURE, now), now, cfg);
            done.status == Status.Scheduled && done.scheduledAt == Some(now + Delay(cfg, task.attempts)) && done.attempts == task.attempts
  {
    hide Delay;
    var logged := Logged(task, "INFO", "Claimed by scheduler", "");
    RetryDecision(logged, NETWORK_FAILURE, now, now, cfg);
    PublishRecords(logged, NETWORK_FAILURE, now);
  }

  lemma RetryIsSaved(t: Timed, w: nat, now: nat, cfg: Config)
    requires w in t.cluster.busy && w in t.claims && t.clock == now && |DeedsOf(t, t.cluster.busy[w].id)| == 1
    requires t.cluster.busy[w].phase.Saving? && t.cluster.busy[w].phase.task.status == Status.Scheduled
    requires SavedAs(t.cluster, W.Next(t.cluster, W.Work(w, Act.Store(now)), cfg), w, t.cluster.busy[w], now)
    ensures var n, job := Next(t, W.Work(w, Act.Store(now)), cfg), t.cluster.busy[w];
            && n.clock == now && n.cluster.busy == t.cluster.busy - {w} && n.cluster.lists == t.cluster.lists && job.id in n.cluster.table.rows
            && n.cluster.table.rows[job.id].payload == job.phase.task.(updatedAt := Some(now))
            && DeedsOf(n, job.id) == [DeedsOf(t, job.id)[0].(retried := true)]
  {
    hide W.Next;
  }

  /** A worker claims a task from its list before it is due and publishes it on the spot. */
  lemma PublishesAtOnce(s: Timed, w: nat, id: string, cfg: Config) returns (events: seq<W.Event>)
    requires Inv(s, cfg) && Claims(s.cluster, w, id) && id in s.cluster.table.rows && s.cluster.table.rows[id].payload.scheduledAt.Some?
    requires s.clock < s.cluster.table.rows[id].payload.scheduledAt.value
    ensures var task := s.cluster.table.rows[id].payload;
            DeedsOf(Run(s, events, cfg), id) ==
            DeedsOf(s, id) + [Deed(s.clock, s.clock, s.clock, task.scheduledAt.value, task.attempts + 1, false)]
  {
    hide W.Inv, TasksOk, JobsTimed, ListsOk, Run, Next, W.JobsOk, WellKept, W.ClaimsOk, W.Exclusive;
    InvKept(s.cluster, cfg);
    PollAtOnce(s, w, id, s.clock, cfg);
    var t, calling := Next(s, W.Poll(w, id, s.clock), cfg), Calling(w, Outcome.Crashed(""), s.clock, s.clock);
    CallsAt(t, w, Outcome.Crashed(""), s.clock, cfg);
    RunStep(s, W.Poll(w, id, s.clock), calling, cfg);
    events := [W.Poll(w, id, s.clock)] + calling;
  }

  /** Both workers have the task on their lists: one fails and saves the retry, the other publishes. */
  lemma TriesTwice(s: Timed, id: string, cfg: Config) returns (events: seq<W.Event>)
    requires Inv(s, cfg) && cfg.Valid() && s.cluster.busy == map[] && DeedsOf(s, id) == [] && s.cluster.lists == map[0 := {id}, 1 := {id}]
    requires id in s.cluster.table.rows && s.cluster.table.rows[id].payload.attempts + 1 < cfg.maxAttempts
    requires s.cluster.table.rows[id].payload.status == Status.Scheduled && s.cluster.table.rows[id].payload.scheduledAt == Some(s.clock)
    ensures var ds := DeedsOf(Run(s, events, cfg), id);
            |ds| == 2 && ds[0].retried && ds[1].called < ds[1].due && ds[1].called < ds[0].called + Delay(cfg, ds[0].attempts)
  {
    hide Inv, Run, Delay, WellKept, Next;
    InvIsKept(s, cfg);
    ScheduledIsClaimable(s.cluster.table, id);
    var failing := FailsAtOnce(s, 0, id, cfg);
    var t := Run(s, failing, cfg);
    RunKeeps(s, failing, cfg);
    InvIsKept(t, cfg);
    DelayBounds(cfg, s.cluster.table.rows[id].payload.attempts + 1);
    ScheduledIsClaimable(t.cluster.table, id);
    var publishing := PublishesAtOnce(t, 1, id, cfg);
    RunJoined(s, failing, publishing, cfg);
    events := failing + publishing;
  }

  /** It does happen: from an empty store two workers list a task, one fails on the network and saves
      the retry, and the other, still at its old list, claims the task again and calls the publisher at
      once, though its delay has not begun to pass. */
  lemma EarlyRetryHappens(task: PublishTask, cfg: Config) returns (events: seq<W.Event>)
    requires cfg.Valid() && task.status == Status.Scheduled && task.scheduledAt.Some? && task.attempts + 1 < cfg.maxAttempts
    ensures Init(NOTHING_YET)
    ensures var ds := DeedsOf(Run(NOTHING_YET, events, cfg), task.id);
            |ds| == 2 && ds[0].retried && ds[1].called < ds[1].due && ds[1].called < ds[0].called + Delay(cfg, ds[0].attempts)
  {
    hide Inv, Run, Delay, WellKept, Next;
    NothingIsInit();
    var listing := BothList(task, task.scheduledAt.value, cfg);
    InitIsInv(NOTHING_YET, cfg);
    RunKeeps(NOTHING_YET, listing, cfg);
    var trying := TriesTwice(Run(NOTHING_YET, listing, cfg), task.id, cfg);
    RunJoined(NOTHING_YET, listing, trying, cfg);
    events := listing + trying;
  }

  lemma InvIsKept(s: Timed, cfg: Config)
    requires Inv(s, cfg)
    ensures WellKept(s.cluster.table)
  {
  }

  lemma NothingIsInit()
    ensures Init(NOTHING_YET)
  {
  }

  lemma ScheduledIsClaimable(t: TaskTable, id: string)
    requires WellKept(t) && id in t.rows && t.rows[id].payload.status == Status.Scheduled
    ensures Claimable(t, id, Status.Scheduled)
  {
  }
}
