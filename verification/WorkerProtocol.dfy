/**
 Any number of scheduler workers over one task table, interleaved at every store call, with crashes
 but without recovery. The leader lock is an arbitrary answer: nothing proved here depends on it.
 Safety rests on the compare-and-swap of `claim_task` alone.
 */
module WorkerProtocol {
  import opened Wrappers
  import opened Counting
  import opened Tasks
  import opened Lifecycle
  import opened Jobs

  /** Every natural number names a worker. `lists` holds what a worker has listed and not yet come to;
      the busy workers have a job. An abandoned task is one whose worker died, or left `run_task` by an
      exception, while it held the claim. */
  datatype Cluster = Cluster(table: TaskTable, lists: map<nat, set<string>>, busy: map<nat, Job>, abandoned: set<string>,
                             calls: map<string, nat>, posts: map<string, nat>)

  datatype Event =
    | List(worker: nat, leader: bool, batch: set<string>, now: nat)  // a free worker lists any part of the due tasks
    | Poll(worker: nat, id: string, now: nat)                        // it reaches run_task(id), however old its list is
    | Work(worker: nat, act: Act)
    | Abandon(worker: nat)
    | Create(task: PublishTask, now: nat)                            // the web application saves a new task

  function Next(s: Cluster, e: Event, cfg: Config): Cluster {
    match e
    case List(w, leader, batch, now) =>
      if !leader || w in s.busy then s else s.(lists := s.lists[w := DueAmong(s.table, batch, now)])
    case Poll(w, id, now) =>
      if w in s.busy || w !in s.lists || id !in s.lists[w] then s
      else
        var lists := s.lists[w := s.lists[w] - {id}];
        if !Claimable(s.table, id, Status.Scheduled) then s.(lists := lists)
        else
          var table := Claim(s.table, id, Status.Scheduled, Publishing, now);
          s.(table := table, lists := lists, busy := s.busy[w := NewJob(id, table.rows[id])])
    case Work(w, act) =>
      if w !in s.busy then s
      else
        var job := s.busy[w];
        var r := Step(s.table, job, act, cfg);
        var called := act.CallPublisher? && job.phase.Checked?;
        s.(table := r.table,
           busy := if r.job.Some? then s.busy[w := r.job.value] else s.busy - {w},
           calls := if called then Bump(s.calls, job.id) else s.calls,
           posts := if called && act.outcome.Accepted? then Bump(s.posts, job.id) else s.posts)
    case Abandon(w) =>
      if w !in s.busy then s else s.(lists := s.lists - {w}, busy := s.busy - {w}, abandoned := s.abandoned + {s.busy[w].id})
    case Create(task, now) =>
      if task.id in s.table.rows || task.status == Publishing then s else s.(table := Save(s.table, task, now))
  }

  function Run(s: Cluster, events: seq<Event>, cfg: Config): Cluster
    decreases |events|
  {
    if events == [] then s else Run(Next(s, events[0], cfg), events[1..], cfg)
  }

  /** Nobody is at work; a row found in `publishing` was abandoned before. */
  ghost predicate Init(s: Cluster) {
    WellKept(s.table) && s.lists == map[] && s.busy == map[] && s.calls == map[] && s.posts == map[]
    && forall id :: id in s.abandoned <==> id in s.table.rows && s.table.rows[id].payload.status == Publishing
  }

  // ------------------------------------------------------------ the invariant

  ghost predicate JobsOk(s: Cluster, cfg: Config) {
    forall w | w in s.busy :: JobOk(s.table, s.busy[w], cfg)
  }

  ghost predicate Exclusive(s: Cluster) {
    (forall w | w in s.busy :: s.busy[w].id !in s.abandoned)
    && (forall v, w | v in s.busy && w in s.busy && v != w :: s.busy[v].id != s.busy[w].id)
  }

  ghost predicate Held(s: Cluster, id: string) {
    id in s.abandoned || exists w :: w in s.busy && s.busy[w].id == id
  }

  /** A task is in `publishing` exactly while somebody holds it. */
  ghost predicate ClaimsOk(s: Cluster) {
    (forall id | Held(s, id) :: id in s.table.rows && s.table.rows[id].payload.status == Publishing)
    && (forall id | id in s.table.rows && s.table.rows[id].payload.status == Publishing :: Held(s, id))
  }

  /** What was done for `id` so far, when its row has this status and number of attempts. */
  predicate Tally(s: Cluster, id: string, status: Status, attempts: nat) {
    Count(s.calls, id) <= attempts && Count(s.posts, id) <= 1 && (status == Status.Scheduled ==> Count(s.posts, id) == 0)
  }

  predicate JobTally(s: Cluster, job: Job) {
    Count(s.posts, job.id) == (if job.posted then 1 else 0)
    && Count(s.calls, job.id) + (if job.called then 0 else 1) <= job.base.payload.attempts
  }

  ghost predicate CountsOk(s: Cluster) {
    (forall w | w in s.busy :: JobTally(s, s.busy[w]))
    && (forall id | id in s.table.rows :: Tally(s, id, s.table.rows[id].payload.status, s.table.rows[id].payload.attempts))
    && (forall id | id !in s.table.rows :: Count(s.posts, id) == Count(s.calls, id) == 0)
  }

  ghost predicate Books(s: Cluster) {
    Exclusive(s) && ClaimsOk(s) && CountsOk(s)
  }

  ghost predicate Inv(s: Cluster, cfg: Config) {
    WellKept(s.table) && JobsOk(s, cfg) && Books(s)
  }

  /** A job is not disturbed by what happens to other rows. */
  lemma OthersUndisturbed(s: Cluster, n: Cluster, id: string, cfg: Config)
    requires JobsOk(s, cfg)
    requires forall k | k in s.table.rows && k != id :: k in n.table.rows && n.table.rows[k] == s.table.rows[k]
    ensures forall w | w in s.busy && s.busy[w].id != id :: JobOk(n.table, s.busy[w], cfg)
  {
    forall w | w in s.busy && s.busy[w].id != id ensures JobOk(n.table, s.busy[w], cfg) {
      assert JobOk(s.table, s.busy[w], cfg);
    }
  }

  // ------------------------------------------- bookkeeping of the five changes

  lemma OthersCounted(s: Cluster, n: Cluster, id: string)
    requires CountsOk(s)
    requires forall k | k != id :: Count(n.calls, k) == Count(s.calls, k) && Count(n.posts, k) == Count(s.posts, k)
    requires forall v | v in n.busy && n.busy[v].id != id :: v in s.busy && n.busy[v] == s.busy[v]
    requires forall k | k != id :: k in n.table.rows <==> k in s.table.rows
    requires forall k | k in s.table.rows && k != id :: n.table.rows[k] == s.table.rows[k]
    requires forall v | v in n.busy && n.busy[v].id == id :: JobTally(n, n.busy[v])
    requires id in n.table.rows && Tally(n, id, n.table.rows[id].payload.status, n.table.rows[id].payload.attempts)
    ensures CountsOk(n)
  {
    forall v | v in n.busy ensures JobTally(n, n.busy[v]) {
      if n.busy[v].id != id {
        assert JobTally(s, s.busy[v]);
      }
    }
    forall k | k in n.table.rows ensures Tally(n, k, n.table.rows[k].payload.status, n.table.rows[k].payload.attempts) {
      if k != id {
        assert Tally(s, k, s.table.rows[k].payload.status, s.table.rows[k].payload.attempts);
      }
    }
  }

  lemma TakeBooks(s: Cluster, n: Cluster, w: nat, id: string)
    requires Books(s)
    requires id in s.table.rows && s.table.rows[id].payload.status == Status.Scheduled && w !in s.busy
    requires n.table.rows.Keys == s.table.rows.Keys
    requires forall k | k in s.table.rows && k != id :: n.table.rows[k] == s.table.rows[k]
    requires n.table.rows[id].payload.status == Publishing
    requires n.table.rows[id].payload.attempts == s.table.rows[id].payload.attempts + 1
    requires n == s.(table := n.table, lists := n.lists, busy := s.busy[w := NewJob(id, n.table.rows[id])])
    ensures Books(n)
  {
    hide CountsOk, Held;
    NotHeld(s, id);
    assert forall v | v in s.busy :: s.busy[v].id != id && n.busy[v] == s.busy[v];
    HeldAfter(s, n, id);
    HeldByWorker(n, w);
    TakeCounts(s, n, w, id);
  }

  lemma NotHeld(s: Cluster, id: string)
    requires ClaimsOk(s) && (id in s.table.rows ==> s.table.rows[id].payload.status != Publishing)
    ensures !Held(s, id) && id !in s.abandoned && forall v | v in s.busy :: s.busy[v].id != id
  {
    assert !Held(s, id);
  }

  lemma HeldByWorker(s: Cluster, w: nat)
    requires w in s.busy
    ensures Held(s, s.busy[w].id)
  {
  }

  lemma TakeCounts(s: Cluster, n: Cluster, w: nat, id: string)
    requires CountsOk(s) && id in s.table.rows && s.table.rows[id].payload.status == Status.Scheduled && w !in s.busy
    requires forall v | v in s.busy :: s.busy[v].id != id
    requires n.table.rows.Keys == s.table.rows.Keys
    requires forall k | k in s.table.rows && k != id :: n.table.rows[k] == s.table.rows[k]
    requires n.table.rows[id].payload.status == Publishing
    requires n.table.rows[id].payload.attempts == s.table.rows[id].payload.attempts + 1
    requires n == s.(table := n.table, lists := n.lists, busy := s.busy[w := NewJob(id, n.table.rows[id])])
    ensures CountsOk(n)
  {
    assert forall v | v in s.busy :: n.busy[v] == s.busy[v];
    assert Tally(s, id, s.table.rows[id].payload.status, s.table.rows[id].payload.attempts);
    OthersCounted(s, n, id);
  }

  /** If every other worker keeps its task, holding changes for `id` at most. */
  lemma HeldAfter(s: Cluster, n: Cluster, id: string)
    requires forall v | v in s.busy && s.busy[v].id != id :: v in n.busy && n.busy[v].id == s.busy[v].id
    requires forall v | v in n.busy && n.busy[v].id != id :: v in s.busy && n.busy[v].id == s.busy[v].id
    requires forall k | k != id :: k in n.abandoned <==> k in s.abandoned
    ensures forall k | k != id :: Held(n, k) <==> Held(s, k)
  {
    forall k | k != id ensures Held(n, k) <==> Held(s, k) {
      if Held(s, k) && k !in s.abandoned {
        var v :| v in s.busy && s.busy[v].id == k;
        assert v in n.busy && n.busy[v].id == k;
      }
      if Held(n, k) && k !in n.abandoned {
        var v :| v in n.busy && n.busy[v].id == k;
        assert v in s.busy && s.busy[v].id == k;
      }
    }
  }

  /** `n` is `s` with `job` in place of what `w` had, and its deeds counted. */
  ghost predicate Advanced(s: Cluster, n: Cluster, w: nat, job: Job) {
    w in s.busy && job.id == s.busy[w].id && job.base == s.busy[w].base
    && (s.busy[w].called ==> job.called && job.posted == s.busy[w].posted)
    && (job.posted ==> job.called) && (s.busy[w].posted ==> s.busy[w].called)
    && n == s.(busy := s.busy[w := job],
               calls := if job.called && !s.busy[w].called then Bump(s.calls, job.id) else s.calls,
               posts := if job.posted && !s.busy[w].posted then Bump(s.posts, job.id) else s.posts)
  }

  lemma WorkBooks(s: Cluster, n: Cluster, w: nat, job: Job)
    requires Books(s) && Advanced(s, n, w, job)
    requires job.id in s.table.rows && s.table.rows[job.id] == job.base && job.base.payload.status == Publishing
    ensures Books(n)
  {
    hide CountsOk;
    assert forall v | v in s.busy && v != w :: n.busy[v] == s.busy[v] && s.busy[v].id != job.id;
    HeldAfter(s, n, job.id);
    HeldByWorker(s, w);
    HeldByWorker(n, w);
    WorkCounts(s, n, w, job);
  }

  lemma WorkCounts(s: Cluster, n: Cluster, w: nat, job: Job)
    requires CountsOk(s) && Exclusive(s) && Advanced(s, n, w, job)
    requires job.id in s.table.rows && s.table.rows[job.id] == job.base && job.base.payload.status == Publishing
    ensures CountsOk(n)
  {
    hide Exclusive, CountsOk;
    CountedInHand(s, w);
    OthersElsewhere(s, n, w, job);
    OthersCounted(s, n, job.id);
  }

  lemma CountedInHand(s: Cluster, w: nat)
    requires CountsOk(s) && w in s.busy
    ensures JobTally(s, s.busy[w])
    ensures var id := s.busy[w].id;
            id in s.table.rows ==> Tally(s, id, s.table.rows[id].payload.status, s.table.rows[id].payload.attempts)
  {
  }

  lemma OthersElsewhere(s: Cluster, n: Cluster, w: nat, job: Job)
    requires Exclusive(s) && w in s.busy && job.id == s.busy[w].id && n.busy == s.busy[w := job]
    ensures forall v | v in s.busy && v != w :: n.busy[v] == s.busy[v] && s.busy[v].id != job.id
  {
  }

  lemma ReleaseBooks(s: Cluster, n: Cluster, w: nat)
    requires Books(s)
    requires w in s.busy && s.busy[w].id in s.table.rows
    requires n == s.(table := n.table, busy := s.busy - {w})
    requires n.table.rows.Keys == s.table.rows.Keys
    requires forall k | k in s.table.rows && k != s.busy[w].id :: n.table.rows[k] == s.table.rows[k]
    requires n.table.rows[s.busy[w].id].payload.attempts == s.busy[w].base.payload.attempts
    requires n.table.rows[s.busy[w].id].payload.status != Publishing
    requires n.table.rows[s.busy[w].id].payload.status == Status.Scheduled ==> !s.busy[w].posted
    ensures Books(n)
  {
    hide CountsOk, JobTally, Tally;
    var id := s.busy[w].id;
    assert forall v | v in n.busy :: n.busy[v] == s.busy[v] && n.busy[v].id != id;
    HeldAfter(s, n, id);
    assert !Held(n, id);
    ReleaseCounts(s, n, w);
  }

  lemma ReleaseCounts(s: Cluster, n: Cluster, w: nat)
    requires CountsOk(s) && w in s.busy && s.busy[w].id in s.table.rows
    requires n == s.(table := n.table, busy := s.busy - {w})
    requires forall v | v in n.busy :: n.busy[v] == s.busy[v] && n.busy[v].id != s.busy[w].id
    requires n.table.rows.Keys == s.table.rows.Keys
    requires forall k | k in s.table.rows && k != s.busy[w].id :: n.table.rows[k] == s.table.rows[k]
    requires n.table.rows[s.busy[w].id].payload.attempts == s.busy[w].base.payload.attempts
    requires n.table.rows[s.busy[w].id].payload.status == Status.Scheduled ==> !s.busy[w].posted
    ensures CountsOk(n)
  {
    hide CountsOk;
    CountedInHand(s, w);
    OthersCounted(s, n, s.busy[w].id);
  }

  lemma AbandonBooks(s: Cluster, n: Cluster, w: nat)
    requires Books(s) && w in s.busy
    requires n == s.(lists := n.lists, busy := s.busy - {w}, abandoned := s.abandoned + {s.busy[w].id})
    ensures Books(n)
  {
    var id := s.busy[w].id;
    assert forall v | v in n.busy :: n.busy[v] == s.busy[v] && n.busy[v].id != id;
    HeldAfter(s, n, id);
    HeldByWorker(s, w);
    CountedInHand(s, w);
    OthersCounted(s, n, id);
  }

  // --------------------------------------------------------------- the events

  /** A claim that wins changes the one row and gives the worker its job. */
  lemma PollEffect(s: Cluster, w: nat, id: string, now: nat, cfg: Config)
    requires WellKept(s.table)
    ensures var n := Next(s, Poll(w, id, now), cfg);
            n == s.(lists := n.lists) || (
              && id in s.table.rows && s.table.rows[id].payload.status == Status.Scheduled && w !in s.busy
              && WellKept(n.table) && n.table.rows.Keys == s.table.rows.Keys
              && (forall k | k in s.table.rows && k != id :: n.table.rows[k] == s.table.rows[k])
              && n.table.rows[id].payload.status == Publishing
              && n.table.rows[id].payload.attempts == s.table.rows[id].payload.attempts + 1
              && n == s.(table := n.table, lists := n.lists, busy := s.busy[w := NewJob(id, n.table.rows[id])])
              && JobOk(n.table, NewJob(id, n.table.rows[id]), cfg))
  {
    if w !in s.busy && w in s.lists && id in s.lists[w] && Claimable(s.table, id, Status.Scheduled) {
      ClaimStarts(s.table, id, now, cfg);
      assert Next(s, Poll(w, id, now), cfg).table == Claim(s.table, id, Status.Scheduled, Publishing, now);
    }
  }

  lemma PollKeeps(s: Cluster, w: nat, id: string, now: nat, cfg: Config)
    requires Inv(s, cfg)
    ensures Inv(Next(s, Poll(w, id, now), cfg), cfg)
  {
    var n := Next(s, Poll(w, id, now), cfg);
    PollEffect(s, w, id, now, cfg);
    if n != s.(lists := n.lists) {
      Taken(s, n, w, id, cfg);
    } else {
      ListsDoNotMatter(s, n, cfg);
    }
  }

  /** What is listed is no part of the invariant: safety does not depend on it. */
  lemma ListsDoNotMatter(s: Cluster, n: Cluster, cfg: Config)
    requires Inv(s, cfg) && n == s.(lists := n.lists)
    ensures Inv(n, cfg)
  {
    hide WellKept, JobOk, CountsOk, Held;
    forall id ensures Held(n, id) <==> Held(s, id) {
      SameHolders(s, n, id);
    }
    ListsDoNotCount(s, n);
  }

  lemma SameHolders(s: Cluster, n: Cluster, id: string)
    requires n == s.(lists := n.lists)
    ensures Held(n, id) <==> Held(s, id)
  {
  }

  lemma ListsDoNotCount(s: Cluster, n: Cluster)
    requires CountsOk(s) && n == s.(lists := n.lists)
    ensures CountsOk(n)
  {
    forall w | w in n.busy ensures JobTally(n, n.busy[w]) {
      assert JobTally(s, s.busy[w]);
    }
    forall id | id in n.table.rows ensures Tally(n, id, n.table.rows[id].payload.status, n.table.rows[id].payload.attempts) {
      assert Tally(s, id, s.table.rows[id].payload.status, s.table.rows[id].payload.attempts);
    }
  }

  lemma Taken(s: Cluster, n: Cluster, w: nat, id: string, cfg: Config)
    requires JobsOk(s, cfg) && Books(s)
    requires id in s.table.rows && s.table.rows[id].payload.status == Status.Scheduled && w !in s.busy
    requires n.table.rows.Keys == s.table.rows.Keys
    requires forall k | k in s.table.rows && k != id :: n.table.rows[k] == s.table.rows[k]
    requires n.table.rows[id].payload.status == Publishing
    requires n.table.rows[id].payload.attempts == s.table.rows[id].payload.attempts + 1
    requires n == s.(table := n.table, lists := n.lists, busy := s.busy[w := NewJob(id, n.table.rows[id])])
    requires JobOk(n.table, NewJob(id, n.table.rows[id]), cfg)
    ensures JobsOk(n, cfg) && Books(n)
  {
    TakeBooks(s, n, w, id);
    OthersUndisturbed(s, n, id, cfg);
    forall v | v in n.busy ensures JobOk(n.table, n.busy[v], cfg) {
      if v != w {
        assert n.busy[v] == s.busy[v];
        assert Held(s, s.busy[v].id);
      }
    }
  }

  lemma ThinkFacts(s: Cluster, w: nat, act: Act, cfg: Config) returns (job: Job)
    requires w in s.busy && JobOk(s.table, s.busy[w], cfg) && !act.Store?
    ensures Advanced(s, Next(s, Work(w, act), cfg), w, job)
    ensures job.id in s.table.rows && s.table.rows[job.id] == job.base && job.base.payload.status == Publishing
    ensures JobOk(s.table, job, cfg)
  {
    WorkKeeps(s.table, s.busy[w], act, cfg);
    job := Step(s.table, s.busy[w], act, cfg).job.value;
    JobFacts(s.table, s.busy[w], cfg);
    JobFacts(s.table, job, cfg);
  }

  lemma ThinkKeeps(s: Cluster, w: nat, act: Act, cfg: Config)
    requires Inv(s, cfg) && w in s.busy && !act.Store?
    ensures Inv(Next(s, Work(w, act), cfg), cfg)
  {
    var n := Next(s, Work(w, act), cfg);
    var job := ThinkFacts(s, w, act, cfg);
    WorkBooks(s, n, w, job);
    Replaced(s, n, w, job, cfg);
  }

  lemma Replaced(s: Cluster, n: Cluster, w: nat, job: Job, cfg: Config)
    requires JobsOk(s, cfg) && JobOk(s.table, job, cfg) && n.table == s.table && n.busy == s.busy[w := job]
    ensures JobsOk(n, cfg)
  {
    forall v | v in n.busy ensures JobOk(n.table, n.busy[v], cfg) {
      if v != w {
        assert n.busy[v] == s.busy[v];
      }
    }
  }

  lemma JobFacts(t: TaskTable, job: Job, cfg: Config)
    requires JobOk(t, job, cfg)
    ensures job.id in t.rows && t.rows[job.id] == job.base && job.base.payload.status == Publishing
    ensures job.posted ==> job.called
    ensures job.phase.Checked? ==> !job.called
  {
  }

  /** The save takes effect on the one row, or the worker has nothing to save yet. */
  lemma SaveEffect(s: Cluster, w: nat, now: nat, cfg: Config)
    requires w in s.busy && WellKept(s.table) && JobOk(s.table, s.busy[w], cfg)
    ensures var n, id := Next(s, Work(w, Act.Store(now)), cfg), s.busy[w].id;
            n == s || (
              && n == s.(table := n.table, busy := s.busy - {w})
              && WellKept(n.table) && n.table.rows.Keys == s.table.rows.Keys && id in s.table.rows
              && (forall k | k in s.table.rows && k != id :: n.table.rows[k] == s.table.rows[k])
              && n.table.rows[id].payload.attempts == s.busy[w].base.payload.attempts
              && n.table.rows[id].payload.status != Publishing
              && (n.table.rows[id].payload.status == Status.Scheduled ==> !s.busy[w].posted))
  {
    hide JobOk, WellKept, Step;
    if s.busy[w].phase.Saving? || s.busy[w].phase.GivingUp? {
      SavedFacts(s.table, s.busy[w], now, cfg);
    } else {
      NothingToSave(s.table, s.busy[w], now, cfg);
      assert s.busy[w := s.busy[w]] == s.busy;
    }
  }

  lemma NothingToSave(t: TaskTable, job: Job, now: nat, cfg: Config)
    requires !job.phase.Saving? && !job.phase.GivingUp?
    ensures Step(t, job, Act.Store(now), cfg) == Result(t, Some(job))
  {
  }

  lemma SaveStepKeeps(s: Cluster, w: nat, now: nat, cfg: Config)
    requires Inv(s, cfg) && w in s.busy
    ensures Inv(Next(s, Work(w, Act.Store(now)), cfg), cfg)
  {
    var n := Next(s, Work(w, Act.Store(now)), cfg);
    SaveEffect(s, w, now, cfg);
    if n != s {
      ReleaseBooks(s, n, w);
      Released(s, n, w, cfg);
    }
  }

  lemma Released(s: Cluster, n: Cluster, w: nat, cfg: Config)
    requires JobsOk(s, cfg) && Exclusive(s) && w in s.busy && n.busy == s.busy - {w}
    requires forall k | k in s.table.rows && k != s.busy[w].id :: k in n.table.rows && n.table.rows[k] == s.table.rows[k]
    ensures JobsOk(n, cfg)
  {
    OthersUndisturbed(s, n, s.busy[w].id, cfg);
    assert forall v | v in n.busy :: n.busy[v] == s.busy[v] && s.busy[v].id != s.busy[w].id;
  }

  lemma SavedFacts(t: TaskTable, job: Job, now: nat, cfg: Config)
    requires WellKept(t) && JobOk(t, job, cfg) && (job.phase.Saving? || job.phase.GivingUp?)
    ensures job.id in t.rows
    ensures Step(t, job, Act.Store(now), cfg).job == None
    ensures var n := Step(t, job, Act.Store(now), cfg).table;
            && WellKept(n) && n.rows.Keys == t.rows.Keys
            && (forall k | k in t.rows && k != job.id :: n.rows[k] == t.rows[k])
            && n.rows[job.id].payload.attempts == job.base.payload.attempts
            && n.rows[job.id].payload.status != Publishing
            && (n.rows[job.id].payload.status == Status.Scheduled ==> !job.posted)
  {
    hide WellKept, Synced, Save;
    StoreKeeps(t, job, now, cfg);
    assert job.phase.task.attempts == job.base.payload.attempts;
  }

  lemma AbandonKeeps(s: Cluster, w: nat, cfg: Config)
    requires Inv(s, cfg) && w in s.busy
    ensures Inv(Next(s, Abandon(w), cfg), cfg)
  {
    hide WellKept, JobOk;
    var n := Next(s, Abandon(w), cfg);
    AbandonBooks(s, n, w);
    Released(s, n, w, cfg);
  }

  lemma CreateKeeps(s: Cluster, task: PublishTask, now: nat, cfg: Config)
    requires Inv(s, cfg)
    ensures Inv(Next(s, Create(task, now), cfg), cfg)
  {
    hide WellKept, JobOk, Exclusive, ClaimsOk, CountsOk;
    var n := Next(s, Create(task, now), cfg);
    if task.id !in s.table.rows && task.status != Publishing {
      SaveKeeps(s.table, task, now);
      CreateBooks(s, n, task, now);
      Added(s, n, task, now, cfg);
    }
  }

  lemma Added(s: Cluster, n: Cluster, task: PublishTask, now: nat, cfg: Config)
    requires JobsOk(s, cfg) && Books(s) && task.id !in s.table.rows && n.busy == s.busy
    requires n.table.rows == s.table.rows[task.id := SavedRow(task, now)]
    ensures JobsOk(n, cfg)
  {
    hide JobOk, CountsOk, Exclusive;
    OthersUndisturbed(s, n, task.id, cfg);
    assert forall v | v in s.busy :: Held(s, s.busy[v].id);
  }

  lemma CreateBooks(s: Cluster, n: Cluster, task: PublishTask, now: nat)
    requires Books(s)
    requires task.id !in s.table.rows && task.status != Publishing
    requires n == s.(table := n.table) && n.table.rows == s.table.rows[task.id := SavedRow(task, now)]
    ensures Books(n)
  {
    hide CountsOk;
    HeldAfter(s, n, task.id);
    assert !Held(s, task.id);
    assert !Held(n, task.id);
    CreateCounts(s, n, task, now);
  }

  lemma CreateCounts(s: Cluster, n: Cluster, task: PublishTask, now: nat)
    requires CountsOk(s) && !Held(n, task.id) && task.id !in s.table.rows
    requires n == s.(table := n.table) && n.table.rows == s.table.rows[task.id := SavedRow(task, now)]
    ensures CountsOk(n)
  {
    OthersCounted(s, n, task.id);
  }

  lemma NextKeeps(s: Cluster, e: Event, cfg: Config)
    requires Inv(s, cfg)
    ensures Inv(Next(s, e, cfg), cfg)
  {
    match e
    case List(_, _, _, _) => ListsDoNotMatter(s, Next(s, e, cfg), cfg);
    case Poll(w, id, now) => PollKeeps(s, w, id, now, cfg);
    case Work(w, act) =>
      if w in s.busy {
        if act.Store? {
          SaveStepKeeps(s, w, act.now, cfg);
        } else {
          ThinkKeeps(s, w, act, cfg);
        }
      }
    case Abandon(w) =>
      if w in s.busy {
        AbandonKeeps(s, w, cfg);
      }
    case Create(task, now) => CreateKeeps(s, task, now, cfg);
  }

  lemma {:induction false} RunKeeps(s: Cluster, events: seq<Event>, cfg: Config)
    requires Inv(s, cfg)
    ensures Inv(Run(s, events, cfg), cfg)
    decreases |events|
  {
    if events != [] {
      NextKeeps(s, events[0], cfg);
      RunKeeps(Next(s, events[0], cfg), events[1..], cfg);
    }
  }

  // ---------------------------------------------------------------- promises

  /** In every interleaving: a task has at most one owner; its row says `publishing` exactly while it
      has one, alive or not; the owner finds the row at its save as its claim left it, and that save
      is not refused; and a task is posted at most once. */
  lemma WorkersAreSafe(s: Cluster, events: seq<Event>, cfg: Config)
    requires Init(s)
    ensures var n := Run(s, events, cfg);
            && (forall v, w | v in n.busy && w in n.busy && n.busy[v].id == n.busy[w].id :: v == w)
            && (forall w | w in n.busy :: n.busy[w].id !in n.abandoned)
            && (forall id | id in n.table.rows :: n.table.rows[id].status == "publishing" <==> Held(n, id))
            && (forall w | w in n.busy :: n.busy[w].id in n.table.rows && n.table.rows[n.busy[w].id] == n.busy[w].base)
            && (forall w | w in n.busy && n.busy[w].phase.Saving? :: SaveAllowed(n.table, n.busy[w].phase.task))
            && (forall id :: Count(n.posts, id) <= 1)
            && (forall id | id in n.table.rows :: Count(n.calls, id) <= n.table.rows[id].payload.attempts)
  {
    InitIsInv(s, cfg);
    RunKeeps(s, events, cfg);
    Promises(Run(s, events, cfg), cfg);
  }

  lemma InitIsInv(s: Cluster, cfg: Config)
    requires Init(s)
    ensures Inv(s, cfg)
  {
    hide WellKept, JobOk, JobTally;
    assert forall id :: Held(s, id) <==> id in s.abandoned;
  }

  lemma Promises(n: Cluster, cfg: Config)
    requires Inv(n, cfg)
    ensures forall id | id in n.table.rows :: n.table.rows[id].status == "publishing" <==> Held(n, id)
    ensures forall w | w in n.busy :: n.busy[w].id in n.table.rows && n.table.rows[n.busy[w].id] == n.busy[w].base
    ensures forall w | w in n.busy && n.busy[w].phase.Saving? :: SaveAllowed(n.table, n.busy[w].phase.task)
    ensures forall id :: Count(n.posts, id) <= 1
    ensures forall id | id in n.table.rows :: Count(n.calls, id) <= n.table.rows[id].payload.attempts
  {
    forall id | id in n.table.rows ensures n.table.rows[id].status == "publishing" <==> Held(n, id) {
      assert Synced(id, n.table.rows[id]);
      StatusTextInjective(n.table.rows[id].payload.status, Publishing);
    }
    forall w | w in n.busy
      ensures n.busy[w].id in n.table.rows && n.table.rows[n.busy[w].id] == n.busy[w].base
      ensures n.busy[w].phase.Saving? ==> SaveAllowed(n.table, n.busy[w].phase.task)
    {
      JobFacts(n.table, n.busy[w], cfg);
    }
    forall id ensures Count(n.posts, id) <= 1 {
      if id in n.table.rows {
        assert Tally(n, id, n.table.rows[id].payload.status, n.table.rows[id].payload.attempts);
      }
    }
    forall id | id in n.table.rows ensures Count(n.calls, id) <= n.table.rows[id].payload.attempts {
      assert Tally(n, id, n.table.rows[id].payload.status, n.table.rows[id].payload.attempts);
    }
  }

  /** `published`, `failed` and `cancelled` are final: no step of anybody touches such a row. */
  lemma {:induction false} FinalRowsStay(s: Cluster, events: seq<Event>, id: string, cfg: Config)
    requires Inv(s, cfg) && id in s.table.rows
    requires s.table.rows[id].payload.status in {Published, Failed, Cancelled}
    ensures id in Run(s, events, cfg).table.rows && Run(s, events, cfg).table.rows[id] == s.table.rows[id]
    decreases |events|
  {
    if events != [] {
      var n := Next(s, events[0], cfg);
      NextKeeps(s, events[0], cfg);
      FinalRowStays(s, events[0], id, cfg);
      FinalRowsStay(n, events[1..], id, cfg);
    }
  }

  lemma PollSpares(s: Cluster, w: nat, pick: string, now: nat, id: string, cfg: Config)
    requires id in s.table.rows && Synced(id, s.table.rows[id]) && s.table.rows[id].payload.status != Status.Scheduled
    ensures id in Next(s, Poll(w, pick, now), cfg).table.rows
    ensures Next(s, Poll(w, pick, now), cfg).table.rows[id] == s.table.rows[id]
  {
    StatusTextInjective(s.table.rows[id].payload.status, Status.Scheduled);
  }

  lemma FinalRowStays(s: Cluster, e: Event, id: string, cfg: Config)
    requires WellKept(s.table) && JobsOk(s, cfg) && id in s.table.rows
    requires s.table.rows[id].payload.status in {Published, Failed, Cancelled}
    ensures id in Next(s, e, cfg).table.rows && Next(s, e, cfg).table.rows[id] == s.table.rows[id]
  {
    hide WellKept, JobOk, Next;
    match e
    case List(w, leader, batch, now) => OthersSpare(s, e, id, cfg);
    case Poll(w, pick, now) =>
      RowIsSynced(s.table, id);
      PollSpares(s, w, pick, now, id, cfg);
    case Work(w, act) =>
      if w in s.busy {
        WorkSpares(s, w, act, id, cfg);
      } else {
        OthersSpare(s, e, id, cfg);
      }
    case Abandon(w) => OthersSpare(s, e, id, cfg);
    case Create(task, now) => OthersSpare(s, e, id, cfg);
  }

  lemma RowIsSynced(t: TaskTable, id: string)
    requires WellKept(t) && id in t.rows
    ensures Synced(id, t.rows[id])
  {
  }

  /** Who lists, dies or adds a task changes no row that is there. */
  lemma OthersSpare(s: Cluster, e: Event, id: string, cfg: Config)
    requires id in s.table.rows && !e.Poll? && (e.Work? ==> e.worker !in s.busy)
    ensures id in Next(s, e, cfg).table.rows && Next(s, e, cfg).table.rows[id] == s.table.rows[id]
  {
    hide SavedRow, DueAmong;
  }

  lemma WorkSpares(s: Cluster, w: nat, act: Act, id: string, cfg: Config)
    requires WellKept(s.table) && w in s.busy && JobOk(s.table, s.busy[w], cfg)
    requires id in s.table.rows && s.table.rows[id].payload.status != Publishing
    ensures id in Next(s, Work(w, act), cfg).table.rows && Next(s, Work(w, act), cfg).table.rows[id] == s.table.rows[id]
  {
    JobFacts(s.table, s.busy[w], cfg);
    if act.Store? {
      SaveEffect(s, w, act.now, cfg);
    } else {
      var job := ThinkFacts(s, w, act, cfg);
    }
  }
}
