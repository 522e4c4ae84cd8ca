/**
 The accounts of one task under one poller: how it stands, what was done for it, and the rules that
 tie the two. PollerProtocol shows that every event of the poller is one of the changes below.
 */
module TaskBooks {
  import opened Wrappers
  import opened Lifecycle

  /** One call of the publisher: when its lateness check passed, when it was called, what was due when,
      on which attempt, and whether it ended as a transient failure that was saved for a retry. A call
      and its answer are one event, at `called`; the rules below separate that event from the check of
      the next call, so they hold wherever between check and answer a post takes effect. */
  datatype Check = Check(at: nat, called: nat, due: nat, attempts: nat, retried: bool)

  /** `crashes` while the poller held the task; of these, `interrupted` struck a recovery between its
      claim and its save, and `lost` an accepted post that was not saved. */
  datatype Book = Book(checks: seq<Check>, posts: nat, crashes: nat, interrupted: nat, lost: nat)

  const EMPTY_BOOK := Book([], 0, 0, 0, 0)

  datatype Standing =
    | Waiting(attempts: nat, due: Option<nat>)
    | Running(attempts: nat, due: Option<nat>, called: bool, posted: bool)
    | Stuck(attempts: nat, due: Option<nat>)       // `publishing`, its worker gone
    | Mending(attempts: nat, due: Option<nat>)     // claimed by a recovery that has not saved yet
    | Ended(attempts: nat, published: bool)

  // ------------------------------------------------------------------- rules

  /** A check passes neither early nor late and comes before its call; attempts are never reused; and a
      call that failed transiently is due again, and so checked and called again, only after its delay. */
  ghost predicate ChecksOk(checks: seq<Check>, cfg: Config) {
    (forall i | 0 <= i < |checks| :: checks[i].due <= checks[i].at <= checks[i].due + cfg.maxLate && checks[i].at <= checks[i].called)
    && (forall i | 0 <= i < |checks| - 1 ::
          checks[i].called <= checks[i + 1].at && checks[i].attempts < checks[i + 1].attempts
          && (checks[i].retried ==> checks[i].called + Delay(cfg, checks[i].attempts) <= checks[i + 1].due))
  }

  /** Without a crash every call but the last was retried, and the n-th call is the n-th attempt. */
  ghost predicate Smooth(b: Book) {
    b.crashes == 0 ==>
      (forall i | 0 <= i < |b.checks| :: b.checks[i].attempts == i + 1)
      && (forall i | 0 <= i < |b.checks| - 1 :: b.checks[i].retried)
  }

  /** What the last call leaves for the next one. */
  ghost predicate LastOk(b: Book, attempts: nat, due: Option<nat>, clock: nat, cfg: Config) {
    b.checks != [] ==>
      var last := b.checks[|b.checks| - 1];
      last.called <= clock && last.attempts <= attempts
      && (last.retried ==> due.Some? && last.called + Delay(cfg, last.attempts) <= due.value)
  }

  ghost predicate AllRetried(b: Book, attempts: nat) {
    b.crashes == 0 ==> attempts == |b.checks| && (b.checks != [] ==> b.checks[|b.checks| - 1].retried)
  }

  ghost predicate BookOk(b: Book, st: Standing, clock: nat, cfg: Config) {
    ChecksOk(b.checks, cfg) && Smooth(b) && b.interrupted <= b.crashes && b.posts <= |b.checks|
    && |b.checks| <= st.attempts <= cfg.maxAttempts + b.interrupted
    && match st
       case Waiting(attempts, due) =>
         attempts < cfg.maxAttempts + b.interrupted && b.posts == b.lost
         && LastOk(b, attempts, due, clock, cfg) && AllRetried(b, attempts)
       case Running(attempts, due, called, posted) =>
         b.posts == b.lost + (if posted then 1 else 0) && (posted ==> called)
         && (if called then
               b.checks != []
               && var last := b.checks[|b.checks| - 1];
                  last.called <= clock && last.attempts == attempts && !last.retried
                  && (b.crashes == 0 ==> attempts == |b.checks|)
             else
               1 <= attempts && |b.checks| <= attempts - 1 && LastOk(b, attempts - 1, due, clock, cfg)
               && AllRetried(b, attempts - 1))
       case Stuck(attempts, due) => b.crashes > 0 && b.posts == b.lost && LastOk(b, attempts, due, clock, cfg)
       case Mending(attempts, due) => b.crashes > 0 && b.posts == b.lost && LastOk(b, attempts, due, clock, cfg)
       case Ended(_, published) => if published then b.posts == b.lost + 1 else b.posts <= b.lost + 1
  }

  // ----------------------------------------------------------------- changes

  lemma ClockRuns(b: Book, st: Standing, clock: nat, later: nat, cfg: Config)
    requires BookOk(b, st, clock, cfg) && clock <= later
    ensures BookOk(b, st, later, cfg)
  {
  }

  lemma Open(due: Option<nat>, clock: nat, cfg: Config)
    requires cfg.Valid()
    ensures BookOk(EMPTY_BOOK, Waiting(0, due), clock, cfg)
  {
  }

  lemma Start(b: Book, st: Standing, clock: nat, cfg: Config)
    requires BookOk(b, st, clock, cfg) && st.Waiting?
    ensures BookOk(b, Running(st.attempts + 1, st.due, false, false), clock, cfg)
  {
  }

  function AfterCall(b: Book, check: Check, accepted: bool): Book {
    b.(checks := b.checks + [check], posts := if accepted then b.posts + 1 else b.posts)
  }

  lemma Call(b: Book, st: Standing, accepted: bool, at: nat, clock: nat, cfg: Config)
    requires BookOk(b, st, clock, cfg) && st.Running? && !st.called && st.due.Some?
    requires st.due.value <= at <= st.due.value + cfg.maxLate && at <= clock
    requires b.checks != [] ==> b.checks[|b.checks| - 1].called <= at
    ensures BookOk(AfterCall(b, Check(at, clock, st.due.value, st.attempts, false), accepted),
                   Running(st.attempts, st.due, true, accepted), clock, cfg)
  {
    var c := AfterCall(b, Check(at, clock, st.due.value, st.attempts, false), accepted);
    forall i | 0 <= i < |c.checks| - 1
      ensures c.checks[i].called <= c.checks[i + 1].at && c.checks[i].attempts < c.checks[i + 1].attempts
      ensures c.checks[i].retried ==> c.checks[i].called + Delay(cfg, c.checks[i].attempts) <= c.checks[i + 1].due
    {
      if i < |b.checks| - 1 {
        assert c.checks[i] == b.checks[i] && c.checks[i + 1] == b.checks[i + 1];
      }
    }
  }

  function AfterRetry(b: Book): Book
    requires b.checks != []
  {
    var n := |b.checks| - 1;
    b.(checks := b.checks[n := b.checks[n].(retried := true)])
  }

  lemma Retry(b: Book, st: Standing, due: nat, clock: nat, cfg: Config)
    requires BookOk(b, st, clock, cfg) && st.Running? && st.called && !st.posted && st.attempts < cfg.maxAttempts
    requires b.checks != [] ==> b.checks[|b.checks| - 1].called + Delay(cfg, st.attempts) <= due
    ensures b.checks != []
    ensures BookOk(AfterRetry(b), Waiting(st.attempts, Some(due)), clock, cfg)
  {
    var c := AfterRetry(b);
    var n := |b.checks| - 1;
    forall i | 0 <= i < n
      ensures c.checks[i].called <= c.checks[i + 1].at && c.checks[i].attempts < c.checks[i + 1].attempts
      ensures c.checks[i].retried ==> c.checks[i].called + Delay(cfg, c.checks[i].attempts) <= c.checks[i + 1].due
    {
      assert c.checks[i] == b.checks[i] && c.checks[i + 1].at == b.checks[i + 1].at
             && c.checks[i + 1].attempts == b.checks[i + 1].attempts && c.checks[i + 1].due == b.checks[i + 1].due;
    }
  }

  lemma End(b: Book, st: Standing, published: bool, clock: nat, cfg: Config)
    requires BookOk(b, st, clock, cfg) && (st.Running? || st.Mending?)
    requires published ==> st.Running? && st.posted
    ensures BookOk(b, Ended(st.attempts, published), clock, cfg)
  {
  }

  function AfterCrash(b: Book, st: Standing): Book {
    b.(crashes := b.crashes + 1,
       interrupted := if st.Mending? then b.interrupted + 1 else b.interrupted,
       lost := if st.Running? && st.posted then b.lost + 1 else b.lost)
  }

  lemma Crash(b: Book, st: Standing, clock: nat, cfg: Config)
    requires BookOk(b, st, clock, cfg) && (st.Running? || st.Mending?)
    ensures BookOk(AfterCrash(b, st), if st.Running? then Stuck(st.attempts, st.due) else Waiting(st.attempts, st.due), clock, cfg)
  {
  }

  lemma Mend(b: Book, st: Standing, clock: nat, cfg: Config)
    requires BookOk(b, st, clock, cfg)
    ensures st.Stuck? ==> BookOk(b, Mending(st.attempts, st.due), clock, cfg)
    ensures st.Mending? && st.attempts < cfg.maxAttempts ==> BookOk(b, Waiting(st.attempts, st.due), clock, cfg)
  {
  }

  // ----------------------------------------------------------------- results

  lemma BookPromises(b: Book, st: Standing, clock: nat, cfg: Config)
    requires BookOk(b, st, clock, cfg)
    ensures |b.checks| <= st.attempts <= cfg.maxAttempts + b.interrupted && ChecksOk(b.checks, cfg)
    ensures b.posts <= |b.checks| && b.posts <= b.lost + 1 && (st.Ended? && st.published ==> b.posts == b.lost + 1)
  {
    hide ChecksOk, Smooth, LastOk, AllRetried;
  }

  /** The delays after the failures number `i` to `j - 1`. */
  function TotalDelay(cfg: Config, i: nat, j: nat): nat
    requires i <= j
    decreases j - i
  {
    if i == j then 0 else TotalDelay(cfg, i, j - 1) + Delay(cfg, j - 1)
  }

  /** Undisturbed tries are at least the sum of their delays apart, from call to call and even from a
      call to the check before a later one. */
  lemma {:induction false} TriesAreSpaced(b: Book, st: Standing, clock: nat, cfg: Config, i: nat, j: nat)
    requires BookOk(b, st, clock, cfg) && b.crashes == 0 && i <= j < |b.checks|
    ensures b.checks[i].called + TotalDelay(cfg, i + 1, j + 1) <= b.checks[j].called
    ensures i < j ==> b.checks[i].called + TotalDelay(cfg, i + 1, j + 1) <= b.checks[j].at
    decreases j
  {
    if i < j {
      TriesAreSpaced(b, st, clock, cfg, i, j - 1);
      assert b.checks[j - 1].retried && b.checks[j - 1].attempts == j;
    }
  }
}
