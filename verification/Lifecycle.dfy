/**
 What happens to a task object between its claim and its save: the publisher's status transitions
 (agents/publisher.py) and the scheduler's decisions (app/scheduler.py). Network calls are arbitrary
 outcomes.
 */
module Lifecycle {
  import opened Wrappers
  import opened Timestamps
  import opened Tasks

  datatype Config = Config(maxAttempts: nat, maxLate: nat, staleAfter: nat, retryBase: nat) {
    /** The bounds the service puts on its settings. */
    predicate Valid() {
      1 <= maxAttempts && 60 * MICROS_PER_SECOND <= maxLate && 60 * MICROS_PER_SECOND <= staleAfter
      && MICROS_PER_SECOND <= retryBase
    }
  }

  const RETRY_CAP := 3600 * MICROS_PER_SECOND
  const FAILED_BADGE := "Publish Failed \U{1F534}"

  /** What the platform call came to: an exception, a result marked as failed, or a post. */
  datatype Outcome =
    | Crashed(error: string)
    | Rejected(reason: Option<string>, badge: Option<string>, mode: string)
    | Accepted(externalPostId: Option<string>, id: Option<string>, url: Option<string>, badge: Option<string>,
               note: Option<string>, mode: string)

  /** Python's `value or fallback` for texts. */
  function Or(value: Option<string>, fallback: Option<string>): Option<string> {
    if value.Some? && value.value != "" then value else fallback
  }

  function Logged(task: PublishTask, level: string, message: string, mode: string): PublishTask {
    task.(logs := task.logs + [PublishLog(level, message, mode)])
  }

  // --------------------------------------------------------------- publisher

  function PostId(task: PublishTask, o: Outcome): Option<string>
    requires o.Accepted?
  {
    Or(o.externalPostId, Or(o.id, Some("pub-" + task.platform + "-" + task.id[..if |task.id| < 8 then |task.id| else 8])))
  }

  /** `PublisherAgent.publish`. */
  function PublishedTask(task: PublishTask, outcome: Outcome, now: nat): PublishTask {
    var started := Logged(task.(status := Publishing), "INFO", "Publishing started", "");
    match outcome
    case Crashed(error) =>
      Logged(started.(status := Failed, error := Some(error), badge := Some(FAILED_BADGE)),
             "ERROR", "Publish failed with an unexpected error", "")
    case Rejected(reason, badge, mode) =>
      Logged(started.(status := Failed, error := Or(reason, Some("Publish failed")), badge := Or(badge, Some(FAILED_BADGE))),
             "ERROR", "Publish failed", mode)
    case Accepted(_, _, url, badge, note, mode) =>
      var postId := PostId(task, outcome);
      var live := mode == "live_facebook";
      Logged(started.(status := Published, publishedAt := Some(now), externalPostId := postId,
                      postUrl := Or(url, if live then Some("https://www.facebook.com/" + postId.GetOr("")) else started.postUrl),
                      badge := Or(badge, started.badge), error := Or(note, None)),
             "INFO", if live then "Publish succeeded" else "Publish completed (simulated)", mode)
  }

  // --------------------------------------------------------------- scheduler

  /** `_fail`, up to its save. */
  function FailedTask(task: PublishTask, message: string): PublishTask {
    Logged(task.(status := Failed, error := Some(message), badge := Or(task.badge, Some(FAILED_BADGE))), "ERROR", message, "")
  }

  /** The newest nonempty mode in the log, "" when no entry has one. */
  function NewestMode(logs: seq<PublishLog>): string {
    if logs == [] then "" else
    var last := logs[|logs| - 1];
    if last.mode != "" then last.mode else NewestMode(logs[..|logs| - 1])
  }

  /** `_is_transient`. */
  predicate IsTransient(task: PublishTask) {
    NewestMode(task.logs) == "network_exception"
  }

  /** It looks through the whole log: an entry without a mode does not hide an older one. */
  lemma {:induction false} TransientIsNewestMode(logs: seq<PublishLog>)
    ensures NewestMode(logs) == "network_exception" <==>
            exists i | 0 <= i < |logs| :: logs[i].mode == "network_exception" && forall j | i < j < |logs| :: logs[j].mode == ""
  {
    if logs != [] {
      var n := |logs| - 1;
      var earlier := logs[..n];
      TransientIsNewestMode(earlier);
      assert forall i | 0 <= i < n :: earlier[i] == logs[i];
      if logs[n].mode == "" {
        if i :| 0 <= i < n && earlier[i].mode == "network_exception" && forall j | i < j < n :: earlier[j].mode == "" {
          assert logs[i].mode == "network_exception";
        }
        if i :| 0 <= i <= n && logs[i].mode == "network_exception" && forall j | i < j <= n :: logs[j].mode == "" {
          assert earlier[i].mode == "network_exception";
        }
      }
    }
  }

  function Power2(k: nat): nat {
    if k == 0 then 1 else 2 * Power2(k - 1)
  }

  /** The wait before the next try once `attempts` have been made. */
  function Delay(cfg: Config, attempts: nat): nat {
    var wait := cfg.retryBase * Power2(if attempts == 0 then 0 else attempts - 1);
    if wait < RETRY_CAP then wait else RETRY_CAP
  }

  predicate Retries(task: PublishTask, cfg: Config) {
    task.status == Failed && IsTransient(task) && task.attempts < cfg.maxAttempts
  }

  /** `_finalize`, up to its save. */
  function FinalTask(task: PublishTask, now: nat, cfg: Config): PublishTask {
    if Retries(task, cfg) then
      Logged(task.(status := Scheduled, scheduledAt := Some(now + Delay(cfg, task.attempts))),
             "WARNING", "Transient failure; will retry", "")
    else task
  }

  predicate TooLate(task: PublishTask, now: nat, cfg: Config) {
    task.scheduledAt.Some? && now - task.scheduledAt.value > cfg.maxLate
  }

  /** `recover_stuck_tasks` on the task it has just moved back to `scheduled`, up to its save. */
  function RecoveredTask(task: PublishTask, cfg: Config): PublishTask {
    if task.attempts >= cfg.maxAttempts then FailedTask(task, "Publishing interrupted; gave up")
    else Logged(task, "WARNING", "Recovered task stuck in 'publishing' (worker restart?)", "")
  }

  // ------------------------------------------------------ what callers rely on

  /** A post is recorded exactly for an accepted outcome, always with an id, and never without a log. */
  lemma PublishRecords(task: PublishTask, outcome: Outcome, now: nat)
    ensures var done := PublishedTask(task, outcome, now);
            && (done.status == Published <==> outcome.Accepted?)
            && (done.status == Failed <==> !outcome.Accepted?)
            && (done.status == Published ==> done.externalPostId.Some? && done.externalPostId.value != "" && done.publishedAt == Some(now))
            && (done.status == Failed ==> done.error.Some? && done.publishedAt == task.publishedAt && done.externalPostId == task.externalPostId)
            && task.logs < done.logs && done.attempts == task.attempts && done.scheduledAt == task.scheduledAt
            && done.id == task.id && done.tenant == task.tenant
  {
    var started := Logged(task.(status := Publishing), "INFO", "Publishing started", "");
    var done := PublishedTask(task, outcome, now);
    assert task.logs <= started.logs <= done.logs;
  }

  /** What the platform said is what the task says: its own post id, link, badge and note where it gave
      one; and a failure's reason. The newest log entry carries its mode. */
  lemma WhatIsRecorded(task: PublishTask, outcome: Outcome, now: nat)
    ensures var done := PublishedTask(task, outcome, now);
            && done.logs != [] && done.logs[|done.logs| - 1].mode == (if outcome.Crashed? then "" else outcome.mode)
            && (outcome.Crashed? ==> done.error == Some(outcome.error))
            && (outcome.Rejected? ==> (
                  && done.error == (if outcome.reason.Some? && outcome.reason.value != "" then outcome.reason else Some("Publish failed"))
                  && (outcome.badge.Some? && outcome.badge.value != "" ==> done.badge == outcome.badge)))
            && (outcome.Accepted? ==> AsAccepted(task, outcome, done))
  {
  }

  ghost predicate AsAccepted(task: PublishTask, o: Outcome, done: PublishTask)
    requires o.Accepted?
  {
    && (if o.externalPostId.Some? && o.externalPostId.value != "" then done.externalPostId == o.externalPostId
        else if o.id.Some? && o.id.value != "" then done.externalPostId == o.id
        else done.externalPostId.Some? && "pub-" + task.platform + "-" <= done.externalPostId.value
             && done.externalPostId.value[|task.platform| + 5..] <= task.id
             && |done.externalPostId.value| == |task.platform| + 5 + (if |task.id| < 8 then |task.id| else 8))
    && (if o.url.Some? && o.url.value != "" then done.postUrl == o.url
        else if o.mode == "live_facebook" then
          done.externalPostId.Some? && done.postUrl == Some("https://www.facebook.com/" + done.externalPostId.value)
        else done.postUrl == task.postUrl)
    && (o.badge.Some? && o.badge.value != "" ==> done.badge == o.badge)
    && (o.note.Some? && o.note.value != "" ==> done.error == o.note)
    && (o.note.None? ==> done.error.None?)
  }

  /** A failure is recorded with its message, in the last log entry too, and leaves everything else of the
      task as it was; a recovery leaves all but log and status, unless it gives up. */
  lemma FailureIsRecorded(task: PublishTask, message: string, cfg: Config)
    ensures var done := FailedTask(task, message);
            && done == task.(status := Failed, error := Some(message), badge := done.badge, logs := done.logs)
            && (task.badge.Some? && task.badge.value != "" ==> done.badge == task.badge)
            && done.badge.Some? && done.badge.value != ""
            && |done.logs| == |task.logs| + 1 && task.logs < done.logs && done.logs[|task.logs|] == PublishLog("ERROR", message, "")
    ensures var back := RecoveredTask(task, cfg);
            && back == task.(status := back.status, error := back.error, badge := back.badge, logs := back.logs)
            && |back.logs| == |task.logs| + 1 && task.logs < back.logs && back.logs[|task.logs|].mode == ""
            && (task.attempts < cfg.maxAttempts ==> back.status == task.status && back.error == task.error && back.badge == task.badge)
            && (task.attempts >= cfg.maxAttempts ==> back.status == Failed && back.error.Some?)
  {
  }

  /** Whether a try that failed is repeated: by the mode of the failure, or, when publishing crashed
      and left no mode, by the mode an earlier try left in the log. */
  lemma RetryDecision(task: PublishTask, outcome: Outcome, now: nat, later: nat, cfg: Config)
    requires !outcome.Accepted?
    ensures var done := FinalTask(PublishedTask(task, outcome, now), later, cfg);
            && (done.status == Scheduled || done.status == Failed)
            && (done.status == Scheduled <==>
                  task.attempts < cfg.maxAttempts
                  && (if outcome.Rejected? && outcome.mode != "" then outcome.mode == "network_exception" else IsTransient(task)))
            && (done.status == Scheduled ==> done.scheduledAt == Some(later + Delay(cfg, task.attempts)))
  {
    var started := Logged(task.(status := Publishing), "INFO", "Publishing started", "");
    var done := PublishedTask(task, outcome, now);
    var n := |done.logs| - 1;
    assert done.logs[..n] == started.logs && started.logs[..|task.logs|] == task.logs;
    assert NewestMode(started.logs) == NewestMode(task.logs);
  }

  /** Delays double and are capped. */
  lemma DelayBounds(cfg: Config, attempts: nat)
    requires cfg.Valid()
    ensures MICROS_PER_SECOND <= Delay(cfg, attempts) <= RETRY_CAP
    ensures Delay(cfg, attempts) <= Delay(cfg, attempts + 1)
    ensures 1 <= attempts && Delay(cfg, attempts + 1) < RETRY_CAP ==> Delay(cfg, attempts + 1) == 2 * Delay(cfg, attempts)
  {
    var k := if attempts == 0 then 0 else attempts - 1;
    Positive(k);
    var p := Power2(k);
    assert cfg.retryBase <= cfg.retryBase * p;
    assert cfg.retryBase * (2 * p) == 2 * (cfg.retryBase * p);
    assert attempts >= 1 ==> Power2(attempts) == 2 * p;
  }

  /** In terms of the settings: the first wait is the base, each later one twice the one before, and none
      is longer than 3600 seconds. */
  lemma DelayDoubles(cfg: Config, n: nat)
    requires 1 <= n
    ensures Delay(cfg, 0) == Delay(cfg, 1) == if cfg.retryBase < 3_600_000_000 then cfg.retryBase else 3_600_000_000
    ensures Delay(cfg, n + 1) == if 2 * Delay(cfg, n) < 3_600_000_000 then 2 * Delay(cfg, n) else 3_600_000_000
  {
    var p := Power2(n - 1);
    assert Power2(n) == 2 * p && Power2(0) == 1;
    assert cfg.retryBase * (2 * p) == 2 * (cfg.retryBase * p);
  }

  /** And in one piece. */
  lemma {:induction false} DelayIs(cfg: Config, n: nat)
    requires 1 <= n
    ensures var wait := cfg.retryBase * Power2(n - 1);
            Delay(cfg, n) == if wait < 3_600_000_000 then wait else 3_600_000_000
  {
    if n == 1 {
      DelayDoubles(cfg, 1);
    } else {
      DelayIs(cfg, n - 1);
      DelayDoubles(cfg, n - 1);
      assert cfg.retryBase * Power2(n - 1) == 2 * (cfg.retryBase * Power2(n - 2));
    }
  }

  lemma {:induction false} Positive(k: nat)
    ensures 1 <= Power2(k)
  {
    if k > 0 {
      Positive(k - 1);
    }
  }
}
