# OmniFlow back end: a model and its proofs

This project models the stateful back end of OmniFlow and proves what it promises about every run: the
publish scheduler over its compare-and-swap store, prepaid billing, the AI run quota, one-time email
codes, the channel cap, workspaces sharing one database, comment upserts, slug allocation and the
language-model client. Underneath are the timestamp encoding and the credit-code checksum.

## How it is built

- `Wrappers`, `Counting`, `Timestamps`: optional values; counters; the calendar and `iso_utc`, down to
  the text.
- `Tasks`, `Lifecycle`, `Jobs`: the task table with `save_task` and `claim_task`; what the publisher and
  the scheduler do to a task; one `run_task` cut at every point where another process, an exception or a
  crash can come in.
- `WorkerProtocol`: any number of workers with their lists interleaving those steps, no recovery, the
  leader lock an arbitrary answer; safety without any assumption on clocks. `WorkerTimes`: the same
  workers under a monotone clock, and when they call the publisher. `TaskBooks` and `PollerProtocol`: one
  poller with recovery that can die anywhere, under a clock that never runs back; `SecondPosts`: when such
  a death makes it post a task twice.
- `Visits`, `Scheduler`: a whole tick with nothing in between. `Visits` runs the steps of `Jobs` through;
  `Scheduler` is the service and the publisher as classes whose methods end in the same table.
- `Plans`, `Ledger`, `Subscriptions`, `Payments`: proration, the idempotent ledger with its deliveries
  interleaved at their store calls, also between the operator's, and the code that drives it.
- `Usage`, `Limits`: the fixed-window counter with refunds and every run of it; the gate of a request.
- `Codes`, `CodeProtocol`, `Verification`: codes one call at a time, codes under concurrent requests, and
  the two services.
- `Channels`, `MetaOauth`: the cap, the gate's cache and the login callback.
- `Workspaces`, `Tenancy`, `Comments`, `CommentsWebhook`, `Slugs`, `LlmClient`, `CreditCode`.
- `SqliteStore`: one class with the tables as fields. Each method is one atomic step and reads the clock
  once; its contract equates the new table with the function that specifies the step. The promises about
  runs are proved of those functions, so they hold of the methods. The PostgreSQL store implements the
  same steps.

Clock readings, answers of other services, random fractions, exceptions and the points where a process
dies are arguments or events, all of them arbitrary. Scheduler, quota and code times are microseconds
since the year 1; billing times are real numbers of days, because the program multiplies by a ratio of
daily prices there.

## Where the code does not keep a promise as worded

- A credit code may carry one trailing newline (`$` in the pattern): `CreditCode.TrailingNewline`.
- `scoped_id` says workspaces can never collide. They can when one is the default workspace, or when one
  name with its colon begins the other: `Workspaces.WhenIdsCollide` is the exact condition.
- Timestamps need not sort as texts across years of different length, because `%Y` does not pad:
  `Timestamps.EarlyYearsDoNotSort`; exactly when they do is `Timestamps.WhenTextsSort`.
- The quota check and the statement that takes the run agree exactly when the limit is at least 1, or
  there is no row, or the cycle has not ended: `Usage.CheckAgreesWithUpdate`.
- A refund that arrives after the cycle of its run has ended lowers the count of the next cycle, so more
  than twice the limit can be charged within 30 days: `Usage.CrossingBreaksThirtyDays`. `Usage.ThirtyDays`
  counts these refunds, `Usage.CrossingsAddUp` shows that each can count, and
  `Usage.ThirtyDaysOfPromptBlocks` that there are none when blocks end before their cycle does.
- The clock is read before the database is reached, so concurrent requests can be counted with readings
  out of order. The quota theorems allow this up to any `skew`: their bounds then hold for 30 days less the
  skew, and not for the full 30 days: `Usage.SkewBreaksThirtyDays`.
- The lockout after a number of wrong codes is exact for requests one after the other
  (`Codes.SequentialLockout`); a crowd of concurrent ones at one code can compare that many more, less
  one, and no more: `CodeProtocol.CodesAreSafe`, reached by `CodeProtocol.BoundIsReached`.
- "A different paid plan" keeps the value of unused days; the same plan for the other cycle keeps the days
  and changes their value: `Plans.RenewalReprices`.
- The operator's activation equals as many payments, except for an account without an end date, which it
  gives one: `Ledger.OperatorIsAsManyPayments`. It saves what it computed from an earlier read, so a payment
  in between is overwritten: `Ledger.OperatorReadsBeforeItSaves` has the exact condition under which that
  makes no difference, `Ledger.OverwrittenRenewals` what it costs.
- A claim looks at the status only, so with several workers an old list can start a retry before its
  delay is over: `WorkerTimes.EarlyRetryHappens`. The exact condition is whether the row is due when it is
  claimed: `WorkerTimes.EarlyCallIffEarlyClaim`; with it the spacing holds for any number of workers:
  `WorkerTimes.DueClaimsKeepSpacing`. One poller always has it: `PollerProtocol.RetriesAreSpaced`.
- After a crash between an accepted post and its save, a recovered task can be posted again. It can if and
  only if the age at which a task counts as stuck is less than the lateness allowed:
  `SecondPosts.SecondPostIffStuckBeforeLate`. The defaults, 300 s and 3600 s (app/scheduler.py:126-127),
  are on that side, and there every task with a time can be posted twice:
  `SecondPosts.SecondPostHappens`. On the other side every task is posted once at most, wherever and
  however often the poller dies: `SecondPosts.OnePostWhenStuckIsLate`. Where every recovery completes, a
  second post also takes two attempts: `SecondPosts.SecondPostAfterRecovery`. In any case the posts are at
  most the crashes that lost one plus one, and exactly that for a task that ends in `published`:
  `PollerProtocol.PollerIsSafe`.
- `_is_transient` reads past entries without a mode, so a crash of the publisher is retried when an
  earlier try had failed on the network: `Lifecycle.RetryDecision`.

## Model

| member | source | states |
|---|---|---|
| WorkerProtocol.WorkersAreSafe | app/scheduler.py:168-219 | in every interleaving: at most one owner per task; the row is `publishing` exactly while a live or dead owner exists; the owner's save finds the row as its claim left it and is never refused; at most one post; no more publish calls than attempts; whatever the leader lock answers |
| WorkerProtocol.FinalRowsStay | app/scheduler.py:168-219 | a published, failed or cancelled row is never changed again by anybody |
| WorkerProtocol.PollKeeps | db/sqlite_store.py:1101-1124 | a claim from a list of any age keeps the ownership invariant: only one of any number of claimers wins |
| WorkerProtocol.SaveStepKeeps | db/sqlite_store.py:971-996 | the owner's save releases the task and changes no other row |
| WorkerProtocol.AbandonKeeps | app/scheduler.py:204-207 | a worker that dies leaves its task held and `publishing`, and nobody else can take it |
| WorkerProtocol.CreateKeeps | db/sqlite_store.py:971-996 | tasks saved meanwhile disturb no owner |
| WorkerTimes.DueClaimsKeepSpacing | app/scheduler.py:168-219 | under a monotone clock, for any number of workers with lists of any age: check after claim, call after check; a retried call is followed by one that became due only after its delay; a call is early only if its claim was, and a claim of a due row gives a call in time and spaced from the one before |
| WorkerTimes.DueClaimsAddUp | app/scheduler.py:209-219 | when claims are of due rows, any two calls of any workers are the sum of the delays between them apart |
| WorkerTimes.EarlyCallIffEarlyClaim | db/sqlite_store.py:1101-1124 | the call of a claim can come before the task is due iff the task was not due when it was claimed |
| WorkerTimes.EarlyCheckCanCallInTime | app/scheduler.py:178-202 | an early claim and an early check do not decide: the call can still come as late as one likes |
| WorkerTimes.EarlyRetryHappens | app/scheduler.py:235-238 | from an empty store: two workers list a task, one fails and saves the retry, the other claims from its old list and calls before the delay has passed |
| PollerProtocol.PollerIsSafe | app/scheduler.py:148-165 | one poller dying anywhere: attempts stay within the maximum plus the interrupted recoveries; calls never exceed attempts, nor posts calls; every call follows a lateness check passed between the due time and the end of its grace window; a retried call is followed by one due only after the delay from the call on; posts are at most the lost ones plus one, and exactly that when published |
| SecondPosts.SecondPostIffStuckBeforeLate | app/scheduler.py:126-127 | there is a run that posts some task twice iff `stale_after` is less than `max_late` |
| SecondPosts.SecondPostHappens | app/scheduler.py:148-165 | then every task with a time can be posted twice from an empty store: when it is due and as soon as it counts as stuck; with one attempt allowed by way of an interrupted recovery, with two of a completed one |
| SecondPosts.SecondPostAfterRecovery | app/scheduler.py:154-162 | where every recovery completes, a task can be posted twice iff `stale_after` is less than `max_late` and at least two attempts are allowed |
| SecondPosts.OnePostWhenStuckIsLate | app/scheduler.py:178-189 | when `max_late` is at most `stale_after`, no task of any run is posted twice, whatever crashes come, and a published one was posted once, with no post lost |
| SecondPosts.ThinkOnce | app/scheduler.py:178-189 | after a lost post no step of a later try reaches a publisher call |
| PollerProtocol.RetriesAreSpaced | app/scheduler.py:209-219 | without a crash on the task its n-th publisher call is its n-th attempt, and any two calls, even a call and the check before a later one, are at least the sum of the delays between them apart; from the n-th call to the next check passes at least the configured base times 2 to the n - 1, or 3600 seconds if that is less |
| PollerProtocol.FinalRowsStay | app/scheduler.py:148-219 | published, failed and cancelled are absorbing, crashes and recoveries included |
| PollerProtocol.RecoverKeeps | app/scheduler.py:151-153 | the recovery's claim keeps the accounts |
| PollerProtocol.RecoverSaveKeeps | app/scheduler.py:154-162 | the recovery's save keeps them, failing a task that has no tries left |
| PollerProtocol.DieKeeps | app/scheduler.py:148-165 | so does a crash at any point |
| PollerProtocol.StoreStepKeeps | app/scheduler.py:209-219 | a saved retry is due no sooner than its delay after the failed call |
| PollerProtocol.ListKeeps | app/scheduler.py:235-238 | every listed task is scheduled and due at the time of listing |
| TaskBooks.TriesAreSpaced | app/scheduler.py:209-219 | undisturbed publisher calls are the sum of their delays apart, and so is a call from the check before a later one |
| TaskBooks.Call | app/scheduler.py:178-202 | a call, entered with the instants of its check and of itself, keeps the order and spacing of all calls |
| TaskBooks.Retry | app/scheduler.py:210-213 | a retry due no sooner than the delay after its call keeps them too |
| Jobs.ClaimStarts | app/scheduler.py:170-175 | a claim that wins adds one attempt and starts a job in order |
| Jobs.WorkKeeps | app/scheduler.py:177-207 | no step before the save touches the table, and each keeps what the phase promises |
| Jobs.StoreKeeps | app/scheduler.py:209-219 | the save replaces the row its claim left, keeps the log, and is `published` just when the platform accepted and no exception came after |
| Lifecycle.PublishRecords | agents/publisher.py:65-124 | a post is recorded exactly for an accepted outcome, always with an id; a failure always has an error; the log only grows |
| Lifecycle.WhatIsRecorded | agents/publisher.py:88-124 | a published task bears the platform's own post id, link, badge and note where it gave one, a failed one its reason; the newest log entry has its mode |
| Lifecycle.FailureIsRecorded | app/scheduler.py:139-162 | a failure is recorded with its message, in the last log entry too, and nothing else of the task changes; a recovery changes log and status alone unless it gives up |
| Lifecycle.RetryDecision | app/scheduler.py:209-227 | a failed try is repeated iff tries are left and the mode of the failure, or of the newest earlier entry that has one, is `network_exception` |
| Lifecycle.TransientIsNewestMode | app/scheduler.py:222-227 | transient iff the newest entry with a mode, over the whole log, carries `network_exception` |
| Lifecycle.DelayBounds | app/scheduler.py:211-213 | delays are at least a second, never shrink and stay within an hour |
| Lifecycle.DelayDoubles | app/scheduler.py:211 | the first delay is the configured base, each later one twice the one before, none over 3600 seconds |
| Lifecycle.DelayIs | app/scheduler.py:211 | the n-th delay is the base times 2 to the n - 1, or 3600 seconds if that is less |
| Visits.VisitSaves | app/scheduler.py:168-207 | the steps of a whole run come to one save of one version of the task |
| Visits.OutcomesMoveOn | app/scheduler.py:168-219 | that version is published, failed, or due only after the delay with tries left; published iff accepted, checked no later than `max_late` after the due time, with a draft and without an exception; a late one has failed as missed |
| Visits.VisitMovesOn | app/scheduler.py:168-219 | a run touches one row, adds one attempt and never leaves `publishing` |
| Visits.TriesRunOut | app/scheduler.py:209-219 | each visit ends the task or uses up one attempt; the last one allowed always ends it |
| Visits.RoundMovesOn | app/scheduler.py:235-240 | every listed task is tried once in a tick and then done with or due only later; no other row changes |
| Visits.RecoveryWorks | app/scheduler.py:148-165 | after the recovery no listed task is `publishing`; attempts and due times are kept |
| Scheduler.PublisherAgent.Publish | agents/publisher.py:65-124 | the task it mutates step by step ends as specified for every outcome |
| Scheduler.SchedulerService.Fail | app/scheduler.py:139-145 | the failed version is what gets saved |
| Scheduler.SchedulerService.TransientFailure | app/scheduler.py:222-227 | the loop over the reversed log finds the newest mode |
| Scheduler.SchedulerService.Finalize | app/scheduler.py:209-219 | the retry or the final status is what gets saved |
| Scheduler.SchedulerService.HandleException | app/scheduler.py:204-207 | the row as it stands is re-read and failed |
| Scheduler.SchedulerService.RunTask | app/scheduler.py:168-207 | the method ends in the table of the visit, and reports whether its claim won |
| Scheduler.SchedulerService.RecoverStuckTasks | app/scheduler.py:148-165 | exactly the tasks that are publishing and were last saved longer ago than `stale_after` are repaired and counted |
| Scheduler.StuckIsExact | app/scheduler.py:151 | the cut-off handed to the query finds the tasks publishing since more than `stale_after` |
| Scheduler.SchedulerService.RecoverOne | app/scheduler.py:152-162 | claim, re-read and save one stuck task |
| Scheduler.SchedulerService.RunAll | app/scheduler.py:236-240 | the listed tasks are tried in order, each once |
| Scheduler.SchedulerService.PollOnce | app/scheduler.py:230-243 | a tick: recovery, then the first due tasks in order, none passed over; nothing at all without the leader lock |
| Scheduler.TickServesTheDue | app/scheduler.py:230-243 | a due task is not due at that time after the tick, unless the batch was full of tasks due no later |
| Tasks.ListingIsExact | db/sqlite_store.py:1071-1090 | the query over the columns returns exactly the first tasks by due time whose model is scheduled and due |
| Tasks.StaleIsExact | db/sqlite_store.py:1095-1099 | the recovery query finds exactly the tasks that are publishing and were last saved before the cut-off, or never |
| Tasks.SaveKeeps | db/sqlite_store.py:971-996 | a save keeps columns and payload equal and row ids distinct |
| Tasks.WhatIsWritten | db/sqlite_store.py:971-1124 | a save leaves all the task says, dated now; a claim leaves all that was there but status, date and, when publishing starts, one attempt more; a refused write leaves nothing |
| Tasks.ClaimKeeps | db/postgres_store.py:822-842 | so does a claim |
| Tasks.StatusTextInjective | models/schemas.py:246-262 | a stored status names one status |
| Timestamps.UtcWallInverts | db/base.py:41-47 | the UTC clock reading of an instant names that instant |
| Timestamps.TextOrder | db/base.py:41-47 | for all instants: within a year texts compare like the instants, across years like the texts of the years; a text names one instant |
| Timestamps.WhenTextsSort | db/base.py:41-47 | for all instants: text order is time order iff the years are the same or their texts sort like the years, which they do when they have as many digits |
| Timestamps.IsoOrder | db/base.py:41-47 | so for years 1000 to 9999 text order is time order and the encoding is injective (section 5.1 of RFC 3339) |
| Timestamps.IsoUtcOrder | db/base.py:41-47 | the same for datetimes of any offset, naive ones taken as UTC |
| Timestamps.OffsetsCancel | db/base.py:41-47 | for every instant and offset: a clock that far ahead of UTC, and a naive one showing UTC, are written as the text of the instant they were read at |
| Timestamps.IsoReadsBack | db/base.py:47 | the text has the one format `YYYY-MM-DDTHH:MM:SS.ffffffZ`, and read back field by field it is the calendar and clock of its instant |
| Timestamps.KnownDays | db/base.py:47 | the calendar is the proleptic Gregorian one that datetime counts: the ordinals of 1970-01-01 and 9999-12-31, and which years have a 29th of February |
| Timestamps.PadReads | db/sqlite_store.py:321 | a number written in decimal, padded or not, is read back as itself |
| Timestamps.EarlyYearsDoNotSort | db/base.py:41-47 | every moment of the year 999 sorts after every moment of 1000 |
| SqliteStore.Store.constructor | db/sqlite_store.py:251-277 | a new database holds the default workspace and its house account, nothing else, and satisfies every table invariant |
| SqliteStore.Store.SaveTask | db/sqlite_store.py:971-996 | insert, update, or refusal of a row of another workspace |
| SqliteStore.Store.ClaimTask | db/sqlite_store.py:1101-1124 | compare-and-swap on the status column, counting an attempt when publishing starts |
| SqliteStore.Store.GetTaskAnyTenant | db/sqlite_store.py:1063-1065 | the payload with the tenant column over it, or nothing |
| SqliteStore.Store.Earliest | db/sqlite_store.py:1085-1090 | an id whose due text is least |
| SqliteStore.Store.ListDueTasks | db/sqlite_store.py:1085-1090 | an answer to WHERE, ORDER BY and LIMIT over the columns |
| SqliteStore.Store.ListRecoverableTasks | db/sqlite_store.py:1095-1099 | exactly the rows of the WHERE clause, each once |
| SqliteStore.Store.CreateTenant | db/sqlite_store.py:312-326 | the loop ends at the least free candidate and slugs stay distinct |
| SqliteStore.Store.GetSubscription | db/sqlite_store.py:596-599 | the row of the workspace or nothing |
| SqliteStore.Store.EnsureSubscription | db/sqlite_store.py:601-614 | inserted only when there is none; the answer is what is there then |
| Subscriptions.StartTrial | app/plans.py:88-96 | a Pro trial, or what was there |
| Subscriptions.GetOrCreateSubscription | app/plans.py:99-108 | the stored subscription; when there is none an account without an end for the default workspace, and a Pro trial of `trial_days` for any other |
| SqliteStore.Store.SaveSubscription | db/sqlite_store.py:616-632 | one workspace's subscription is replaced |
| SqliteStore.Store.ApplyPayment | db/sqlite_store.py:736-779 | a new payment row and what the closure decides are written together; a known id changes nothing |
| SqliteStore.Store.SetUpgradeRequestsStatus | db/sqlite_store.py:727-733 | exactly the pending requests of the workspace are answered, and counted |
| SqliteStore.AnsweredIsAnswered | db/sqlite_store.py:727-733 | afterwards none of the workspace is pending, those that were have the new status and are otherwise the same, and every other request is as it was |
| SqliteStore.PendingAreCounted | db/sqlite_store.py:727-733 | the number returned is that of the places of the pending requests |
| SqliteStore.Store.IncrementAiRuns | db/sqlite_store.py:656-683 | the two statements together are the specified increment |
| SqliteStore.Store.ReleaseAiRun | db/sqlite_store.py:685-692 | the guarded decrement |
| SqliteStore.Store.SaveVerificationCode | db/sqlite_store.py:412-425 | expired codes go, this one replaces the old |
| SqliteStore.Store.RecordVerificationFailure | db/sqlite_store.py:435-442 | one failure more, and its number, or 0 without a row |
| SqliteStore.Store.DeleteVerificationCode | db/sqlite_store.py:444-451 | delete if unchanged |
| SqliteStore.Store.SaveConnectedAccount | db/sqlite_store.py:465-506 | looks the row up by workspace, platform and account; updates it, keeping its id and creation, or inserts one |
| SqliteStore.Store.SavePageComment | db/sqlite_store.py:789-814 | the coalescing upsert |
| Plans.SwitchConservesValue | app/plans.py:141-166 | days left times the old daily price plus the amount paid is days after times the new daily price |
| Plans.TwentyProDays | app/plans.py:150-154 | twenty days of Pro become about eight of Agency on top of the new period |
| Plans.RenewalConservesDays | app/plans.py:161-163 | paying for the running plan, trial or paid, loses no day |
| Plans.RenewalReprices | app/plans.py:161-163 | the value gained by renewing for a cycle is days left times the difference of daily prices, nothing iff the cycle is the same |
| Plans.NeverShort | app/plans.py:145-166 | the end is never before now plus what was bought |
| Plans.FreshStart | app/plans.py:145-166 | after an expired subscription, a trial of another plan, a plan not sold, or none, the end is exactly 30 or 365 days a period from now |
| Plans.LaterEndKeepsLater | app/plans.py:145-166 | the end is monotone in the current end |
| Plans.PaymentsCompose | app/plans.py:145-166 | m periods and then n at the same instant are m + n periods |
| Plans.PaidMeansActive | app/plans.py:77-85 | after a payment the workspace is active until the end, in particular for the whole bought period, and expired from then on |
| Plans.WhenItRuns | app/plans.py:77-85 | a subscription has not expired iff it is active or on trial and its end, if it has one, lies ahead; its status is then the stored one |
| Plans.FirstIsATrial | app/plans.py:88-108 | a first subscription lets its workspace in exactly until its trial days are over; only that of the default workspace has no end |
| Ledger.RepeatsMakeNoDifference | db/sqlite_store.py:736-779 | in any interleaving of deliveries cut at their store calls, calls that repeat a session id or an ensured workspace change nothing |
| Ledger.FirstsAreDistinct | app/payments.py:234-240 | what is left applies each session once and ensures each workspace once |
| Ledger.InterleavingsAreSerial | app/payments.py:234-311 | any interleaving of deliveries ends as whole deliveries one after the other, each session once in the order of first application, plus workspaces that were only ensured so far |
| Ledger.DeliveriesAreSerializable | db/sqlite_store.py:736-779 | the same from any ledger; payments and subscriptions are equal when every ensured workspace was applied to |
| Ledger.RedeliveryMakesNoDifference | app/payments.py:234-311 | any sequence of whole deliveries ends as the one without redeliveries |
| Ledger.LedgerIsBalanced | db/postgres_store.py:456-497 | always: one row per session; a row is paid only for the full price in the right currency; plan, cycle and end of a workspace are those of its latest paid row |
| Ledger.RowsArePurchases | app/payments.py:245-296 | in every interleaving: each new row is of a session some call applied, reported paid, a payment for a plan by a workspace that exists, with no other reference, and has its id, workspace, plan and amount, paid only for the list price in fen; and every such session that was applied has its row |
| Ledger.OnlyPurchasesProceed | app/payments.py:245-265 | the guards let exactly such sessions through |
| Ledger.UnpaidChangesNothing | app/payments.py:260-262 | any calls of sessions not reported paid leave payments and subscriptions as they were |
| Ledger.WhatTheAnswerSays | app/payments.py:234-311 | activated iff a paid row was added, review iff one kept for review was, duplicate iff a purchase had its row already, pending iff all but the payment is in order, else ignored; pending and ignored change nothing |
| Ledger.ReviewChangesNoSubscription | app/payments.py:272-287 | a payment is kept for review iff it is not the list price in cny or the account is active without an end; then no subscription changes, else only this workspace's, by at least the bought period |
| Ledger.HouseAccountStays | app/payments.py:279-281 | no delivery changes an account that is active without an end |
| Ledger.OnlyTheHouseHasNoEnd | app/plans.py:99-108 | no deliveries give any workspace but the default one an account without an end |
| Ledger.DaysAddUp | app/plans.py:145-166 | over a run in which a workspace renews its running plan, its end moves by exactly the days paid for |
| Ledger.OperatorIsAsManyPayments | scripts/set_plan.py:45-52 | activation for k periods equals k fulfilments at that instant iff the account is not one that is active without an end |
| Ledger.OperatorReadsBeforeItSaves | scripts/set_plan.py:45-50 | with any store calls of deliveries between the operator's read and save, it ends as one step at the save iff the period starts at the same time from the subscription read as from the one overwritten; so it does when no new full payment of the workspace is among them |
| Ledger.OverwrittenRenewals | scripts/set_plan.py:45-50 | when deliveries in between renew the running plan, the save takes back exactly the days they were paid for, and makes no difference iff there were none |
| Payments.FulfillCheckoutSession | app/payments.py:234-311 | the method is one delivery of the ledger; it answers activated or review just when it added a paid row or one kept for review, answers upgrade requests just when it activated, and changes nothing for a session not reported paid |
| Payments.Activate | scripts/set_plan.py:45-52 | the operator's activation as the ledger specifies it |
| Payments.Expire | scripts/set_plan.py:55-64 | access is expired at every time after it |
| Usage.CheckAgreesWithUpdate | app/plans.py:126-133 | the check before and the update agree iff the limit is at least 1 or no cycle has ended; the returned count is the count before plus one |
| Usage.WhatIsCounted | db/sqlite_store.py:656-692 | a run taken counts one more, in its cycle or in a new one of 30 days; a refusal comes only at the limit and leaves the row it found; a release counts one fewer and touches no ended cycle |
| Usage.ThirtyDays | db/sqlite_store.py:656-692 | clock readings being out of order by at most the skew: in any 30 days less the skew of any run with a constant limit at most twice the limit is charged, plus the refunds that crossed into those two cycles |
| Usage.ThirtyDaysWithoutCrossing | app/dependencies/limits.py:108-119 | at most twice the limit when no refund crossed |
| Usage.PromptNeverCrosses | db/sqlite_store.py:685-692 | refunds that come before the end of the cycle their run was counted in, by the skew, never cross |
| Usage.ThirtyDaysOfPromptBlocks | app/dependencies/limits.py:108-119 | so at most twice the limit in any 30 days less the skew, and the limit in any cycle, when every block ends before its cycle does, by the skew |
| Usage.CrossingBreaksThirtyDays | app/dependencies/limits.py:115-119 | with a limit of 2, a short block across the end of a cycle lets five runs be charged within 30 days |
| Usage.SkewBreaksThirtyDays | db/sqlite_store.py:656-683 | the skew has to be taken off: with a limit of 3 and readings two microseconds out of order seven runs are charged within 30 days |
| Usage.CrossingsAddUp | db/sqlite_store.py:685-692 | the bound per cycle is exact: for every limit and every number of crossings a run charges their sum to one cycle |
| Usage.TimesKept | db/sqlite_store.py:656-692 | cycles are disjoint, last 30 days, and each run lies in the cycle it was counted in, or before it by no more than the skew |
| Usage.TakeCounted | db/sqlite_store.py:656-683 | a take keeps every cycle within the limit |
| Usage.RefundCounted | app/dependencies/limits.py:71-74 | a refund keeps the counter above what is charged, unless it crosses |
| Limits.AIRun.Refund | app/dependencies/limits.py:71-74 | gives the run back the first time only |
| Limits.AIRun.KeepIfAi | app/dependencies/limits.py:76-79 | refunds iff nothing was written by the model, and touches no other workspace |
| Limits.ProducedAiOutput | app/dependencies/limits.py:52-61 | true iff the result or one of its drafts is model-written |
| Limits.PlanGate.CheckAiQuota | app/dependencies/limits.py:103-106 | refuses iff the plan is not Agency and 300 runs are used up in the current cycle |
| Limits.PlanGate.AiRunBlock | app/dependencies/limits.py:108-119 | a block takes one run or is refused, and gives back at most one however often it is asked to |
| Limits.CheckedRunIsTaken | app/dependencies/limits.py:103-113 | a request that passes the check gets its run when no other comes in between |
| Limits.PlanGate.ChannelKeys | app/dependencies/limits.py:122-125 | the cache is filled from the rows once |
| Limits.PlanGate.RequireChannelSlot | app/dependencies/limits.py:134-141 | admits on the Agency plan anything, else a known key always and a new one iff fewer than 3 are in use, and adds it to the cache |
| Limits.VerifyPlanLimit | app/dependencies/limits.py:149-162 | entry is refused for the subscription iff its status is neither active nor trial or its end has come, and for AI iff the plan is not Agency and 300 runs are used, which is when taking one would be refused |
| Limits.LoadPlanGate | app/dependencies/limits.py:144-146 | the gate carries the ensured subscription and its effective status |
| Limits.PlanGate.constructor | app/dependencies/limits.py:82-100 | an empty cache and the status at that time |
| Codes.AcceptedOnce | app/verification.py:143-165 | accepted iff pending, in time, not locked and matching; then gone; other addresses and purposes are untouched |
| Codes.OthersKeepTheirCodes | db/sqlite_store.py:412-425 | issuing a code leaves every unexpired code of another address or purpose as it was and adds none |
| Codes.WhatAGuessAnswers | app/verification.py:143-165 | for every guess the answer it gets, and exactly what it leaves of the code |
| Codes.SentCodeIsTheOne | app/verification.py:110-165 | after sending, with a collision-free hash, a guess is accepted iff it is the code and in time |
| Codes.WhenACodeIsSent | app/verification.py:110-140 | sent iff the purpose is registration or password reset, mail is configured and delivers, and the waiting time is over; which refusal otherwise; the wait answered is exact; refusals change nothing |
| Codes.FailedDeliveryLeavesNothing | app/verification.py:134-139 | a failed delivery leaves no row and no waiting time |
| Codes.SequentialLockout | app/verification.py:156-162 | one after the other, wrong guesses are compared exactly up to the limit, then every guess is refused |
| CodeProtocol.CodesAreSafe | app/verification.py:143-165 | in every interleaving, successes never exceed the codes saved, and of one code at most the limit minus one plus the number of its own concurrent requests are compared, whatever other addresses do |
| CodeProtocol.BoundIsReached | app/verification.py:149-162 | for every limit and every number of concurrent requests at a code a run that compares exactly that many |
| CodeProtocol.AloneIsConsumed | app/verification.py:143-165 | a request whose steps nobody comes between leaves the rows, and succeeds, exactly as the whole check does |
| CodeProtocol.OnlyTheCodeInForce | app/verification.py:162-165 | in every interleaving a success uses up the code in force at that moment, and it was the one entered |
| CodeProtocol.NewerCodeStays | db/sqlite_store.py:444-451 | settling a request that read an older code, or dropping an older code, leaves the newer one in force |
| CodeProtocol.SaveKeeps | db/sqlite_store.py:412-425 | a new code starts its count afresh and drops expired ones |
| CodeProtocol.JudgeKeeps | app/verification.py:152-158 | a comparison uses up the room its read was counted for |
| CodeProtocol.SettleKeeps | db/sqlite_store.py:435-451 | a failure is recorded or the code deleted if unchanged |
| Verification.IssueCode | app/verification.py:110-140 | the method is the specified issue |
| Verification.ConsumeCode | app/verification.py:143-165 | the method is the specified check |
| Channels.CacheIsExact | app/routers/meta_oauth.py:175-195 | after the pages are accepted and saved the cached keys equal the recomputed ones, within the cap unless over it before; other workspaces keep theirs |
| Channels.WhoIsTurnedAway | app/dependencies/limits.py:134-141 | a page is turned away iff it is new and the cap is full at its turn; a connected one never is; after one new page is turned away all later ones are |
| Channels.UsableAreConnected | app/routers/meta_oauth.py:178-183 | the accepted pages are those connected in the end, in Meta's order |
| Channels.CapHolds | app/dependencies/limits.py:134-141 | the size stays within the cap or the previous size, and pages are skipped only at a full cap |
| Channels.WhatCounts | app/plans.py:111-123 | two connected rows count once iff they share the platform and, on pages, Instagram and ad accounts, the account; the webhook never counts |
| Channels.KeysAreConnected | app/plans.py:116-123 | the keys of a workspace are those of its connected rows, the webhook left out |
| Channels.UnconnectedDoesNotCount | app/plans.py:118-121 | a row that is no channel can be removed without a difference |
| Channels.OneRowWritten | db/sqlite_store.py:465-506 | a save writes its row alone and keeps the row's id and creation |
| Channels.OneSaved | db/sqlite_store.py:465-506 | saving one page adds its key to its workspace and changes no other |
| Channels.PagesAreHeld | app/routers/meta_oauth.py:184-195 | each accepted page's row holds its own token and name and tasks, connected by this user; of pages of one id the first one's |
| Channels.OtherRowsStay | app/routers/meta_oauth.py:184-195 | the saves touch no row but those pages', and keep the id and creation of a row that was there |
| Channels.FirstPageIsDefault | app/routers/meta_oauth.py:184-195 | saving in reverse makes the first accepted page the usable row updated last |
| Channels.LookupsStayPrivate | db/sqlite_store.py:508-522 | a user's lookup finds only an account of his own or a shared one, and one that was updated last is found |
| MetaOauth.AcceptPages | app/routers/meta_oauth.py:175-183 | the first loop sorts the pages as specified |
| MetaOauth.CompletePages | app/routers/meta_oauth.py:175-178 | the pages with both an id and a token, each as often as listed, and no others are looked at |
| MetaOauth.SavePages | app/routers/meta_oauth.py:184-195 | the second loop saves them last to first |
| MetaOauth.ConnectPages | app/routers/meta_oauth.py:175-195 | both loops together: cache equal to the rows, cap of 3 kept outside the Agency plan, no key lost, pages accounted for, and each accepted page held by its row |
| MetaOauth.FirstUsableIsDefault | db/sqlite_store.py:508-522 | a lookup without a user, or by the user who logged in, finds the first accepted page |
| Tenancy.TenantsNeverChange | db/sqlite_store.py:939-996 | no run of saves and claims moves a row to another workspace |
| Tenancy.SeesItsOwnOnly | db/sqlite_store.py:998-1048 | with ids not shared, every get and list of a workspace is as if all other workspaces' operations were removed |
| Tenancy.ListsOwnTenant | db/sqlite_store.py:1012-1023 | a list holds all the matching rows of the workspace and none of another |
| Tenancy.SavedIsGot | db/sqlite_store.py:971-1010 | a saved task is got by its workspace, as it was saved, and by no other |
| Tenancy.NewIsListedFirst | db/sqlite_store.py:1012-1048 | a new task comes first in the lists of its workspace and into no other |
| Workspaces.ScopedTwice | db/base.py:55-63 | scoping twice is scoping once |
| Workspaces.WhenIdsCollide | db/base.py:55-63 | two workspaces can get the same id iff one is the default or one prefix begins the other |
| Workspaces.PlainNamesNeverCollide | db/base.py:55-63 | different names without a colon, none the default, never collide |
| Comments.RowsHoldTheLatest | db/sqlite_store.py:789-814 | after any events on any table a comment exists iff it did or one was sent; each coalesced field is the newest non-null value, verb and page the latest; the rest is as it was |
| Comments.RowsAreDated | db/sqlite_store.py:789-814 | a row keeps the time of its first event, or that it had, and bears that of its last |
| Comments.LastValueIsLast | db/sqlite_store.py:798-807 | that value is the one after which only nulls came |
| Comments.RedeliveryIsIdempotent | db/sqlite_store.py:798-807 | the latest event once more changes the time stamp only |
| CommentsWebhook.Persist | app/routers/comments.py:137-159 | a workspace has a comment afterwards iff it had it or some event is of that id and of a page it has connected, or, for the default workspace, of the configured page; a comment not sent is as it was, one that was holds the newest values; events are stored in order and counted |
| CommentsWebhook.MeantIsSent | app/routers/comments.py:137-159 | the comments meant for a workspace are those of its pages |
| Slugs.LeastFreeExists | db/sqlite_store.py:316-321 | for every finite table there is exactly one least free candidate, within one more than the slugs there are |
| Slugs.SearchEnds | db/sqlite_store.py:319-321 | k - 1 taken candidates are as many different slugs |
| Slugs.CandidatesDiffer | db/sqlite_store.py:320-321 | different suffixes give different slugs |
| Slugs.CandidateReads | db/sqlite_store.py:316-321 | the first candidate is the base slug, the k-th the base, a hyphen and k in digits without a leading zero |
| Slugs.NewSlugKeepsDistinct | db/sqlite_store.py:322-325 | a free slug keeps all slugs that are not null distinct |
| LlmClient.Client.Chat | agents/llm_client.py:203-269 | the provider sees exactly the specified calls, none iff there is no key or its fingerprint is held; the sleeps are the delays after each answer but the last; a text iff the last answer was one that is not empty, and which error otherwise |
| LlmClient.Client.Attempts | agents/llm_client.py:225-264 | the retry loop makes those calls and sleeps the delay of every answer that is followed by another call |
| LlmClient.Client.BackoffDelay | agents/llm_client.py:195-201 | the time the provider asked for, cut to the maximum, or else the random fraction of the base times 2 to the attempt, cut to the maximum |
| LlmClient.CallsEndAtFirstFinal | agents/llm_client.py:248-254 | a chat goes on after a rate limit or a transient error and stops at the first other answer or when its tries are used up |
| LlmClient.RestIsBounded | agents/llm_client.py:254-264 | the sleeps of a chat total at most retries times the maximum |
| LlmClient.RejectedKeysStaySilent | agents/llm_client.py:190-219 | over every run of chats of any clients: the fingerprints held are those of rejected keys, and once a key is rejected no later call with it, or with a key of its fingerprint, reaches the provider |
| CreditCode.ValidIsCongruence | models/schemas.py:437-441 | a well-formed code is valid iff its weighted sum is 0 modulo 31 (GB 32100-2015, check character) |
| CreditCode.KnownCode | models/schemas.py:432-441 | of the codes that begin like 91330100799655058B, a valid one, no other is valid |
| CreditCode.ClassIsTheSet | models/schemas.py:434 | outside the region's digits a place takes just the characters of the set |
| CreditCode.SetIsSorted | models/schemas.py:432 | a character's value is its rank in the set |
| CreditCode.TwoValidCodesDifferTwice | models/schemas.py:432-441 | two different valid codes differ in at least two places |
| CreditCode.SwapDetected | models/schemas.py:432-441 | swapping two characters keeps a code valid iff they are equal or the places are the first and the last |
| CreditCode.PowersOf3 | models/schemas.py:433 | the weights are the powers of 3 modulo 31 |
| CreditCode.WeightsDiffer | models/schemas.py:433 | and all different but for the first and the check position |
| CreditCode.InverseWorks | models/schemas.py:441 | every value but zero has an inverse modulo 31 |
| CreditCode.TrailingNewline | models/schemas.py:434-439 | besides the eighteen characters exactly one trailing newline is let through |

## Left out

- HTTP, Stripe, Meta Graph, SMTP, Redis and language-model transports: their answers are arbitrary arguments.
- Routing, request validation, pages, prompts, logging and redaction: no state of their own.
- Immediate publishing by the web application, which saves a task in `publishing` with no attempts and publishes it itself (app/main.py:619-651), and the published records it writes directly (app/main.py:549-561): the scheduler models start from tasks it claims.
- PollerProtocol.RetriesAreSpaced: for one poller, because with several it does not hold without a condition (`WorkerTimes.EarlyRetryHappens`).
- WorkerProtocol.WorkersAreSafe: a call of the platform and its answer are one event, in all the protocol models; the times proved separate the answer from the next check.
- Payments.Activate: nothing comes between its read, its save and the answering of requests; `Ledger.OperatorReadsBeforeItSaves` says when that matters.
- Payments.Expire: likewise one step, though a payment between its read and its save is overwritten with the plan that was read, as expired.
- Jobs.StoreKeeps: a save that raises is one that did not take effect; one that commits and then raises, so that the handler fails the saved task, is not modelled.
- SqliteStore.Store.CreateTenant: one step, though two creations at once can pick one slug; the UNIQUE column then refuses the second, which is not modelled. The same goes for two first saves of one connected account, which no index stops.
- Recovery by several pollers at once: claim, re-read and save are three store calls there, so mutual exclusion is claimed without recovery only.
- The channel cap across concurrent requests: check and save are not one step in the program.
- PostgreSQL's own statements, row locks and policies: its methods are the same atomic steps.
- Rounding of times to microseconds and of float ratios in billing; amounts of a session that are not integers count as absent.
- Hashing: any function, with a collision-free guess assumed only where `Codes.SentCodeIsTheOne` says so. Addresses are normalised and codes stripped before they reach the model.
- Slug normalisation, log message texts with their times and numbers, and log data besides the mode.
- Parsing of webhook bodies into comment events: only the type of each field survives it.
- CommentsWebhook.Persist: stores the workspaces of one event in any order, not sorted, because they are different rows.
- Lower-casing of platform names on reading: every save leaves them in lower case.
- A `PublishTask` is a value that methods replace; that the publisher and the scheduler share one object is not modelled.
- Timestamps.EarlyYearsDoNotSort: for C libraries that do not pad `%Y`; those that do are not modelled.
- Deletion and listing of accounts, campaigns, drafts, users and applications: easy members of the same kind.
