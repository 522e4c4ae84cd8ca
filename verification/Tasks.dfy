/**
 Publish tasks and their table (models/schemas.py, db/sqlite_store.py). A row keeps the whole task
 as its payload and repeats tenant, status and times in columns; the columns drive the queries.
 Times are instants as in Timestamps.
 */
module Tasks {
  import opened Wrappers
  import opened Timestamps

  datatype Status = Scheduled | Publishing | Published | Failed | Cancelled

  /** One log entry; `mode` is the text under "mode" in its data, "" when there is none. */
  datatype PublishLog = PublishLog(level: string, message: string, mode: string)

  datatype PublishTask = PublishTask(
    id: string, tenant: string, campaignId: string, draftId: string, platform: string, status: Status,
    scheduledAt: Option<nat>, publishedAt: Option<nat>, externalPostId: Option<string>, postUrl: Option<string>,
    badge: Option<string>, error: Option<string>, attempts: nat, updatedAt: Option<nat>, logs: seq<PublishLog>)

  datatype TaskRow = TaskRow(
    tenant: string, campaignId: string, payload: PublishTask, status: string, scheduledAt: Option<string>,
    updatedAt: Option<string>)

  /** The rows by id, and the ids in order of insertion (rowid). */
  datatype TaskTable = TaskTable(rows: map<string, TaskRow>, order: seq<string>)

  const EMPTY_TASKS := TaskTable(map[], [])

  /** The enum's stored value. */
  function StatusText(s: Status): string {
    match s
    case Scheduled => "scheduled"
    case Publishing => "publishing"
    case Published => "published"
    case Failed => "failed"
    case Cancelled => "cancelled"
  }

  lemma StatusTextInjective(s: Status, t: Status)
    ensures StatusText(s) == StatusText(t) <==> s == t
  {
    assert StatusText(s)[0] != StatusText(t)[0] || StatusText(s)[|StatusText(s)| - 1] != StatusText(t)[|StatusText(t)| - 1]
           || |StatusText(s)| != |StatusText(t)| || s == t;
  }

  function IsoColumn(t: Option<nat>): Option<string> {
    if t.Some? then Some(IsoOfInstant(t.value)) else None
  }

  /** Reading a row back: the tenant column is authoritative. */
  function Load(row: TaskRow): PublishTask {
    row.payload.(tenant := row.tenant)
  }

  // ------------------------------------------------------------ atomic steps

  function SavedRow(task: PublishTask, now: nat): TaskRow {
    TaskRow(task.tenant, task.campaignId, task.(updatedAt := Some(now)), StatusText(task.status),
            IsoColumn(task.scheduledAt), Some(IsoOfInstant(now)))
  }

  /** A row of another tenant is never overwritten. */
  predicate SaveAllowed(t: TaskTable, task: PublishTask) {
    task.id in t.rows ==> t.rows[task.id].tenant == task.tenant
  }

  /** `save_task`: insert or update by id. */
  function Save(t: TaskTable, task: PublishTask, now: nat): TaskTable {
    if SaveAllowed(t, task) then
      TaskTable(t.rows[task.id := SavedRow(task, now)], if task.id in t.rows then t.order else t.order + [task.id])
    else t
  }

  predicate Claimable(t: TaskTable, id: string, expected: Status) {
    id in t.rows && t.rows[id].status == StatusText(expected)
  }

  function ClaimedRow(row: TaskRow, next: Status, now: nat): TaskRow {
    var task := Load(row);
    row.(status := StatusText(next), updatedAt := Some(IsoOfInstant(now)),
         payload := task.(status := next, updatedAt := Some(now),
                          attempts := if next == Publishing then task.attempts + 1 else task.attempts))
  }

  /** `claim_task`: compare-and-swap on the status column. */
  function Claim(t: TaskTable, id: string, expected: Status, next: Status, now: nat): TaskTable {
    if Claimable(t, id, expected) then t.(rows := t.rows[id := ClaimedRow(t.rows[id], next, now)]) else t
  }

  // --------------------------------------------------- columns follow payload

  /** The columns say what the payload says. */
  ghost predicate Synced(id: string, row: TaskRow) {
    row.payload.id == id
    && row.tenant == row.payload.tenant
    && row.campaignId == row.payload.campaignId
    && row.status == StatusText(row.payload.status)
    && row.scheduledAt == IsoColumn(row.payload.scheduledAt)
    && row.payload.updatedAt.Some? && row.updatedAt == IsoColumn(row.payload.updatedAt)
  }

  ghost predicate Distinct(ids: seq<string>) {
    forall i, j | 0 <= i < j < |ids| :: ids[i] != ids[j]
  }

  ghost predicate WellKept(t: TaskTable) {
    (forall id | id in t.rows :: Synced(id, t.rows[id]))
    && (forall i | 0 <= i < |t.order| :: t.order[i] in t.rows)
    && (forall id | id in t.rows :: id in t.order)
    && Distinct(t.order)
  }

  lemma SaveKeeps(t: TaskTable, task: PublishTask, now: nat)
    requires WellKept(t)
    ensures WellKept(Save(t, task, now))
  {
    if SaveAllowed(t, task) {
      var u := Save(t, task, now);
      assert u.rows == t.rows[task.id := SavedRow(task, now)];
      SavedRowSynced(task, now);
      if task.id in t.rows {
        assert u.order == t.order && u.rows.Keys == t.rows.Keys;
      } else {
        OrderGrows(t, task.id);
        assert u.order == t.order + [task.id];
      }
    }
  }

  lemma SavedRowSynced(task: PublishTask, now: nat)
    ensures Synced(task.id, SavedRow(task, now))
  {
  }

  lemma OrderGrows(t: TaskTable, id: string)
    requires WellKept(t) && id !in t.rows
    ensures Distinct(t.order + [id]) && id in t.order + [id]
    ensures forall k | k in t.rows :: k in t.order + [id]
    ensures forall i | 0 <= i < |t.order| + 1 :: (t.order + [id])[i] in t.rows || (t.order + [id])[i] == id
  {
    var order := t.order + [id];
    assert order[|t.order|] == id;
    forall k | k in t.rows ensures k in order {
      var i :| 0 <= i < |t.order| && t.order[i] == k;
      assert order[i] == k;
    }
  }

  /** A save moves no row to another tenant and touches no row but its own; nor does a claim. */
  lemma SaveStays(t: TaskTable, task: PublishTask, now: nat)
    ensures forall k | k in t.rows :: k in Save(t, task, now).rows && Save(t, task, now).rows[k].tenant == t.rows[k].tenant
    ensures forall k | k in t.rows && k != task.id :: Save(t, task, now).rows[k] == t.rows[k]
  {
  }

  lemma ClaimStays(t: TaskTable, id: string, expected: Status, next: Status, now: nat)
    ensures Claim(t, id, expected, next, now).rows.Keys == t.rows.Keys
    ensures forall k | k in t.rows :: Claim(t, id, expected, next, now).rows[k].tenant == t.rows[k].tenant
    ensures forall k | k in t.rows && k != id :: Claim(t, id, expected, next, now).rows[k] == t.rows[k]
  {
  }

  lemma ClaimKeeps(t: TaskTable, id: string, expected: Status, next: Status, now: nat)
    requires WellKept(t)
    ensures WellKept(Claim(t, id, expected, next, now))
  {
  }

  /** What the two writes leave of the row: a save all the task says, under its own workspace, dated now;
      a claim all that was there but status, attempts and date, one attempt more when publishing starts. */
  lemma WhatIsWritten(t: TaskTable, task: PublishTask, now: nat, id: string, expected: Status, next: Status)
    ensures var n := Save(t, task, now);
            if task.id in t.rows && t.rows[task.id].tenant != task.tenant then n == t
            else task.id in n.rows && Load(n.rows[task.id]) == task.(updatedAt := Some(now))
                 && n.order == if task.id in t.rows then t.order else t.order + [task.id]
    ensures var n := Claim(t, id, expected, next, now);
            && n.order == t.order
            && (Claimable(t, id, expected) ==> (
                  id in n.rows
                  && var was, task := Load(t.rows[id]), Load(n.rows[id]);
                     && task == was.(status := next, attempts := task.attempts, updatedAt := Some(now))
                     && task.attempts == was.attempts + (if next == Publishing then 1 else 0)))
            && (!Claimable(t, id, expected) ==> n == t)
  {
  }

  // ----------------------------------------------------------- what is listed

  /** The WHERE clause of `list_due_tasks`, over the columns. */
  predicate DueByColumns(row: TaskRow, now: nat) {
    row.status == "scheduled" && row.scheduledAt.Some? && TextAtMost(row.scheduledAt.value, IsoOfInstant(now))
  }

  /** What the caller means by a due task. */
  predicate DueByModel(task: PublishTask, now: nat) {
    task.status == Scheduled && task.scheduledAt.Some? && task.scheduledAt.value <= now
  }

  /** Some of the due tasks. */
  function DueAmong(t: TaskTable, batch: set<string>, now: nat): set<string> {
    set id | id in batch && id in t.rows && DueByModel(t.rows[id].payload, now)
  }

  /** A possible answer of the query: ORDER BY scheduled_at LIMIT `limit`, ties in any order. */
  ghost predicate AnswersByColumns(rows: map<string, TaskRow>, now: nat, limit: nat, ids: seq<string>) {
    Distinct(ids) && |ids| <= limit
    && (forall i | 0 <= i < |ids| :: ids[i] in rows && DueByColumns(rows[ids[i]], now))
    && (forall i, j | 0 <= i < j < |ids| :: TextAtMost(rows[ids[i]].scheduledAt.value, rows[ids[j]].scheduledAt.value))
    && (forall id | id in rows && DueByColumns(rows[id], now) && id !in ids ::
          |ids| == limit && forall i | 0 <= i < |ids| :: TextAtMost(rows[ids[i]].scheduledAt.value, rows[id].scheduledAt.value))
  }

  /** The first `limit` due tasks in order of due time. */
  ghost predicate FirstDue(rows: map<string, TaskRow>, now: nat, limit: nat, ids: seq<string>) {
    Distinct(ids) && |ids| <= limit
    && (forall i | 0 <= i < |ids| :: ids[i] in rows && DueByModel(rows[ids[i]].payload, now))
    && (forall i, j | 0 <= i < j < |ids| :: rows[ids[i]].payload.scheduledAt.value <= rows[ids[j]].payload.scheduledAt.value)
    && (forall id | id in rows && DueByModel(rows[id].payload, now) && id !in ids ::
          |ids| == limit && forall i | 0 <= i < |ids| :: rows[ids[i]].payload.scheduledAt.value <= rows[id].payload.scheduledAt.value)
  }

  ghost predicate SortableRow(row: TaskRow) {
    row.payload.scheduledAt.Some? ==> Sortable(row.payload.scheduledAt.value)
  }

  lemma DueSame(id: string, row: TaskRow, now: nat)
    requires Synced(id, row) && SortableRow(row) && Sortable(now)
    ensures DueByColumns(row, now) <==> DueByModel(row.payload, now)
  {
    StatusTextInjective(row.payload.status, Scheduled);
    if row.payload.scheduledAt.Some? {
      IsoOrder(row.payload.scheduledAt.value, now);
    }
  }

  lemma DueOrderSame(a: string, r: TaskRow, b: string, s: TaskRow)
    requires Synced(a, r) && Synced(b, s) && SortableRow(r) && SortableRow(s)
    requires r.payload.scheduledAt.Some? && s.payload.scheduledAt.Some?
    ensures TextAtMost(r.scheduledAt.value, s.scheduledAt.value) <==> r.payload.scheduledAt.value <= s.payload.scheduledAt.value
  {
    IsoOrder(r.payload.scheduledAt.value, s.payload.scheduledAt.value);
  }

  /** The query over the columns answers the question about the tasks, on every kept table. */
  lemma ListingIsExact(t: TaskTable, now: nat, limit: nat, ids: seq<string>)
    requires WellKept(t) && Sortable(now) && forall id | id in t.rows :: SortableRow(t.rows[id])
    ensures AnswersByColumns(t.rows, now, limit, ids) <==> FirstDue(t.rows, now, limit, ids)
  {
    forall id | id in t.rows ensures DueByColumns(t.rows[id], now) <==> DueByModel(t.rows[id].payload, now) {
      DueSame(id, t.rows[id], now);
    }
    forall a, b | a in t.rows && b in t.rows && t.rows[a].payload.scheduledAt.Some? && t.rows[b].payload.scheduledAt.Some?
      ensures TextAtMost(t.rows[a].scheduledAt.value, t.rows[b].scheduledAt.value) <==>
              t.rows[a].payload.scheduledAt.value <= t.rows[b].payload.scheduledAt.value
    {
      DueOrderSame(a, t.rows[a], b, t.rows[b]);
    }
  }

  /** The WHERE clause of `list_recoverable_tasks`. */
  predicate StaleByColumns(row: TaskRow, before: nat) {
    row.status == "publishing" && (row.updatedAt.None? || TextBefore(row.updatedAt.value, IsoOfInstant(before)))
  }

  /** Over the columns it finds the tasks that are publishing and were last saved before then, or never. */
  lemma StaleIsExact(row: TaskRow, before: nat)
    requires row.status == StatusText(row.payload.status) && row.updatedAt == IsoColumn(row.payload.updatedAt) && Sortable(before)
    requires row.payload.updatedAt.Some? ==> Sortable(row.payload.updatedAt.value)
    ensures StaleByColumns(row, before) <==>
            row.payload.status == Publishing && (row.payload.updatedAt.Some? ==> row.payload.updatedAt.value < before)
  {
    StatusTextInjective(row.payload.status, Publishing);
    if row.payload.updatedAt.Some? {
      IsoOrder(row.payload.updatedAt.value, before);
    }
  }
}
