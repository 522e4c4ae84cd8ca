/**
 Workspaces share one task table (db/sqlite_store.py). A workspace sees what it would see alone, as
 long as no other workspace uses its ids.
 */
module Tenancy {
  import opened Wrappers
  import opened Tasks

  datatype Op =
    | SaveOp(task: PublishTask, now: nat)
    | ClaimOp(id: string, expected: Status, next: Status, now: nat)

  function Next(t: TaskTable, op: Op): TaskTable {
    match op
    case SaveOp(task, now) => Save(t, task, now)
    case ClaimOp(id, expected, next, now) => Claim(t, id, expected, next, now)
  }

  function Run(t: TaskTable, ops: seq<Op>): TaskTable
    decreases |ops|
  {
    if ops == [] then t else Run(Next(t, ops[0]), ops[1..])
  }

  /** `get_task`. */
  function Get(t: TaskTable, id: string, tenant: string): Option<PublishTask> {
    if id in t.rows && t.rows[id].tenant == tenant then Some(Load(t.rows[id])) else None
  }

  predicate Shown(rows: map<string, TaskRow>, id: string, tenant: string, status: string) {
    id in rows && rows[id].tenant == tenant && (status == "" || rows[id].status == status)
  }

  function ListFrom(rows: map<string, TaskRow>, order: seq<string>, tenant: string, status: string): seq<PublishTask> {
    if order == [] then [] else
    var id, older := order[|order| - 1], ListFrom(rows, order[..|order| - 1], tenant, status);
    if Shown(rows, id, tenant, status) then [Load(rows[id])] + older else older
  }

  /** `list_tasks`, newest row first; an empty status lists all. */
  function ListTasks(t: TaskTable, tenant: string, status: string): seq<PublishTask> {
    ListFrom(t.rows, t.order, tenant, status)
  }

  /** No run of saves and claims moves a row to another workspace or removes one. */
  lemma {:induction false} TenantsNeverChange(t: TaskTable, ops: seq<Op>)
    ensures forall id | id in t.rows :: id in Run(t, ops).rows && Run(t, ops).rows[id].tenant == t.rows[id].tenant
    decreases |ops|
  {
    hide Save, Claim;
    if ops != [] {
      match ops[0] {
        case SaveOp(task, now) => SaveStays(t, task, now);
        case ClaimOp(id, expected, next, now) => ClaimStays(t, id, expected, next, now);
      }
      TenantsNeverChange(Next(t, ops[0]), ops[1..]);
    }
  }

  // --------------------------------------------------------- noninterference

  function IdOf(op: Op): string {
    if op.SaveOp? then op.task.id else op.id
  }

  /** Whose an operation is. */
  function OwnerOf(op: Op, owner: string -> string): string {
    owner(IdOf(op))
  }

  /** The operations without those on the ids of others. */
  function Only(ops: seq<Op>, tenant: string, owner: string -> string): seq<Op>
    decreases |ops|
  {
    if ops == [] then []
    else if OwnerOf(ops[0], owner) == tenant then [ops[0]] + Only(ops[1..], tenant, owner)
    else Only(ops[1..], tenant, owner)
  }

  /** Nobody saves under an id of somebody else. */
  ghost predicate Unshared(ops: seq<Op>, owner: string -> string) {
    forall i | 0 <= i < |ops| && ops[i].SaveOp? :: ops[i].task.tenant == owner(ops[i].task.id)
  }

  ghost predicate Owned(t: TaskTable, owner: string -> string) {
    forall id | id in t.rows :: t.rows[id].tenant == owner(id)
  }

  function Mine(order: seq<string>, tenant: string, owner: string -> string): seq<string> {
    if order == [] then [] else
    var older, id := Mine(order[..|order| - 1], tenant, owner), order[|order| - 1];
    if owner(id) == tenant then older + [id] else older
  }

  /** Two tables that hold the same for `tenant`. */
  ghost predicate SameFor(t: TaskTable, u: TaskTable, tenant: string, owner: string -> string) {
    Mine(t.order, tenant, owner) == Mine(u.order, tenant, owner)
    && forall id | owner(id) == tenant :: (id in t.rows <==> id in u.rows) && (id in t.rows ==> t.rows[id] == u.rows[id])
  }

  lemma MineGrows(order: seq<string>, id: string, tenant: string, owner: string -> string)
    ensures Mine(order + [id], tenant, owner) == Mine(order, tenant, owner) + (if owner(id) == tenant then [id] else [])
  {
    assert (order + [id])[..|order|] == order;
  }

  /** What a step does to the table: one row, at most, set; and its id appended when it was new. */
  ghost predicate Sets(t: TaskTable, n: TaskTable, id: string) {
    n == t
    || (id in n.rows && n.rows == t.rows[id := n.rows[id]] && (id in t.rows ==> n.rows[id].tenant == t.rows[id].tenant)
        && n.order == if id in t.rows then t.order else t.order + [id])
  }

  lemma StepSets(t: TaskTable, op: Op)
    ensures Sets(t, Next(t, op), IdOf(op))
    ensures op.SaveOp? && IdOf(op) !in t.rows ==> IdOf(op) in Next(t, op).rows && Next(t, op).rows[IdOf(op)].tenant == op.task.tenant
    ensures op.ClaimOp? && IdOf(op) !in t.rows ==> Next(t, op) == t
  {
  }

  /** What a step does to a row depends on that row alone. */
  lemma StepSame(t: TaskTable, u: TaskTable, op: Op)
    requires IdOf(op) in t.rows <==> IdOf(op) in u.rows
    requires IdOf(op) in t.rows ==> t.rows[IdOf(op)] == u.rows[IdOf(op)]
    ensures IdOf(op) in Next(t, op).rows <==> IdOf(op) in Next(u, op).rows
    ensures IdOf(op) in Next(t, op).rows ==> Next(t, op).rows[IdOf(op)] == Next(u, op).rows[IdOf(op)]
  {
  }

  lemma StepOwned(t: TaskTable, op: Op, owner: string -> string)
    requires Owned(t, owner) && Unshared([op], owner)
    ensures Owned(Next(t, op), owner)
  {
    hide Next;
    StepSets(t, op);
    assert op.SaveOp? ==> [op][0].task.tenant == owner(op.task.id);
  }

  /** A step on an id of somebody else. */
  lemma StepOfOther(t: TaskTable, n: TaskTable, u: TaskTable, id: string, tenant: string, owner: string -> string)
    requires SameFor(t, u, tenant, owner) && Sets(t, n, id) && owner(id) != tenant
    ensures SameFor(n, u, tenant, owner)
  {
    MineGrows(t.order, id, tenant, owner);
  }

  lemma SameMeans(t: TaskTable, u: TaskTable, tenant: string, owner: string -> string, id: string)
    requires SameFor(t, u, tenant, owner) && owner(id) == tenant
    ensures (id in t.rows <==> id in u.rows) && (id in t.rows ==> t.rows[id] == u.rows[id])
  {
  }

  /** The same step on both sides. */
  lemma StepOfOwn(t: TaskTable, n: TaskTable, u: TaskTable, m: TaskTable, id: string, tenant: string, owner: string -> string)
    requires SameFor(t, u, tenant, owner) && Sets(t, n, id) && Sets(u, m, id) && owner(id) == tenant
    requires id in n.rows <==> id in m.rows
    requires id in n.rows ==> n.rows[id] == m.rows[id]
    ensures SameFor(n, m, tenant, owner)
  {
    hide Mine;
    SameMeans(t, u, tenant, owner, id);
    OrderGrows(t, n, id, tenant, owner);
    OrderGrows(u, m, id, tenant, owner);
    forall k | owner(k) == tenant ensures (k in n.rows <==> k in m.rows) && (k in n.rows ==> n.rows[k] == m.rows[k]) {
      SameMeans(t, u, tenant, owner, k);
      if k != id {
        SetsOne(t, n, id, k);
        SetsOne(u, m, id, k);
      }
    }
  }

  lemma OrderGrows(t: TaskTable, n: TaskTable, id: string, tenant: string, owner: string -> string)
    requires Sets(t, n, id) && owner(id) == tenant
    ensures Mine(n.order, tenant, owner) ==
            if id in t.rows || id !in n.rows then Mine(t.order, tenant, owner) else Mine(t.order, tenant, owner) + [id]
  {
    MineGrows(t.order, id, tenant, owner);
  }

  lemma SetsOne(t: TaskTable, n: TaskTable, id: string, k: string)
    requires Sets(t, n, id) && k != id
    ensures (k in n.rows <==> k in t.rows) && (k in n.rows ==> n.rows[k] == t.rows[k])
  {
  }

  lemma {:induction false} RunsAgree(t: TaskTable, u: TaskTable, ops: seq<Op>, tenant: string, owner: string -> string)
    requires SameFor(t, u, tenant, owner) && Owned(t, owner) && Owned(u, owner) && Unshared(ops, owner)
    ensures SameFor(Run(t, ops), Run(u, Only(ops, tenant, owner)), tenant, owner)
    ensures Owned(Run(t, ops), owner) && Owned(Run(u, Only(ops, tenant, owner)), owner)
    decreases |ops|
  {
    hide SameFor, Owned, Next, Sets;
    if ops != [] {
      var op, rest := ops[0], ops[1..];
      assert Unshared([op], owner) && Unshared(rest, owner);
      StepOwned(t, op, owner);
      StepSets(t, op);
      if OwnerOf(op, owner) == tenant {
        StepOwned(u, op, owner);
        StepSets(u, op);
        SameMeans(t, u, tenant, owner, IdOf(op));
        StepSame(t, u, op);
        StepOfOwn(t, Next(t, op), u, Next(u, op), IdOf(op), tenant, owner);
        RunsAgree(Next(t, op), Next(u, op), rest, tenant, owner);
        assert ([op] + Only(rest, tenant, owner))[1..] == Only(rest, tenant, owner);
      } else {
        StepOfOther(t, Next(t, op), u, IdOf(op), tenant, owner);
        RunsAgree(Next(t, op), u, rest, tenant, owner);
      }
    }
  }

  lemma {:induction false} ListsMine(rows: map<string, TaskRow>, order: seq<string>, tenant: string, status: string, owner: string -> string)
    requires forall id | id in rows :: rows[id].tenant == owner(id)
    ensures ListFrom(rows, order, tenant, status) == ListFrom(rows, Mine(order, tenant, owner), tenant, status)
  {
    if order != [] {
      var older, id := order[..|order| - 1], order[|order| - 1];
      ListsMine(rows, older, tenant, status, owner);
      var mine := Mine(older, tenant, owner);
      if owner(id) == tenant {
        assert (mine + [id])[..|mine|] == mine;
      }
    }
  }

  lemma {:induction false} ListsSame(rows: map<string, TaskRow>, others: map<string, TaskRow>, order: seq<string>, tenant: string, status: string)
    requires forall id | id in order :: (id in rows <==> id in others) && (id in rows ==> rows[id] == others[id])
    ensures ListFrom(rows, order, tenant, status) == ListFrom(others, order, tenant, status)
  {
    if order != [] {
      assert order[|order| - 1] in order;
      ListsSame(rows, others, order[..|order| - 1], tenant, status);
    }
  }

  lemma {:induction false} MineAreMine(order: seq<string>, tenant: string, owner: string -> string)
    ensures forall id | id in Mine(order, tenant, owner) :: owner(id) == tenant
  {
    if order != [] {
      MineAreMine(order[..|order| - 1], tenant, owner);
    }
  }

  /** With ids not shared, what a workspace gets and lists is what it would if nobody else had ever
      saved or claimed anything. */
  lemma SeesItsOwnOnly(t: TaskTable, ops: seq<Op>, tenant: string, id: string, status: string, owner: string -> string)
    requires Owned(t, owner) && Unshared(ops, owner)
    ensures var all, alone := Run(t, ops), Run(t, Only(ops, tenant, owner));
            && Get(all, id, tenant) == Get(alone, id, tenant)
            && ListTasks(all, tenant, status) == ListTasks(alone, tenant, status)
  {
    RunsAgree(t, t, ops, tenant, owner);
    var all, alone := Run(t, ops), Run(t, Only(ops, tenant, owner));
    ListsMine(all.rows, all.order, tenant, status, owner);
    ListsMine(alone.rows, alone.order, tenant, status, owner);
    MineAreMine(all.order, tenant, owner);
    ListsSame(all.rows, alone.rows, Mine(all.order, tenant, owner), tenant, status);
  }

  /** A task that is saved is got by its workspace and by no other. */
  lemma SavedIsGot(t: TaskTable, task: PublishTask, now: nat, other: string)
    requires task.id in t.rows ==> t.rows[task.id].tenant == task.tenant
    ensures Get(Save(t, task, now), task.id, task.tenant) == Some(task.(updatedAt := Some(now)))
    ensures other != task.tenant ==> Get(Save(t, task, now), task.id, other) == None
  {
  }

  lemma {:induction false} ListUnchanged(rows: map<string, TaskRow>, id: string, row: TaskRow, order: seq<string>, tenant: string, status: string)
    requires id !in order
    ensures ListFrom(rows[id := row], order, tenant, status) == ListFrom(rows, order, tenant, status)
  {
    if order != [] {
      assert order[|order| - 1] in order && forall k | k in order[..|order| - 1] :: k in order;
      ListUnchanged(rows, id, row, order[..|order| - 1], tenant, status);
    }
  }

  lemma NotInOrder(t: TaskTable, id: string)
    requires WellKept(t) && id !in t.rows
    ensures id !in t.order
  {
  }

  /** A new task comes first in the lists of its workspace, and into no other list. */
  lemma NewIsListedFirst(t: TaskTable, task: PublishTask, now: nat, tenant: string, status: string)
    requires WellKept(t) && task.id !in t.rows
    ensures ListTasks(Save(t, task, now), tenant, status) ==
            (if tenant == task.tenant && (status == "" || status == StatusText(task.status)) then [task.(updatedAt := Some(now))] else [])
            + ListTasks(t, tenant, status)
  {
    hide WellKept, StatusText, IsoColumn;
    var n := Save(t, task, now);
    assert task.id !in t.order by {
      NotInOrder(t, task.id);
    }
    ListUnchanged(t.rows, task.id, SavedRow(task, now), t.order, tenant, status);
    assert n.order[..|t.order|] == t.order && n.order[|t.order|] == task.id;
  }

  /** A list shows a workspace its own tasks only. */
  lemma {:induction false} ListsOwnTenant(rows: map<string, TaskRow>, order: seq<string>, tenant: string, status: string)
    ensures forall task | task in ListFrom(rows, order, tenant, status) :: task.tenant == tenant
    ensures forall id | id in order && Shown(rows, id, tenant, status) :: Load(rows[id]) in ListFrom(rows, order, tenant, status)
  {
    if order != [] {
      ListsOwnTenant(rows, order[..|order| - 1], tenant, status);
    }
  }
}
