/**
 Requests that issue and consume codes, interleaved at every store call: `consume_code` reads the
 row, judges its guess by what it read, and then settles with the store. A request that never goes on
 stays in flight.
 */
module CodeProtocol {
  import opened Wrappers
  import opened Counting
  import opened Codes

  datatype Stage =
    | Holding   // row read
    | Late      // found expired
    | Wrong     // compared, no match
    | Right     // compared, match

  datatype Request = Request(key: Key, row: CodeRow, code: string, epoch: nat, stage: Stage)

  /** `saved` counts the codes saved for a key, `compared` the guesses compared with the latest of
      them, `accepted` the successes over all of them. A request's `epoch` names the code it read. */
  datatype Desk = Desk(rows: Table, busy: map<nat, Request>, saved: map<Key, nat>, compared: map<Key, nat>, accepted: map<Key, nat>)

  datatype Event =
    | Save(key: Key, hash: string, expires: nat, now: nat)
    | Drop(key: Key, hash: string)                 // a mail was not delivered
    | Read(request: nat, key: Key, code: string)
    | Judge(request: nat, now: nat)
    | Settle(request: nat)

  /** At most `crowd` requests that read the same code are in flight at once; for other codes and other
      addresses there may be any number. */
  datatype Rules = Rules(hash: Hash, max: nat, crowd: nat)

  /** Is the guess compared at all? */
  predicate Compares(b: Request, now: nat, r: Rules) {
    now < b.row.expires && b.row.attempts < r.max
  }

  /** What the request does next; None when it is turned away because of too many attempts. */
  function Judgement(b: Request, now: nat, r: Rules): Option<Stage> {
    if Compares(b, now, r) then Some(if b.row.hash == r.hash(b.key, b.code) then Right else Wrong)
    else if b.row.expires <= now then Some(Late)
    else None
  }

  /** The requests in flight that read the code now in force. */
  function Readers(busy: map<nat, Request>, saves: nat, key: Key): set<nat> {
    set q | q in busy && busy[q].key == key && busy[q].epoch == saves
  }

  function Next(s: Desk, e: Event, r: Rules): Desk {
    match e
    case Save(key, hash, expires, now) =>
      s.(rows := Saved(s.rows, key, hash, expires, now), saved := Bump(s.saved, key), compared := s.compared[key := 0])
    case Drop(key, hash) => s.(rows := Deleted(s.rows, key, hash))
    case Read(q, key, code) =>
      if q in s.busy || code == "" || key !in s.rows || |Readers(s.busy, Count(s.saved, key), key)| >= r.crowd then s
      else s.(busy := s.busy[q := Request(key, s.rows[key], code, Count(s.saved, key), Holding)])
    case Judge(q, now) =>
      if q !in s.busy || s.busy[q].stage != Holding then s
      else
        var b := s.busy[q];
        var judged := Judgement(b, now, r);
        s.(busy := if judged.Some? then s.busy[q := b.(stage := judged.value)] else s.busy - {q},
           compared := if Compares(b, now, r) && b.epoch == Count(s.saved, b.key) then Bump(s.compared, b.key) else s.compared)
    case Settle(q) =>
      if q !in s.busy || s.busy[q].stage == Holding then s
      else
        var b := s.busy[q];
        if b.stage == Wrong then s.(rows := Failed(s.rows, b.key), busy := s.busy - {q})
        else
          s.(rows := Deleted(s.rows, b.key, b.row.hash), busy := s.busy - {q},
             accepted := if b.stage == Right && Deletes(s.rows, b.key, b.row.hash) then Bump(s.accepted, b.key) else s.accepted)
  }

  function Run(s: Desk, events: seq<Event>, r: Rules): Desk
    decreases |events|
  {
    if events == [] then s else Run(Next(s, events[0], r), events[1..], r)
  }

  const EMPTY_DESK := Desk(map[], map[], map[], map[], map[])

  // ------------------------------------------------------------ the invariant

  predicate Counts(b: Request, saves: nat, key: Key, max: nat) {
    b.key == key && b.epoch == saves && b.row.attempts < max
  }

  /** Those of them that may compare, or have compared, a guess with it. */
  ghost function Live(busy: map<nat, Request>, saves: nat, key: Key, max: nat): set<nat> {
    set q | q in busy && Counts(busy[q], saves, key, max)
  }

  ghost function Waiting(busy: map<nat, Request>, saves: nat, key: Key, max: nat): set<nat> {
    set q | q in busy && Counts(busy[q], saves, key, max) && busy[q].stage == Holding
  }

  /** `compared` guesses so far, and room for those that wait to compare. */
  ghost predicate Bounded(compared: nat, busy: map<nat, Request>, saves: nat, row: Option<CodeRow>, key: Key, r: Rules) {
    compared + |Waiting(busy, saves, key, r.max)| <= r.max - 1 + r.crowd
    && (row.Some? ==> compared + |Waiting(busy, saves, key, r.max)| <= row.value.attempts + |Live(busy, saves, key, r.max)|)
  }

  function RowOf(t: Table, key: Key): Option<CodeRow> {
    if key in t then Some(t[key]) else None
  }

  ghost predicate GuessesOk(s: Desk, key: Key, r: Rules) {
    Bounded(Count(s.compared, key), s.busy, Count(s.saved, key), RowOf(s.rows, key), key, r)
  }

  ghost predicate RequestOk(b: Request, rows: Table, saves: nat, max: nat) {
    b.epoch <= saves
    && (b.epoch == saves && b.key in rows ==> rows[b.key].hash == b.row.hash)
    && (b.stage == Wrong || b.stage == Right ==> b.row.attempts < max)
  }

  ghost predicate RequestsOk(s: Desk, r: Rules) {
    forall q | q in s.busy :: RequestOk(s.busy[q], s.rows, Count(s.saved, s.busy[q].key), r.max)
  }

  ghost predicate AcceptedOk(s: Desk) {
    forall key :: Count(s.accepted, key) + (if key in s.rows then 1 else 0) <= Count(s.saved, key)
  }

  ghost predicate Inv(s: Desk, r: Rules) {
    RequestsOk(s, r) && AcceptedOk(s) && forall key :: GuessesOk(s, key, r)
  }

  lemma LiveAreReaders(busy: map<nat, Request>, saves: nat, key: Key, max: nat)
    ensures |Waiting(busy, saves, key, max)| <= |Live(busy, saves, key, max)| <= |Readers(busy, saves, key)|
  {
    SubsetSize(Waiting(busy, saves, key, max), Live(busy, saves, key, max));
    SubsetSize(Live(busy, saves, key, max), Readers(busy, saves, key));
  }

  // ---------------------------------------------------- requests come and go

  /** A request that reads is counted with the code it read. */
  lemma Joins(busy: map<nat, Request>, q: nat, b: Request, compared: nat, saves: nat, row: Option<CodeRow>, key: Key, r: Rules)
    requires Bounded(compared, busy, saves, row, key, r) && q !in busy && b.stage == Holding
    requires b.key == key ==> row == Some(b.row) && b.epoch == saves && |Readers(busy, saves, key)| < r.crowd
    ensures Bounded(compared, busy[q := b], saves, row, key, r)
  {
    var n := busy[q := b];
    LiveAreReaders(busy, saves, key, r.max);
    if Counts(b, saves, key, r.max) {
      assert Live(n, saves, key, r.max) == Live(busy, saves, key, r.max) + {q};
      assert Waiting(n, saves, key, r.max) == Waiting(busy, saves, key, r.max) + {q};
    } else {
      assert Live(n, saves, key, r.max) == Live(busy, saves, key, r.max);
      assert Waiting(n, saves, key, r.max) == Waiting(busy, saves, key, r.max);
    }
  }

  /** A request that has judged still counts, but waits no more: that makes room for its comparison. */
  lemma Judges(busy: map<nat, Request>, q: nat, stage: Stage, compared: nat, saves: nat, row: Option<CodeRow>, key: Key, r: Rules)
    requires Bounded(compared, busy, saves, row, key, r) && q in busy && busy[q].stage == Holding && stage != Holding
    ensures Bounded(if Counts(busy[q], saves, key, r.max) then compared + 1 else compared,
                    busy[q := busy[q].(stage := stage)], saves, row, key, r)
    ensures Bounded(compared, busy[q := busy[q].(stage := stage)], saves, row, key, r)
  {
    var n := busy[q := busy[q].(stage := stage)];
    assert Live(n, saves, key, r.max) == Live(busy, saves, key, r.max);
    assert Waiting(n, saves, key, r.max) == Waiting(busy, saves, key, r.max) - {q};
  }

  lemma TurnedAway(busy: map<nat, Request>, q: nat, compared: nat, saves: nat, row: Option<CodeRow>, key: Key, r: Rules)
    requires Bounded(compared, busy, saves, row, key, r) && q in busy && busy[q].row.attempts >= r.max
    ensures Bounded(compared, busy - {q}, saves, row, key, r)
  {
    assert Live(busy - {q}, saves, key, r.max) == Live(busy, saves, key, r.max);
    assert Waiting(busy - {q}, saves, key, r.max) == Waiting(busy, saves, key, r.max);
  }

  /** A request that settles leaves a failure on the row, or no row, or it did not count. */
  lemma Leaves(busy: map<nat, Request>, q: nat, compared: nat, saves: nat, row: Option<CodeRow>, after: Option<CodeRow>, key: Key, r: Rules)
    requires Bounded(compared, busy, saves, row, key, r) && q in busy && busy[q].stage != Holding
    requires after.Some? ==> row.Some? && row.value.attempts + (if Counts(busy[q], saves, key, r.max) then 1 else 0) <= after.value.attempts
    ensures Bounded(compared, busy - {q}, saves, after, key, r)
  {
    assert Live(busy - {q}, saves, key, r.max) == Live(busy, saves, key, r.max) - {q};
    assert Waiting(busy - {q}, saves, key, r.max) == Waiting(busy, saves, key, r.max);
  }

  /** Nobody has read a code that was saved just now. */
  lemma NewCode(busy: map<nat, Request>, saves: nat, row: Option<CodeRow>, key: Key, r: Rules)
    requires 1 <= r.max && forall q | q in busy && busy[q].key == key :: busy[q].epoch < saves
    ensures Bounded(0, busy, saves, row, key, r)
  {
    assert Live(busy, saves, key, r.max) == {} && Waiting(busy, saves, key, r.max) == {};
  }

  // --------------------------------------------------------------- the events

  lemma SaveKeeps(s: Desk, key: Key, hash: string, expires: nat, now: nat, r: Rules)
    requires Inv(s, r) && 1 <= r.max
    ensures Inv(Next(s, Save(key, hash, expires, now), r), r)
  {
    hide Bounded, RequestsOk, AcceptedOk;
    SaveRequests(s, key, hash, expires, now, r);
    forall k ensures GuessesOk(Next(s, Save(key, hash, expires, now), r), k, r) {
      assert GuessesOk(s, k, r);
      SaveCounts(s, key, hash, expires, now, k, r);
    }
  }

  lemma SaveRequests(s: Desk, key: Key, hash: string, expires: nat, now: nat, r: Rules)
    requires RequestsOk(s, r) && AcceptedOk(s)
    ensures var n := Next(s, Save(key, hash, expires, now), r);
            RequestsOk(n, r) && AcceptedOk(n)
  {
    assert forall q | q in s.busy :: RequestOk(s.busy[q], s.rows, Count(s.saved, s.busy[q].key), r.max);
  }

  lemma SaveCounts(s: Desk, key: Key, hash: string, expires: nat, now: nat, k: Key, r: Rules)
    requires RequestsOk(s, r) && GuessesOk(s, k, r) && 1 <= r.max
    ensures GuessesOk(Next(s, Save(key, hash, expires, now), r), k, r)
  {
    hide Bounded;
    var n := Next(s, Save(key, hash, expires, now), r);
    if k == key {
      assert forall q | q in s.busy :: RequestOk(s.busy[q], s.rows, Count(s.saved, s.busy[q].key), r.max);
      NewCode(n.busy, Count(n.saved, k), RowOf(n.rows, k), k, r);
    } else {
      RowGone(s.busy, Count(s.compared, k), Count(s.saved, k), RowOf(s.rows, k), k, r);
    }
  }

  lemma RowGone(busy: map<nat, Request>, compared: nat, saves: nat, row: Option<CodeRow>, key: Key, r: Rules)
    requires Bounded(compared, busy, saves, row, key, r)
    ensures Bounded(compared, busy, saves, None, key, r)
  {
  }

  lemma DropKeeps(s: Desk, key: Key, hash: string, r: Rules)
    requires Inv(s, r)
    ensures Inv(Next(s, Drop(key, hash), r), r)
  {
    hide Bounded;
    var n := Next(s, Drop(key, hash), r);
    assert forall q | q in s.busy :: RequestOk(s.busy[q], s.rows, Count(s.saved, s.busy[q].key), r.max);
    forall k ensures GuessesOk(n, k, r) {
      assert GuessesOk(s, k, r);
      RowGone(s.busy, Count(s.compared, k), Count(s.saved, k), RowOf(s.rows, k), k, r);
    }
  }

  lemma ReadKeeps(s: Desk, q: nat, key: Key, code: string, r: Rules)
    requires Inv(s, r)
    ensures Inv(Next(s, Read(q, key, code), r), r)
  {
    hide Bounded;
    var n := Next(s, Read(q, key, code), r);
    if n != s {
      assert forall p | p in s.busy :: RequestOk(s.busy[p], s.rows, Count(s.saved, s.busy[p].key), r.max);
      forall k ensures GuessesOk(n, k, r) {
        assert GuessesOk(s, k, r);
        Joins(s.busy, q, n.busy[q], Count(s.compared, k), Count(s.saved, k), RowOf(s.rows, k), k, r);
      }
    }
  }

  lemma JudgeKeeps(s: Desk, q: nat, now: nat, r: Rules)
    requires Inv(s, r)
    ensures Inv(Next(s, Judge(q, now), r), r)
  {
    hide Bounded, RequestOk, Judgement, Compares;
    if q in s.busy && s.busy[q].stage == Holding {
      var b := s.busy[q];
      assert RequestOk(b, s.rows, Count(s.saved, b.key), r.max);
      JudgedOk(b, now, s.rows, Count(s.saved, b.key), r);
      forall k ensures GuessesOk(Next(s, Judge(q, now), r), k, r) {
        assert GuessesOk(s, k, r);
        JudgeCounts(s, q, now, k, r);
      }
    }
  }

  lemma JudgedOk(b: Request, now: nat, rows: Table, saves: nat, r: Rules)
    requires RequestOk(b, rows, saves, r.max)
    ensures Judgement(b, now, r).Some? ==> RequestOk(b.(stage := Judgement(b, now, r).value), rows, saves, r.max)
  {
  }

  lemma JudgeCounts(s: Desk, q: nat, now: nat, k: Key, r: Rules)
    requires GuessesOk(s, k, r) && q in s.busy && s.busy[q].stage == Holding
    ensures GuessesOk(Next(s, Judge(q, now), r), k, r)
  {
    hide Bounded;
    var b, compared, saves, row := s.busy[q], Count(s.compared, k), Count(s.saved, k), RowOf(s.rows, k);
    var judged := Judgement(b, now, r);
    if judged.Some? {
      Judges(s.busy, q, judged.value, compared, saves, row, k, r);
    } else {
      TurnedAway(s.busy, q, compared, saves, row, k, r);
    }
  }

  lemma SettleKeeps(s: Desk, q: nat, r: Rules)
    requires Inv(s, r)
    ensures Inv(Next(s, Settle(q), r), r)
  {
    hide Bounded, RequestsOk, AcceptedOk;
    SettleRequests(s, q, r);
    SettleAccepted(s, q, r);
    forall k ensures GuessesOk(Next(s, Settle(q), r), k, r) {
      assert GuessesOk(s, k, r);
      SettleCounts(s, q, k, r);
    }
  }

  lemma SettleAccepted(s: Desk, q: nat, r: Rules)
    requires AcceptedOk(s)
    ensures AcceptedOk(Next(s, Settle(q), r))
  {
  }

  lemma SettleRequests(s: Desk, q: nat, r: Rules)
    requires RequestsOk(s, r)
    ensures RequestsOk(Next(s, Settle(q), r), r)
  {
    hide RequestOk;
    var n := Next(s, Settle(q), r);
    SettleRows(s, q, r);
    forall p | p in n.busy ensures RequestOk(n.busy[p], n.rows, Count(n.saved, n.busy[p].key), r.max) {
      SameHashes(s.busy[p], s.rows, n.rows, Count(s.saved, s.busy[p].key), r.max);
    }
  }

  lemma SettleRows(s: Desk, q: nat, r: Rules)
    ensures var n := Next(s, Settle(q), r);
            forall k | k in n.rows :: k in s.rows && n.rows[k].hash == s.rows[k].hash
  {
  }

  lemma SameHashes(b: Request, rows: Table, after: Table, saves: nat, max: nat)
    requires RequestOk(b, rows, saves, max) && forall k | k in after :: k in rows && after[k].hash == rows[k].hash
    ensures RequestOk(b, after, saves, max)
  {
  }

  lemma SettleCounts(s: Desk, q: nat, k: Key, r: Rules)
    requires GuessesOk(s, k, r) && RequestsOk(s, r)
    ensures GuessesOk(Next(s, Settle(q), r), k, r)
  {
    hide Bounded;
    if q in s.busy && s.busy[q].stage != Holding {
      assert RequestOk(s.busy[q], s.rows, Count(s.saved, s.busy[q].key), r.max);
      Leaves(s.busy, q, Count(s.compared, k), Count(s.saved, k), RowOf(s.rows, k), RowOf(Next(s, Settle(q), r).rows, k), k, r);
    }
  }

  lemma NextKeeps(s: Desk, e: Event, r: Rules)
    requires Inv(s, r) && 1 <= r.max
    ensures Inv(Next(s, e, r), r)
  {
    hide Inv, Next;
    match e
    case Save(key, hash, expires, now) => SaveKeeps(s, key, hash, expires, now, r);
    case Drop(key, hash) => DropKeeps(s, key, hash, r);
    case Read(q, key, code) => ReadKeeps(s, q, key, code, r);
    case Judge(q, now) => JudgeKeeps(s, q, now, r);
    case Settle(q) => SettleKeeps(s, q, r);
  }

  lemma {:induction false} RunKeeps(s: Desk, events: seq<Event>, r: Rules)
    requires Inv(s, r) && 1 <= r.max
    ensures Inv(Run(s, events, r), r)
    decreases |events|
  {
    hide Inv, Next;
    if events != [] {
      NextKeeps(s, events[0], r);
      RunKeeps(Next(s, events[0], r), events[1..], r);
    }
  }

  // ------------------------------------------------------------------- promises

  /** In every interleaving: an address never succeeds more often than codes were saved for it, and of
      one code at most `max - 1 + crowd` guesses are ever compared, where `crowd` bounds the requests at
      this very code that are in flight at once, whatever goes on elsewhere. */
  lemma CodesAreSafe(events: seq<Event>, key: Key, r: Rules)
    requires 1 <= r.max
    ensures var n := Run(EMPTY_DESK, events, r);
            && Count(n.accepted, key) + (if key in n.rows then 1 else 0) <= Count(n.saved, key)
            && Count(n.compared, key) <= r.max - 1 + r.crowd
  {
    forall k ensures GuessesOk(EMPTY_DESK, k, r) {
      NewCode(map[], 0, None, k, r);
    }
    RunKeeps(EMPTY_DESK, events, r);
    assert GuessesOk(Run(EMPTY_DESK, events, r), key, r);
  }

  /** A match was one with the code that was read. */
  ghost predicate MatchesOk(s: Desk, r: Rules) {
    forall q | q in s.busy && s.busy[q].stage == Right :: s.busy[q].row.hash == r.hash(s.busy[q].key, s.busy[q].code)
  }

  lemma MatchesKept(s: Desk, e: Event, r: Rules)
    requires MatchesOk(s, r)
    ensures MatchesOk(Next(s, e, r), r)
  {
    hide Bump, Saved, Deleted, Failed, Readers;
  }

  lemma {:induction false} RunMatches(s: Desk, events: seq<Event>, r: Rules)
    requires MatchesOk(s, r)
    ensures MatchesOk(Run(s, events, r), r)
    decreases |events|
  {
    hide MatchesOk, Next;
    if events != [] {
      MatchesKept(s, events[0], r);
      RunMatches(Next(s, events[0], r), events[1..], r);
    }
  }

  /** In every interleaving a success uses up the code that is in force at that moment, and it was the one
      entered: a code that has been replaced or used is of no use, however long ago it was compared. */
  lemma OnlyTheCodeInForce(events: seq<Event>, e: Event, key: Key, r: Rules)
    ensures var s := Run(EMPTY_DESK, events, r);
            var n := Next(s, e, r);
            Count(n.accepted, key) != Count(s.accepted, key) ==>
              && e.Settle? && e.request in s.busy && s.busy[e.request].key == key
              && key in s.rows && s.rows[key].hash == r.hash(key, s.busy[e.request].code)
              && key !in n.rows && Count(n.accepted, key) == Count(s.accepted, key) + 1
  {
    hide Run, Saved, Failed, Readers, Judgement;
    RunMatches(EMPTY_DESK, events, r);
  }

  /** A request that read an older code, or a mail with it that was lost, leaves the newer one in force. */
  lemma NewerCodeStays(s: Desk, e: Event, key: Key, r: Rules)
    requires key in s.rows
    requires (e.Settle? && e.request in s.busy && s.busy[e.request].key == key && s.rows[key].hash != s.busy[e.request].row.hash)
             || (e.Drop? && e.key == key && s.rows[key].hash != e.hash)
    ensures var n := Next(s, e, r);
            key in n.rows && n.rows[key] == s.rows[key].(attempts := n.rows[key].attempts) && n.accepted == s.accepted
  {
  }

  /** A request whose three steps nobody comes between is `consume_code` as a whole: the same rows, and a
      success just when it is accepted. */
  lemma AloneIsConsumed(s: Desk, q: nat, key: Key, code: string, now: nat, r: Rules)
    requires q !in s.busy && code != "" && key in s.rows && |Readers(s.busy, Count(s.saved, key), key)| < r.crowd
    ensures var n := Run(s, [Read(q, key, code), Judge(q, now), Settle(q)], r);
            var (rows, check) := Consumed(s.rows, key, code, r.hash, now, r.max);
            n.rows == rows && n.busy == s.busy && n.saved == s.saved
            && n.accepted == if check == Accepted then Bump(s.accepted, key) else s.accepted
  {
    hide Next, Bump;
    var t := Next(s, Read(q, key, code), r);
    var u := Next(t, Judge(q, now), r);
    ThreeSteps(s, Read(q, key, code), Judge(q, now), Settle(q), r);
    ReadsAndJudges(s, q, key, code, now, r);
    SettlesAlone(u, q, r);
  }

  lemma ThreeSteps(s: Desk, e: Event, f: Event, g: Event, r: Rules)
    ensures Run(s, [e, f, g], r) == Next(Next(Next(s, e, r), f, r), g, r)
  {
    hide Next;
    var t := Next(s, e, r);
    var u := Next(t, f, r);
    assert [e, f, g][1..] == [f, g] && [f, g][1..] == [g] && [g][1..] == [];
    assert Run(s, [e, f, g], r) == Run(t, [f, g], r) == Run(u, [g], r);
  }

  lemma ReadsAndJudges(s: Desk, q: nat, key: Key, code: string, now: nat, r: Rules)
    requires q !in s.busy && code != "" && key in s.rows && |Readers(s.busy, Count(s.saved, key), key)| < r.crowd
    ensures var b := Request(key, s.rows[key], code, Count(s.saved, key), Holding);
            var u := Next(Next(s, Read(q, key, code), r), Judge(q, now), r);
            && u.rows == s.rows && u.saved == s.saved && u.accepted == s.accepted
            && u.busy == if now < b.row.expires && b.row.attempts >= r.max then s.busy
                         else s.busy[q := b.(stage := if b.row.expires <= now then Late else if b.row.hash == r.hash(key, code) then Right else Wrong)]
  {
    hide Bump;
    var t := Next(s, Read(q, key, code), r);
    assert s.busy[q := t.busy[q]] - {q} == s.busy;
  }

  lemma SettlesAlone(u: Desk, q: nat, r: Rules)
    ensures var n := Next(u, Settle(q), r);
            && n.saved == u.saved
            && (q !in u.busy ==> n == u)
            && (q in u.busy && u.busy[q].stage != Holding ==> (
                  var b := u.busy[q];
                  && n.busy == u.busy - {q}
                  && n.rows == (if b.stage == Wrong then Failed(u.rows, b.key) else Deleted(u.rows, b.key, b.row.hash))
                  && n.accepted == if b.stage == Right && Deletes(u.rows, b.key, b.row.hash) then Bump(u.accepted, b.key) else u.accepted))
  {
  }

  // ------------------------------------------------------- the bound is reached

  /** `readers` requests that read this row, `judged` of them having compared a wrong guess. */
  function Crowd(key: Key, row: CodeRow, guess: string, readers: nat, judged: nat): (busy: map<nat, Request>)
    ensures |busy| == readers
    ensures forall q: nat :: q in busy <==> q < readers
    ensures forall q | q in busy :: busy[q] == Request(key, row, guess, 1, if q < judged then Wrong else Holding)
  {
    if readers == 0 then map[]
    else Crowd(key, row, guess, readers - 1, judged)[readers - 1 := Request(key, row, guess, 1, if readers <= judged then Wrong else Holding)]
  }

  /** One code saved, `failures` wrong guesses over, `readers` requests in flight, `judged` of them
      having compared another wrong guess. */
  function Scene(key: Key, row: CodeRow, guess: string, failures: nat, readers: nat, judged: nat): Desk {
    var now := row.(attempts := failures);
    Desk(map[key := now], Crowd(key, now, guess, readers, judged), map[key := 1], map[key := failures + judged], map[])
  }

  lemma {:induction false} RunJoined(s: Desk, first: seq<Event>, second: seq<Event>, r: Rules)
    ensures Run(s, first + second, r) == Run(Run(s, first, r), second, r)
    decreases |first|
  {
    if first == [] {
      assert first + second == second;
    } else {
      assert (first + second)[1..] == first[1..] + second;
      RunJoined(Next(s, first[0], r), first[1..], second, r);
    }
  }

  lemma OneMoreReads(key: Key, row: CodeRow, guess: string, failures: nat, readers: nat, r: Rules)
    requires readers < r.crowd && guess != ""
    ensures Run(Scene(key, row, guess, failures, readers, 0), [Read(readers, key, guess)], r) == Scene(key, row, guess, failures, readers + 1, 0)
  {
    var s, e := Scene(key, row, guess, failures, readers, 0), Read(readers, key, guess);
    assert Readers(s.busy, 1, key) == s.busy.Keys && |s.busy.Keys| == |s.busy|;
    assert Next(s, e, r) == Scene(key, row, guess, failures, readers + 1, 0);
    assert [e][1..] == [];
  }

  lemma MoreJudged(key: Key, row: CodeRow, guess: string, readers: nat, judged: nat)
    requires judged < readers
    ensures Crowd(key, row, guess, readers, judged + 1) ==
            Crowd(key, row, guess, readers, judged)[judged := Request(key, row, guess, 1, Wrong)]
  {
    hide Crowd;
  }

  lemma OneMoreJudges(key: Key, row: CodeRow, guess: string, failures: nat, readers: nat, judged: nat, r: Rules)
    requires judged < readers && failures < r.max && r.hash(key, guess) != row.hash && 0 < row.expires
    ensures Run(Scene(key, row, guess, failures, readers, judged), [Judge(judged, 0)], r) == Scene(key, row, guess, failures, readers, judged + 1)
  {
    hide Crowd;
    var s, e := Scene(key, row, guess, failures, readers, judged), Judge(judged, 0);
    MoreJudged(key, row.(attempts := failures), guess, readers, judged);
    assert Next(s, e, r) == Scene(key, row, guess, failures, readers, judged + 1);
    assert [e][1..] == [];
  }

  lemma Settles(key: Key, row: CodeRow, guess: string, failures: nat, r: Rules)
    ensures Run(Scene(key, row, guess, failures, 1, 1), [Settle(0)], r) == Scene(key, row, guess, failures + 1, 0, 0)
  {
    var s, e := Scene(key, row, guess, failures, 1, 1), Settle(0);
    assert Crowd(key, row.(attempts := failures), guess, 1, 1) == map[0 := Request(key, row.(attempts := failures), guess, 1, Wrong)];
    assert Next(s, e, r) == Scene(key, row, guess, failures + 1, 0, 0);
    assert [e][1..] == [];
  }

  lemma FailsOnce(key: Key, row: CodeRow, guess: string, failures: nat, r: Rules)
    requires failures < r.max && 1 <= r.crowd && guess != "" && r.hash(key, guess) != row.hash && 0 < row.expires
    ensures Run(Scene(key, row, guess, failures, 0, 0), [Read(0, key, guess)] + [Judge(0, 0)] + [Settle(0)], r) ==
            Scene(key, row, guess, failures + 1, 0, 0)
  {
    hide Scene, Next, Run;
    var s := Scene(key, row, guess, failures, 0, 0);
    OneMoreReads(key, row, guess, failures, 0, r);
    OneMoreJudges(key, row, guess, failures, 1, 0, r);
    Settles(key, row, guess, failures, r);
    RunJoined(s, [Read(0, key, guess)], [Judge(0, 0)], r);
    RunJoined(s, [Read(0, key, guess)] + [Judge(0, 0)], [Settle(0)], r);
  }

  /** The worst case, on the way to `failures`, then `readers`, then `judged`. */
  lemma {:induction false} WorstCase(key: Key, row: CodeRow, guess: string, failures: nat, readers: nat, judged: nat, r: Rules)
    returns (events: seq<Event>)
    requires failures < r.max && judged <= readers <= r.crowd && 1 <= r.crowd
    requires guess != "" && r.hash(key, guess) != row.hash && 0 < row.expires
    ensures Run(Scene(key, row, guess, 0, 0, 0), events, r) == Scene(key, row, guess, failures, readers, judged)
    decreases failures + readers + judged
  {
    hide Scene, Next, Run;
    var more: seq<Event>;
    if judged > 0 {
      events := WorstCase(key, row, guess, failures, readers, judged - 1, r);
      more := [Judge(judged - 1, 0)];
      OneMoreJudges(key, row, guess, failures, readers, judged - 1, r);
    } else if readers > 0 {
      events := WorstCase(key, row, guess, failures, readers - 1, 0, r);
      more := [Read(readers - 1, key, guess)];
      OneMoreReads(key, row, guess, failures, readers - 1, r);
    } else if failures > 0 {
      events := WorstCase(key, row, guess, failures - 1, 0, 0, r);
      more := [Read(0, key, guess)] + [Judge(0, 0)] + [Settle(0)];
      FailsOnce(key, row, guess, failures - 1, r);
    } else {
      events, more := [], [];
      NothingYet(Scene(key, row, guess, 0, 0, 0), r);
    }
    RunJoined(Scene(key, row, guess, 0, 0, 0), events, more, r);
    events := events + more;
  }

  lemma NothingYet(s: Desk, r: Rules)
    ensures Run(s, [], r) == s
  {
  }

  /** The bound on compared guesses is exact, for every limit and every crowd. */
  lemma BoundIsReached(key: Key, code: string, guess: string, r: Rules) returns (events: seq<Event>)
    requires 1 <= r.max && 1 <= r.crowd && guess != "" && r.hash(key, guess) != r.hash(key, code)
    ensures Count(Run(EMPTY_DESK, events, r).compared, key) == r.max - 1 + r.crowd
  {
    var row := CodeRow(r.hash(key, code), 0, 1, 0);
    events := WorstCase(key, row, guess, r.max - 1, r.crowd, r.crowd, r);
    var save := [Save(key, row.hash, 1, 0)];
    assert Next(EMPTY_DESK, save[0], r) == Scene(key, row, guess, 0, 0, 0);
    RunJoined(EMPTY_DESK, save, events, r);
    events := save + events;
  }
}
