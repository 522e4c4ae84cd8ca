/**
 The AI run counter of a workspace: the two SQL statements of db/sqlite_store.py, the reading side
 in app/plans.py, and what both promise for any run of takes and refunds.
 */
module Usage {
  import opened Wrappers
  import opened Counting
  import opened Timestamps

  /** `AI_USAGE_CYCLE_DAYS`. */
  const CYCLE := 30 * MICROS_PER_DAY

  datatype UsageRow = UsageRow(count: nat, cycleStart: nat, cycleEnd: nat)

  /** `increment_ai_runs`: insert if absent, then one guarded update. The count, or None when refused. */
  function Increment(row: Option<UsageRow>, now: nat, limit: Option<int>): (UsageRow, Option<nat>) {
    var current := row.GetOr(UsageRow(0, now, now + CYCLE));
    if limit.None? || now > current.cycleEnd || current.count < limit.value then
      var updated := if now > current.cycleEnd then UsageRow(1, now, now + CYCLE) else current.(count := current.count + 1);
      (updated, Some(updated.count))
    else (current, None)
  }

  /** `release_ai_run`. */
  function Release(row: Option<UsageRow>, now: nat): Option<UsageRow> {
    if row.Some? && row.value.count > 0 && now <= row.value.cycleEnd then Some(row.value.(count := row.value.count - 1)) else row
  }

  /** `current_ai_runs`. */
  function CurrentRuns(row: Option<UsageRow>, now: nat): nat {
    if row.None? || now > row.value.cycleEnd then 0 else row.value.count
  }

  /** The check before a request and the statement that takes the run answer alike, for every limit of
      at least 1; for a smaller one they part just when a cycle has ended. */
  lemma CheckAgreesWithUpdate(row: Option<UsageRow>, now: nat, limit: int)
    ensures (CurrentRuns(row, now) < limit <==> Increment(row, now, Some(limit)).1.Some?)
            <==> (1 <= limit || row.None? || now <= row.value.cycleEnd)
    ensures forall bound: Option<int> :: Increment(row, now, bound).1.Some? ==>
              Increment(row, now, bound).1.value == CurrentRuns(row, now) + 1 == CurrentRuns(Some(Increment(row, now, bound).0), now)
  {
  }

  /** What the two statements come to for the counter as it is read: a run that is taken counts one more,
      in the same cycle or in a new one of 30 days; a refusal leaves the row it found and the count as it
      was, and comes only at the limit; a release counts one fewer, and touches no cycle that has ended. */
  lemma WhatIsCounted(row: Option<UsageRow>, now: nat, limit: Option<int>)
    ensures var (after, count) := Increment(row, now, limit);
            && (count.Some? ==> (
                  && after.count == count.value == CurrentRuns(row, now) + 1
                  && (if row.Some? && now <= row.value.cycleEnd then
                        after.cycleStart == row.value.cycleStart && after.cycleEnd == row.value.cycleEnd
                      else after.cycleStart == now && after.cycleEnd == now + 2_592_000_000_000)))
            && (count.None? ==> (
                  && (row.Some? ==> after == row.value) && CurrentRuns(Some(after), now) == CurrentRuns(row, now)
                  && limit.Some? && limit.value <= CurrentRuns(row, now)))
            && (limit.None? ==> count.Some?)
    ensures var after := Release(row, now);
            && CurrentRuns(after, now) == (if CurrentRuns(row, now) == 0 then 0 else CurrentRuns(row, now) - 1)
            && (row.None? || now > row.value.cycleEnd ==> after == row)
            && (row.Some? ==> after.Some? && after.value == row.value.(count := after.value.count))
  {
  }

  // -------------------------------------------------------------- the history

  /** One `ai_run` block: the cycle it was counted in, when, until when that cycle lasts, and whether it
      gave its run back. */
  datatype Block = Block(cycle: int, at: nat, until: nat, refunded: bool)

  /** `starts` holds the start of every cycle so far; `crossed` counts, per cycle, the refunds that
      lowered its count for a block of an earlier cycle. */
  datatype History = History(row: Option<UsageRow>, clock: nat, starts: seq<nat>, blocks: map<nat, Block>, crossed: map<int, nat>)

  datatype Event = Take(block: nat, now: nat) | Refund(block: nat, now: nat)

  function Latest(clock: nat, now: nat): nat {
    if now < clock then clock else now
  }

  /** Calls read the clock before they reach the database, so that readings can come out of order; none is
      more than `skew` older than the latest so far. */
  function Next(s: History, e: Event, limit: nat, skew: nat): History {
    if e.now + skew < s.clock then s else
    var clock := Latest(s.clock, e.now);
    match e
    case Take(b, now) =>
      if b in s.blocks then s
      else
        var (row, count) := Increment(s.row, now, Some(limit));
        var starts := StartsAfter(s.row, s.starts, now);
        if count.None? then s.(row := Some(row), clock := clock, starts := starts)
        else s.(row := Some(row), clock := clock, starts := starts, blocks := s.blocks[b := Block(|starts| - 1, now, row.cycleEnd, false)])
    case Refund(b, now) =>
      if b !in s.blocks || s.blocks[b].refunded then s   // AIRun.refunded: a block refunds once
      else
        var row := Release(s.row, now);
        var crosses := row != s.row && s.blocks[b].cycle != |s.starts| - 1;
        s.(row := row, clock := clock, blocks := s.blocks[b := s.blocks[b].(refunded := true)],
           crossed := if crosses then Bump(s.crossed, |s.starts| - 1) else s.crossed)
  }

  function Run(s: History, events: seq<Event>, limit: nat, skew: nat): History
    decreases |events|
  {
    if events == [] then s else Run(Next(s, events[0], limit, skew), events[1..], limit, skew)
  }

  /** Any row, or none, and no block yet. */
  ghost predicate Init(s: History) {
    s.blocks == map[] && s.crossed == map[]
    && (if s.row.Some? then |s.starts| == 1 && s.starts[0] <= s.row.value.cycleEnd && s.starts[0] <= s.clock else s.starts == [])
  }

  /** The runs of cycle `k` that were taken and not given back. */
  ghost function Charged(s: History, k: int): set<nat> {
    ChargedTo(s.blocks, k)
  }

  ghost function ChargedTo(blocks: map<nat, Block>, k: int): set<nat> {
    set b | b in blocks && !blocks[b].refunded && blocks[b].cycle == k
  }

  /** Cycle `k` ends 30 days after it starts; the next one starts only after that. (A row found at the
      beginning may end at any time.) */
  ghost predicate StartsOk(row: Option<UsageRow>, starts: seq<nat>, clock: nat) {
    (row.None? <==> starts == [])
    && (forall k | 1 <= k < |starts| - 1 :: starts[k] + CYCLE < starts[k + 1])
    && (|starts| > 1 ==> row.value.cycleEnd == starts[|starts| - 1] + CYCLE)
    && (forall k | 0 <= k < |starts| :: starts[k] <= clock)
  }

  /** A block lies in the cycle it was counted in, or no more than `skew` before it. */
  ghost predicate BlockInside(block: Block, row: Option<UsageRow>, starts: seq<nat>, clock: nat, skew: nat) {
    0 <= block.cycle < |starts| && starts[block.cycle] <= block.at + skew && block.at <= clock
    && (if block.cycle == |starts| - 1 then row.Some? && block.at <= block.until == row.value.cycleEnd
        else block.at <= block.until < starts[block.cycle + 1])
  }

  ghost predicate TimesOk(s: History, skew: nat) {
    StartsOk(s.row, s.starts, s.clock)
    && forall b | b in s.blocks :: BlockInside(s.blocks[b], s.row, s.starts, s.clock, skew)
  }

  ghost predicate CountsOk(s: History, limit: nat) {
    (forall k :: |Charged(s, k)| <= limit + Count(s.crossed, k))
    && (s.row.Some? ==> |Charged(s, |s.starts| - 1)| <= s.row.value.count + Count(s.crossed, |s.starts| - 1))
    && (forall k | k in s.crossed :: 0 <= k < |s.starts|)
  }

  ghost predicate Inv(s: History, limit: nat, skew: nat) {
    TimesOk(s, skew) && CountsOk(s, limit)
  }

  lemma TimesKept(s: History, e: Event, limit: nat, skew: nat)
    requires TimesOk(s, skew)
    ensures TimesOk(Next(s, e, limit, skew), skew)
  {
    hide StartsOk, BlockInside, Increment, Release;
    var n := Next(s, e, limit, skew);
    if n != s {
      match e
      case Take(b, now) =>
        StartsKept(s.row, s.starts, s.clock, now, limit);
        forall c | c in n.blocks ensures BlockInside(n.blocks[c], n.row, n.starts, n.clock, skew) {
          if c in s.blocks {
            InsideKept(s.blocks[c], s.row, s.starts, s.clock, now, limit, skew);
          } else {
            TakenInside(s.row, s.starts, s.clock, now, limit, skew);
          }
        }
      case Refund(b, now) =>
        ReleaseKeepsStarts(s.row, s.starts, s.clock, now);
        forall c | c in n.blocks ensures BlockInside(n.blocks[c], n.row, n.starts, n.clock, skew) {
          ReleaseKeepsInside(s.blocks[c], n.blocks[c].refunded, s.row, s.starts, s.clock, now, skew);
        }
    }
  }

  function StartsAfter(row: Option<UsageRow>, starts: seq<nat>, now: nat): seq<nat> {
    if row.None? || now > row.value.cycleEnd then starts + [now] else starts
  }

  lemma StartsKept(row: Option<UsageRow>, starts: seq<nat>, clock: nat, now: nat, limit: nat)
    requires StartsOk(row, starts, clock)
    ensures StartsOk(Some(Increment(row, now, Some(limit)).0), StartsAfter(row, starts, now), Latest(clock, now))
  {
  }

  lemma InsideKept(block: Block, row: Option<UsageRow>, starts: seq<nat>, clock: nat, now: nat, limit: nat, skew: nat)
    requires BlockInside(block, row, starts, clock, skew)
    ensures BlockInside(block, Some(Increment(row, now, Some(limit)).0), StartsAfter(row, starts, now), Latest(clock, now), skew)
  {
  }

  lemma TakenInside(row: Option<UsageRow>, starts: seq<nat>, clock: nat, now: nat, limit: nat, skew: nat)
    requires StartsOk(row, starts, clock) && clock <= now + skew
    ensures BlockInside(Block(|StartsAfter(row, starts, now)| - 1, now, Increment(row, now, Some(limit)).0.cycleEnd, false), Some(Increment(row, now, Some(limit)).0),
                        StartsAfter(row, starts, now), Latest(clock, now), skew)
  {
  }

  lemma ReleaseKeepsStarts(row: Option<UsageRow>, starts: seq<nat>, clock: nat, now: nat)
    requires StartsOk(row, starts, clock)
    ensures StartsOk(Release(row, now), starts, Latest(clock, now))
  {
  }

  lemma ReleaseKeepsInside(block: Block, refunded: bool, row: Option<UsageRow>, starts: seq<nat>, clock: nat, now: nat, skew: nat)
    requires BlockInside(block, row, starts, clock, skew)
    ensures BlockInside(block.(refunded := refunded), Release(row, now), starts, Latest(clock, now), skew)
  {
  }

  /** A block taken is charged to its cycle and to no other. */
  lemma BlockCharged(blocks: map<nat, Block>, b: nat, block: Block, k: int)
    requires b !in blocks && !block.refunded
    ensures |ChargedTo(blocks[b := block], k)| == |ChargedTo(blocks, k)| + (if block.cycle == k then 1 else 0)
  {
    if block.cycle == k {
      assert ChargedTo(blocks[b := block], k) == ChargedTo(blocks, k) + {b};
    } else {
      assert ChargedTo(blocks[b := block], k) == ChargedTo(blocks, k);
    }
  }

  /** A block refunded is taken off its cycle and off no other. */
  lemma BlockRefunded(blocks: map<nat, Block>, b: nat, k: int)
    requires b in blocks && !blocks[b].refunded
    ensures |ChargedTo(blocks[b := blocks[b].(refunded := true)], k)| + (if blocks[b].cycle == k then 1 else 0) == |ChargedTo(blocks, k)|
  {
    var after := blocks[b := blocks[b].(refunded := true)];
    if blocks[b].cycle == k {
      assert ChargedTo(after, k) == ChargedTo(blocks, k) - {b};
    } else {
      assert ChargedTo(after, k) == ChargedTo(blocks, k);
    }
  }

  lemma NothingCharged(s: History, k: int, skew: nat)
    requires TimesOk(s, skew) && k >= |s.starts|
    ensures ChargedTo(s.blocks, k) == {}
  {
    assert forall c | c in s.blocks :: BlockInside(s.blocks[c], s.row, s.starts, s.clock, skew);
  }

  lemma TakeCounted(s: History, b: nat, now: nat, limit: nat, skew: nat)
    requires Inv(s, limit, skew) && 1 <= limit
    ensures CountsOk(Next(s, Take(b, now), limit, skew), limit)
  {
    hide TimesOk, ChargedTo;
    var n := Next(s, Take(b, now), limit, skew);
    if n != s {
      var last := |n.starts| - 1;
      if |n.starts| > |s.starts| {
        NothingCharged(s, last, skew);
      }
      StartsFollowRow(s, skew);
      forall k ensures |Charged(n, k)| <= limit + Count(n.crossed, k) {
        if b in n.blocks {
          BlockCharged(s.blocks, b, n.blocks[b], k);
        }
      }
      if b in n.blocks {
        BlockCharged(s.blocks, b, n.blocks[b], last);
      }
    }
  }

  lemma StartsFollowRow(s: History, skew: nat)
    requires TimesOk(s, skew)
    ensures s.row.None? <==> s.starts == []
  {
  }

  lemma RefundCounted(s: History, b: nat, now: nat, limit: nat, skew: nat)
    requires CountsOk(s, limit) && (s.row.None? <==> s.starts == [])
    ensures CountsOk(Next(s, Refund(b, now), limit, skew), limit)
  {
    hide ChargedTo;
    var n := Next(s, Refund(b, now), limit, skew);
    if n != s {
      forall k ensures |Charged(n, k)| <= limit + Count(n.crossed, k) {
        assert |Charged(s, k)| <= limit + Count(s.crossed, k);
        BlockRefunded(s.blocks, b, k);
      }
      BlockRefunded(s.blocks, b, |s.starts| - 1);
    }
  }

  lemma {:induction false} RunKept(s: History, events: seq<Event>, limit: nat, skew: nat)
    requires Inv(s, limit, skew) && 1 <= limit
    ensures Inv(Run(s, events, limit, skew), limit, skew)
    decreases |events|
  {
    if events != [] {
      var e := events[0];
      TimesKept(s, e, limit, skew);
      match e {
        case Take(b, now) => TakeCounted(s, b, now, limit, skew);
        case Refund(b, now) => RefundCounted(s, b, now, limit, skew);
      }
      RunKept(Next(s, e, limit, skew), events[1..], limit, skew);
    }
  }

  // -------------------------------------------------------------- the promise

  /** The runs charged within `span` from `from`. */
  ghost function ChargedIn(s: History, from: nat, span: nat): set<nat> {
    set b | b in s.blocks && !s.blocks[b].refunded && from <= s.blocks[b].at <= from + span
  }

  lemma {:induction false} StartsGrow(s: History, i: nat, j: nat, skew: nat)
    requires TimesOk(s, skew) && 1 <= i < j < |s.starts|
    ensures s.starts[i] + CYCLE < s.starts[j]
    decreases j
  {
    if i < j - 1 {
      StartsGrow(s, i, j - 1, skew);
    }
  }

  /** Blocks two cycles apart lie more than 30 days apart, less the skew. */
  lemma TwoCyclesApart(s: History, b: nat, c: nat, skew: nat)
    requires TimesOk(s, skew) && b in s.blocks && c in s.blocks && s.blocks[b].cycle + 2 <= s.blocks[c].cycle
    ensures s.blocks[b].at + CYCLE + 2 <= s.blocks[c].at + skew
  {
    StartsGrow(s, s.blocks[b].cycle + 1, s.blocks[c].cycle, skew);
  }

  lemma {:induction false} EarliestCycle(s: History, w: set<nat>) returns (b: nat)
    requires w != {} && forall c | c in w :: c in s.blocks
    ensures b in w && forall c | c in w :: s.blocks[b].cycle <= s.blocks[c].cycle
    decreases w
  {
    b :| b in w;
    if w != {b} {
      var rest := EarliestCycle(s, w - {b});
      if s.blocks[rest].cycle < s.blocks[b].cycle {
        b := rest;
      }
    }
  }

  /** Whatever is charged within 30 days less the skew belongs to two neighbouring cycles. */
  lemma TwoCycles(n: History, from: nat, span: nat, skew: nat) returns (k: int)
    requires TimesOk(n, skew) && span + skew <= CYCLE + 1
    ensures ChargedIn(n, from, span) <= Charged(n, k) + Charged(n, k + 1)
  {
    var w := ChargedIn(n, from, span);
    k := 0;
    if w != {} {
      var b := EarliestCycle(n, w);
      k := n.blocks[b].cycle;
      forall c | c in w ensures c in Charged(n, k) + Charged(n, k + 1) {
        if k + 2 <= n.blocks[c].cycle {
          TwoCyclesApart(n, b, c, skew);
        }
      }
    }
  }

  lemma InitIsInv(s: History, limit: nat, skew: nat)
    requires Init(s)
    ensures Inv(s, limit, skew)
  {
    assert forall c :: Charged(s, c) == {};
  }

  /** In any run under a constant limit of at least 1, any 30 days, less the
      skew, see at most twice the limit of charged runs, plus the refunds that reached the two cycles
      involved from blocks of an earlier cycle. */
  lemma ThirtyDays(s: History, events: seq<Event>, limit: nat, skew: nat, from: nat, span: nat) returns (k: int)
    requires Init(s) && 1 <= limit && span + skew <= CYCLE + 1
    ensures var n := Run(s, events, limit, skew);
            |ChargedIn(n, from, span)| <= 2 * limit + Count(n.crossed, k) + Count(n.crossed, k + 1)
  {
    hide TimesOk, ChargedTo, ChargedIn, Init;
    InitIsInv(s, limit, skew);
    RunKept(s, events, limit, skew);
    var n := Run(s, events, limit, skew);
    k := TwoCycles(n, from, span, skew);
    SubsetSize(ChargedIn(n, from, span), Charged(n, k) + Charged(n, k + 1));
  }

  /** Every refund in the run comes before the end of the cycle its run was counted in, by the skew. */
  ghost predicate Prompt(s: History, events: seq<Event>, limit: nat, skew: nat)
    decreases |events|
  {
    events != [] ==>
      (events[0].Refund? && events[0].block in s.blocks ==> events[0].now + skew <= s.blocks[events[0].block].until)
      && Prompt(Next(s, events[0], limit, skew), events[1..], limit, skew)
  }

  /** Such a refund reaches its own cycle: a later one starts only after the end of this one. */
  lemma PromptRefundStays(s: History, e: Event, limit: nat, skew: nat)
    requires TimesOk(s, skew) && (e.Refund? && e.block in s.blocks ==> e.now + skew <= s.blocks[e.block].until)
    ensures Next(s, e, limit, skew).crossed == s.crossed
  {
    if e.Refund? && e.block in s.blocks && s.blocks[e.block].cycle != |s.starts| - 1 {
      assert BlockInside(s.blocks[e.block], s.row, s.starts, s.clock, skew);
      StartsGrowOrSame(s, s.blocks[e.block].cycle + 1, |s.starts| - 1, skew);
    }
  }

  lemma StartsGrowOrSame(s: History, i: nat, j: nat, skew: nat)
    requires TimesOk(s, skew) && 1 <= i <= j < |s.starts|
    ensures s.starts[i] <= s.starts[j] <= s.clock
  {
    if i < j {
      StartsGrow(s, i, j, skew);
    }
  }

  lemma {:induction false} PromptNeverCrosses(s: History, events: seq<Event>, limit: nat, skew: nat)
    requires TimesOk(s, skew) && Prompt(s, events, limit, skew)
    ensures Run(s, events, limit, skew).crossed == s.crossed
    decreases |events|
  {
    hide TimesOk, Next;
    if events != [] {
      PromptRefundStays(s, events[0], limit, skew);
      TimesKept(s, events[0], limit, skew);
      PromptNeverCrosses(Next(s, events[0], limit, skew), events[1..], limit, skew);
    }
  }

  /** When no refund crosses, the bound is twice the limit. */
  lemma ThirtyDaysWithoutCrossing(s: History, events: seq<Event>, limit: nat, skew: nat, from: nat, span: nat)
    requires Init(s) && 1 <= limit && span + skew <= CYCLE + 1 && Run(s, events, limit, skew).crossed == map[]
    ensures |ChargedIn(Run(s, events, limit, skew), from, span)| <= 2 * limit
  {
    var k := ThirtyDays(s, events, limit, skew, from, span);
  }

  /** When every block ends before the cycle it was counted in does, the bound is twice the limit, and
      no cycle is charged more than the limit. */
  lemma ThirtyDaysOfPromptBlocks(s: History, events: seq<Event>, limit: nat, skew: nat, from: nat, span: nat, k: int)
    requires Init(s) && 1 <= limit && Prompt(s, events, limit, skew)
    ensures span + skew <= CYCLE + 1 ==> |ChargedIn(Run(s, events, limit, skew), from, span)| <= 2 * limit
    ensures |Charged(Run(s, events, limit, skew), k)| <= limit
  {
    InitIsInv(s, limit, skew);
    PromptNeverCrosses(s, events, limit, skew);
    RunKept(s, events, limit, skew);
    if span + skew <= CYCLE + 1 {
      ThirtyDaysWithoutCrossing(s, events, limit, skew, from, span);
    }
    assert |Charged(Run(s, events, limit, skew), k)| <= limit + Count(Run(s, events, limit, skew).crossed, k);
  }

  // ---------------------------------------------------- what a crossing can do

  const NO_RUNS := History(None, 0, [], map[], map[])

  lemma RunStep(s: History, e: Event, rest: seq<Event>, limit: nat, skew: nat)
    ensures Run(s, [e] + rest, limit, skew) == Run(Next(s, e, limit, skew), rest, limit, skew)
  {
    assert ([e] + rest)[1..] == rest;
  }

  lemma {:induction false} RunJoined(s: History, first: seq<Event>, second: seq<Event>, limit: nat, skew: nat)
    ensures Run(s, first + second, limit, skew) == Run(Run(s, first, limit, skew), second, limit, skew)
    decreases |first|
  {
    if first == [] {
      assert first + second == second;
    } else {
      assert (first + second)[1..] == first[1..] + second;
      RunJoined(Next(s, first[0], limit, skew), first[1..], second, limit, skew);
    }
  }

  /** The promise of twice the limit does break: with a limit of 2, a short block that starts at the end
      of one cycle and ends in the next lets five runs be charged within 30 days. */
  lemma CrossingBreaksThirtyDays()
    ensures var events := [Take(0, 0), Take(1, CYCLE), Take(2, CYCLE + 1), Take(3, CYCLE + 2), Refund(1, CYCLE + 2)]
                          + ([Refund(2, CYCLE + 2), Take(4, 2 * CYCLE), Take(5, 2 * CYCLE)]
                             + [Take(6, 2 * CYCLE + 2), Take(7, 2 * CYCLE + 2)]);
            ChargedIn(Run(NO_RUNS, events, 2, 0), CYCLE + 2, CYCLE) == {3, 4, 5, 6, 7}
  {
    var first := [Take(0, 0), Take(1, CYCLE), Take(2, CYCLE + 1), Take(3, CYCLE + 2), Refund(1, CYCLE + 2)];
    var second := [Refund(2, CYCLE + 2), Take(4, 2 * CYCLE), Take(5, 2 * CYCLE)];
    var third := [Take(6, 2 * CYCLE + 2), Take(7, 2 * CYCLE + 2)];
    var m := FirstThird();
    var n := SecondThird(m);
    var o := LastThird(n);
    RunJoined(NO_RUNS, first, second + third, 2, 0);
    RunJoined(m, second, third, 2, 0);
  }

  lemma FirstThird() returns (m: History)
    ensures m == Run(NO_RUNS, [Take(0, 0), Take(1, CYCLE), Take(2, CYCLE + 1), Take(3, CYCLE + 2), Refund(1, CYCLE + 2)], 2, 0)
    ensures m.row == Some(UsageRow(1, CYCLE + 1, 2 * CYCLE + 1)) && m.clock == CYCLE + 2 && |m.starts| == 2
    ensures m.blocks.Keys == {0, 1, 2, 3} && m.blocks[0].at == 0 && m.blocks[1].at == CYCLE && m.blocks[1].refunded
    ensures m.blocks[2] == Block(1, CYCLE + 1, 2 * CYCLE + 1, false) && m.blocks[3] == Block(1, CYCLE + 2, 2 * CYCLE + 1, false)
  {
    var s1 := Next(NO_RUNS, Take(0, 0), 2, 0);
    var s2 := Next(s1, Take(1, CYCLE), 2, 0);
    var s3 := Next(s2, Take(2, CYCLE + 1), 2, 0);
    var s4 := Next(s3, Take(3, CYCLE + 2), 2, 0);
    m := Next(s4, Refund(1, CYCLE + 2), 2, 0);
    RunStep(NO_RUNS, Take(0, 0), [Take(1, CYCLE), Take(2, CYCLE + 1), Take(3, CYCLE + 2), Refund(1, CYCLE + 2)], 2, 0);
    RunStep(s1, Take(1, CYCLE), [Take(2, CYCLE + 1), Take(3, CYCLE + 2), Refund(1, CYCLE + 2)], 2, 0);
    RunStep(s2, Take(2, CYCLE + 1), [Take(3, CYCLE + 2), Refund(1, CYCLE + 2)], 2, 0);
    RunStep(s3, Take(3, CYCLE + 2), [Refund(1, CYCLE + 2)], 2, 0);
    RunStep(s4, Refund(1, CYCLE + 2), [], 2, 0);
  }

  lemma SecondThird(m: History) returns (n: History)
    requires m.row == Some(UsageRow(1, CYCLE + 1, 2 * CYCLE + 1)) && m.clock == CYCLE + 2 && |m.starts| == 2
    requires m.blocks.Keys == {0, 1, 2, 3} && m.blocks[2] == Block(1, CYCLE + 1, 2 * CYCLE + 1, false)
    ensures n == Run(m, [Refund(2, CYCLE + 2), Take(4, 2 * CYCLE), Take(5, 2 * CYCLE)], 2, 0)
    ensures n == m.(row := Some(UsageRow(2, CYCLE + 1, 2 * CYCLE + 1)), clock := 2 * CYCLE,
                    blocks := m.blocks[2 := Block(1, CYCLE + 1, 2 * CYCLE + 1, true)][4 := Block(1, 2 * CYCLE, 2 * CYCLE + 1, false)]
                                      [5 := Block(1, 2 * CYCLE, 2 * CYCLE + 1, false)])
  {
    var s1 := Next(m, Refund(2, CYCLE + 2), 2, 0);
    var s2 := Next(s1, Take(4, 2 * CYCLE), 2, 0);
    n := Next(s2, Take(5, 2 * CYCLE), 2, 0);
    RunStep(m, Refund(2, CYCLE + 2), [Take(4, 2 * CYCLE), Take(5, 2 * CYCLE)], 2, 0);
    RunStep(s1, Take(4, 2 * CYCLE), [Take(5, 2 * CYCLE)], 2, 0);
    RunStep(s2, Take(5, 2 * CYCLE), [], 2, 0);
  }

  lemma LastThird(n: History) returns (o: History)
    requires n.row == Some(UsageRow(2, CYCLE + 1, 2 * CYCLE + 1)) && n.clock == 2 * CYCLE && n.blocks.Keys == {0, 1, 2, 3, 4, 5}
    requires n.blocks[0].at == 0 && n.blocks[1].at == CYCLE && n.blocks[2].at == CYCLE + 1 && n.blocks[3].at == CYCLE + 2
    requires n.blocks[4].at == n.blocks[5].at == 2 * CYCLE
    requires forall b | b in {3, 4, 5} :: !n.blocks[b].refunded
    ensures o == Run(n, [Take(6, 2 * CYCLE + 2), Take(7, 2 * CYCLE + 2)], 2, 0)
    ensures ChargedIn(o, CYCLE + 2, CYCLE) == {3, 4, 5, 6, 7}
  {
    var s1 := Next(n, Take(6, 2 * CYCLE + 2), 2, 0);
    o := Next(s1, Take(7, 2 * CYCLE + 2), 2, 0);
    RunStep(n, Take(6, 2 * CYCLE + 2), [Take(7, 2 * CYCLE + 2)], 2, 0);
    RunStep(s1, Take(7, 2 * CYCLE + 2), [], 2, 0);
    assert o.blocks.Keys == {0, 1, 2, 3, 4, 5, 6, 7};
  }

  // ----------------------------------------------------- what the skew can do

  /** The bound is for windows shorter than 30 days by the skew, and breaks in longer ones: with a limit
      of 3 and readings out of order by two microseconds, seven runs are charged within 30 days though
      nothing is refunded. */
  lemma SkewBreaksThirtyDays()
    ensures var events := [Take(0, 0), Take(1, CYCLE), Take(2, CYCLE)]
                          + ([Take(3, CYCLE + 1), Take(4, CYCLE + 1), Take(5, CYCLE + 1)]
                             + [Take(6, 2 * CYCLE + 2), Take(7, 2 * CYCLE), Take(8, 2 * CYCLE)]);
            var n := Run(NO_RUNS, events, 3, 2);
            n.crossed == map[] && ChargedIn(n, CYCLE, CYCLE) == {1, 2, 3, 4, 5, 7, 8}
  {
    hide Run, Next;
    var first := [Take(0, 0), Take(1, CYCLE), Take(2, CYCLE)];
    var second := [Take(3, CYCLE + 1), Take(4, CYCLE + 1), Take(5, CYCLE + 1)];
    var third := [Take(6, 2 * CYCLE + 2), Take(7, 2 * CYCLE), Take(8, 2 * CYCLE)];
    var m := ThreeTakes(NO_RUNS, 0, 0, CYCLE, CYCLE);
    var n := ThreeTakes(m, 3, CYCLE + 1, CYCLE + 1, CYCLE + 1);
    var o := ThreeTakes(n, 6, 2 * CYCLE + 2, 2 * CYCLE, 2 * CYCLE);
    RunJoined(NO_RUNS, first, second + third, 3, 2);
    RunJoined(m, second, third, 3, 2);
    assert o.blocks.Keys == {0, 1, 2, 3, 4, 5, 6, 7, 8};
  }

  /** Three runs of a cycle that starts with the first of them. */
  lemma ThreeTakes(s: History, b: nat, start: nat, second: nat, third: nat) returns (n: History)
    requires s.clock <= start && (s.row.Some? ==> s.row.value.cycleEnd < start) && b !in s.blocks && b + 1 !in s.blocks && b + 2 !in s.blocks
    requires start <= second + 2 && start <= third + 2 && second <= third <= start + CYCLE
    ensures n == Run(s, [Take(b, start), Take(b + 1, second), Take(b + 2, third)], 3, 2)
    ensures n.row.Some? && n.row.value.cycleEnd == start + CYCLE && n.clock == Latest(start, third) && n.crossed == s.crossed
    ensures n.blocks == s.blocks[b := Block(|s.starts|, start, start + CYCLE, false)][b + 1 := Block(|s.starts|, second, start + CYCLE, false)]
                                [b + 2 := Block(|s.starts|, third, start + CYCLE, false)]
  {
    var s1 := Next(s, Take(b, start), 3, 2);
    var s2 := Next(s1, Take(b + 1, second), 3, 2);
    n := Next(s2, Take(b + 2, third), 3, 2);
    RunStep(s, Take(b, start), [Take(b + 1, second), Take(b + 2, third)], 3, 2);
    RunStep(s1, Take(b + 1, second), [Take(b + 2, third)], 3, 2);
    RunStep(s2, Take(b + 2, third), [], 3, 2);
  }

  // --------------------------------------------- every number of crossings counts

  /** `cycles` cycles with one run charged to each: run `j` to cycle `j`. */
  ghost predicate OneRunEach(s: History, cycles: nat) {
    && |s.starts| == cycles && s.crossed == map[]
    && (forall b: nat :: b in s.blocks <==> b < cycles)
    && (forall b | b in s.blocks :: !s.blocks[b].refunded && s.blocks[b].cycle == b)
    && (if cycles == 0 then s.row == None && s.clock == 0
        else s.row == Some(UsageRow(1, s.clock, s.clock + CYCLE)))
  }

  lemma {:induction false} SpreadOut(cycles: nat, limit: nat) returns (events: seq<Event>)
    requires 1 <= limit
    ensures OneRunEach(Run(NO_RUNS, events, limit, 0), cycles)
    decreases cycles
  {
    events := [];
    if cycles > 0 {
      events := SpreadOut(cycles - 1, limit);
      var s := Run(NO_RUNS, events, limit, 0);
      var e := Take(cycles - 1, s.clock + CYCLE + 1);
      RunJoined(NO_RUNS, events, [e], limit, 0);
      RunStep(s, e, [], limit, 0);
      events := events + [e];
    }
  }

  /** The last cycle, number `c`: full, after `j` refunds from earlier cycles each of which was used to
      take one run more. */
  ghost predicate Refilled(s: History, c: nat, limit: nat, j: nat) {
    && |s.starts| == c + 1 && s.row.Some? && s.row.value.count == limit && s.clock <= s.row.value.cycleEnd
    && (forall b: nat :: b in s.blocks <==> b < c + limit + j)
    && (forall b: nat | b < c :: s.blocks[b].cycle == b && (s.blocks[b].refunded <==> b < j))
    && (forall b: nat | c <= b < c + limit + j :: s.blocks[b].cycle == c && !s.blocks[b].refunded)
    && Count(s.crossed, c) == j
  }

  ghost predicate Filling(s: History, c: nat, limit: nat, i: nat) {
    && |s.starts| == c + 1 && s.row.Some? && s.row.value.count == i && s.clock <= s.row.value.cycleEnd && s.crossed == map[]
    && (forall b: nat :: b in s.blocks <==> b < c + i)
    && (forall b: nat | b < c :: s.blocks[b].cycle == b && !s.blocks[b].refunded)
    && (forall b: nat | c <= b < c + i :: s.blocks[b].cycle == c && !s.blocks[b].refunded)
  }

  lemma {:induction false} FillUp(c: nat, limit: nat, i: nat) returns (events: seq<Event>)
    requires 1 <= i <= limit
    ensures Filling(Run(NO_RUNS, events, limit, 0), c, limit, i)
    decreases i
  {
    var e: Event;
    if i == 1 {
      events := SpreadOut(c, limit);
      e := Take(c, Run(NO_RUNS, events, limit, 0).clock + CYCLE + 1);
    } else {
      events := FillUp(c, limit, i - 1);
      e := Take(c + i - 1, Run(NO_RUNS, events, limit, 0).clock);
    }
    RunJoined(NO_RUNS, events, [e], limit, 0);
    RunStep(Run(NO_RUNS, events, limit, 0), e, [], limit, 0);
    events := events + [e];
  }

  lemma {:induction false} Refill(c: nat, limit: nat, j: nat) returns (events: seq<Event>)
    requires 1 <= limit && j <= c
    ensures Refilled(Run(NO_RUNS, events, limit, 0), c, limit, j)
    decreases j
  {
    if j == 0 {
      events := FillUp(c, limit, limit);
    } else {
      events := Refill(c, limit, j - 1);
      var s := Run(NO_RUNS, events, limit, 0);
      var back, again := Refund(j - 1, s.clock), Take(c + limit + j - 1, s.clock);
      RunJoined(NO_RUNS, events, [back] + [again], limit, 0);
      RunStep(s, back, [again], limit, 0);
      RunStep(Next(s, back, limit, 0), again, [], limit, 0);
      events := events + ([back] + [again]);
      OneMoreRefilled(s, c, limit, j);
    }
  }

  lemma OneMoreRefilled(s: History, c: nat, limit: nat, j: nat)
    requires 1 <= limit && 1 <= j <= c && Refilled(s, c, limit, j - 1)
    ensures Refilled(Next(Next(s, Refund(j - 1, s.clock), limit, 0), Take(c + limit + j - 1, s.clock), limit, 0), c, limit, j)
  {
    var m := Next(s, Refund(j - 1, s.clock), limit, 0);
    assert m.row.value.count == limit - 1 && Count(m.crossed, c) == j;
  }

  function Ids(low: nat, high: nat): (ids: set<nat>)
    requires low <= high
    ensures |ids| == high - low && forall b: nat :: b in ids <==> low <= b < high
    decreases high - low
  {
    if low == high then {} else Ids(low, high - 1) + {high - 1}
  }

  /** The bound per cycle is exact: for every limit and every number of crossings there is a run that
      charges the limit plus that number to one cycle. */
  lemma CrossingsAddUp(c: nat, limit: nat) returns (events: seq<Event>)
    requires 1 <= limit
    ensures var n := Run(NO_RUNS, events, limit, 0);
            Count(n.crossed, c) == c && |Charged(n, c)| == limit + c
  {
    events := Refill(c, limit, c);
    var n := Run(NO_RUNS, events, limit, 0);
    assert Charged(n, c) == Ids(c, c + limit + c);
  }
}
