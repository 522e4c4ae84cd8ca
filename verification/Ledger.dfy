/**
 Fulfilment of Stripe Checkout payments (app/payments.py over `apply_payment` of the stores): an
 idempotent ledger. Any number of webhook and success-page deliveries are cut at their store calls
 and interleaved freely.
 */
module Ledger {
  import opened Wrappers
  import opened Plans

  /** A Checkout Session as Stripe reports it; a field of the wrong type counts as absent. */
  datatype Session = Session(id: string, mode: string, tenant: Option<string>, reference: Option<string>, plan: Plan,
                             cycle: Cycle, paymentStatus: string, amount: Option<int>, currency: string)

  /** A row of `billing_payments`; `end` is there exactly when its status is `paid`, not `review`. */
  datatype Payment = Payment(id: string, tenant: string, plan: Plan, cycle: Cycle, amount: int, currency: string, end: Option<real>)

  datatype Accounts = Accounts(tenants: set<string>, subscriptions: map<string, Subscription>, payments: seq<Payment>)

  datatype Verdict = Ignored | Pending | Proceed

  const CURRENCY := "cny"

  /** The guards before the first write. */
  function Guard(s: Session, tenants: set<string>): Verdict {
    if !("cs_" <= s.id) || s.mode != "payment" || s.tenant.None? || !Sold(s.plan, s.cycle) then Ignored
    else if s.reference.Some? && s.reference != s.tenant then Ignored
    else if s.paymentStatus != "paid" then Pending
    else if s.tenant.value !in tenants then Ignored
    else Proceed
  }

  predicate Recorded(payments: seq<Payment>, id: string) {
    exists i | 0 <= i < |payments| :: payments[i].id == id
  }

  function CurrentOf(a: Accounts, tenant: string): Option<Subscription> {
    if tenant in a.subscriptions then Some(a.subscriptions[tenant]) else None
  }

  /** `ensure_subscription` as `get_or_create_subscription` calls it. */
  function Ensured(a: Accounts, tenant: string, now: real, trialDays: nat): Accounts {
    if tenant in a.subscriptions then a
    else a.(subscriptions := a.subscriptions[tenant := FirstSubscription(tenant, now, trialDays)])
  }

  predicate PaidInFull(s: Session)
    requires Sold(s.plan, s.cycle)
  {
    s.amount == Some(PriceMinorUnits(s.plan, s.cycle)) && s.currency == CURRENCY
  }

  /** The closure `activate`, run inside the transaction. */
  function Activation(s: Session, current: Option<Subscription>, now: real): Option<Subscription>
    requires Sold(s.plan, s.cycle)
  {
    if !PaidInFull(s) || HasNoEndDate(current) then None else Some(Paid(current, s.plan, s.cycle, 1, now))
  }

  function Entry(s: Session, tenant: string, end: Option<real>): Payment {
    Payment(s.id, tenant, s.plan, s.cycle, s.amount.GetOr(0), if s.currency == "" then CURRENCY else s.currency, end)
  }

  /** `apply_payment`: insert the row if its id is new, then let the closure decide. */
  function Applied(a: Accounts, s: Session, now: real): Accounts
    requires Guard(s, a.tenants) == Proceed
  {
    if Recorded(a.payments, s.id) then a
    else
      var update := Activation(s, CurrentOf(a, s.tenant.value), now);
      var end := if update.Some? then update.value.end else None;
      a.(payments := a.payments + [Entry(s, s.tenant.value, end)],
         subscriptions := if update.Some? then a.subscriptions[s.tenant.value := update.value] else a.subscriptions)
  }

  // ---------------------------------------------------------- interleaved runs

  /** A store call of some delivery of `session`. */
  datatype Call =
    | Ensure(session: Session, now: real)
    | Apply(session: Session, now: real)

  function Next(a: Accounts, c: Call, trialDays: nat): Accounts {
    if Guard(c.session, a.tenants) != Proceed then a
    else match c
      case Ensure(s, now) => Ensured(a, s.tenant.value, now, trialDays)
      case Apply(s, now) => Applied(a, s, now)
  }

  function Run(a: Accounts, calls: seq<Call>, trialDays: nat): Accounts
    decreases |calls|
  {
    if calls == [] then a else Run(Next(a, calls[0], trialDays), calls[1..], trialDays)
  }

  /** What the calls would do a second time: a session id applied, a workspace given a subscription. */
  predicate Repeats(a: Accounts, c: Call) {
    match c
    case Ensure(s, _) => s.tenant.Some? && s.tenant.value in a.subscriptions
    case Apply(s, _) => Recorded(a.payments, s.id)
  }

  /** The calls without those whose session id has been applied, or whose workspace has been given a
      subscription, by an earlier one. */
  function Firsts(tenants: set<string>, calls: seq<Call>, ids: set<string>, ensured: set<string>): seq<Call>
    decreases |calls|
  {
    if calls == [] then [] else
    var c, rest := calls[0], calls[1..];
    if Guard(c.session, tenants) != Proceed then [c] + Firsts(tenants, rest, ids, ensured)
    else match c
      case Ensure(s, _) =>
        if s.tenant.value in ensured then Firsts(tenants, rest, ids, ensured)
        else [c] + Firsts(tenants, rest, ids, ensured + {s.tenant.value})
      case Apply(s, _) =>
        if s.id in ids then Firsts(tenants, rest, ids, ensured)
        else [c] + Firsts(tenants, rest, ids + {s.id}, ensured)
  }

  lemma NextGrows(a: Accounts, c: Call, trialDays: nat)
    ensures var n := Next(a, c, trialDays);
            && n.tenants == a.tenants && a.payments <= n.payments
            && (forall t | t in a.subscriptions :: t in n.subscriptions)
            && (forall id | Recorded(a.payments, id) :: Recorded(n.payments, id))
  {
    var n := Next(a, c, trialDays);
    forall id | Recorded(a.payments, id) ensures Recorded(n.payments, id) {
      var i :| 0 <= i < |a.payments| && a.payments[i].id == id;
      assert n.payments[i].id == id;
    }
  }

  /** After its own call a session id is recorded, a workspace has its subscription. */
  lemma NextRecords(a: Accounts, c: Call, trialDays: nat)
    requires Guard(c.session, a.tenants) == Proceed
    ensures Repeats(Next(a, c, trialDays), c)
  {
    var n := Next(a, c, trialDays);
    if c.Apply? && n != a {
      assert n.payments[|a.payments|].id == c.session.id;
    }
  }

  /** However deliveries interleave, calls that repeat an earlier one make no difference: payments and
      subscriptions end as if each session had been applied once and each workspace ensured once. */
  lemma {:induction false} RepeatsMakeNoDifference(a: Accounts, calls: seq<Call>, ids: set<string>, ensured: set<string>, trialDays: nat)
    requires forall id | id in ids :: Recorded(a.payments, id)
    requires ensured <= a.subscriptions.Keys
    ensures Run(a, calls, trialDays) == Run(a, Firsts(a.tenants, calls, ids, ensured), trialDays)
    decreases |calls|
  {
    hide Guard, Recorded, Activation;
    if calls != [] {
      var c, rest := calls[0], calls[1..];
      var n := Next(a, c, trialDays);
      NextGrows(a, c, trialDays);
      if Guard(c.session, a.tenants) != Proceed {
        RepeatsMakeNoDifference(n, rest, ids, ensured, trialDays);
        First(a, c, Firsts(a.tenants, rest, ids, ensured), trialDays);
      } else {
        NextRecords(a, c, trialDays);
        match c
        case Ensure(s, _) =>
          var more := ensured + {s.tenant.value};
          RepeatsMakeNoDifference(n, rest, ids, more, trialDays);
          First(a, c, Firsts(a.tenants, rest, ids, more), trialDays);
          if s.tenant.value in ensured {
            assert more == ensured;
          }
        case Apply(s, _) =>
          var more := ids + {s.id};
          RepeatsMakeNoDifference(n, rest, more, ensured, trialDays);
          First(a, c, Firsts(a.tenants, rest, more, ensured), trialDays);
          if s.id in ids {
            assert more == ids;
          }
      }
    }
  }

  lemma First(a: Accounts, c: Call, rest: seq<Call>, trialDays: nat)
    ensures Run(a, [c] + rest, trialDays) == Run(Next(a, c, trialDays), rest, trialDays)
  {
    assert ([c] + rest)[1..] == rest;
  }

  /** A call that proceeds and is not excused by what was seen before. */
  predicate IsNew(c: Call, tenants: set<string>, ids: set<string>, ensured: set<string>) {
    Guard(c.session, tenants) == Proceed ==> if c.Apply? then c.session.id !in ids else c.session.tenant.value !in ensured
  }

  /** Two calls that proceed and would do the same thing. */
  predicate Alike(c: Call, d: Call, tenants: set<string>) {
    Guard(c.session, tenants) == Guard(d.session, tenants) == Proceed
    && ((c.Apply? && d.Apply? && c.session.id == d.session.id) || (c.Ensure? && d.Ensure? && c.session.tenant == d.session.tenant))
  }

  ghost predicate NoneAlike(calls: seq<Call>, tenants: set<string>) {
    forall i, j | 0 <= i < j < |calls| :: !Alike(calls[i], calls[j], tenants)
  }

  lemma Unlike(c: Call, d: Call, tenants: set<string>, ids: set<string>, ensured: set<string>)
    requires Guard(c.session, tenants) == Proceed && IsNew(d, tenants, ids, ensured)
    requires if c.Apply? then c.session.id in ids else c.session.tenant.value in ensured
    ensures !Alike(c, d, tenants)
  {
  }

  /** What is left applies no session id twice and ensures no workspace twice. */
  lemma {:induction false} FirstsAreDistinct(tenants: set<string>, calls: seq<Call>, ids: set<string>, ensured: set<string>)
    ensures forall c | c in Firsts(tenants, calls, ids, ensured) :: IsNew(c, tenants, ids, ensured)
    ensures NoneAlike(Firsts(tenants, calls, ids, ensured), tenants)
    decreases |calls|
  {
    hide Guard, Alike;
    if calls != [] {
      var c, rest := calls[0], calls[1..];
      GuardNamesTenant(c.session, tenants);
      var proceeds := Guard(c.session, tenants) == Proceed;
      var ids' := if proceeds && c.Apply? then ids + {c.session.id} else ids;
      var ensured' := if proceeds && c.Ensure? then ensured + {c.session.tenant.value} else ensured;
      FirstsAreDistinct(tenants, rest, ids', ensured');
      var kept, later := Firsts(tenants, calls, ids, ensured), Firsts(tenants, rest, ids', ensured');
      if IsNew(c, tenants, ids, ensured) {
        assert kept == [c] + later;
        forall d | d in later ensures IsNew(d, tenants, ids, ensured) && !Alike(c, d, tenants) {
          assert IsNew(d, tenants, ids', ensured');
          GuardNamesTenant(d.session, tenants);
          if proceeds {
            Unlike(c, d, tenants, ids', ensured');
          } else {
            HeldBack(c, d, tenants);
          }
        }
        forall i, j | 0 <= i < j < |kept| ensures !Alike(kept[i], kept[j], tenants) {
          assert kept[j] == later[j - 1] && later[j - 1] in later;
          if i > 0 {
            assert kept[i] == later[i - 1];
          }
        }
      } else {
        assert ids' == ids && ensured' == ensured && kept == later;
      }
    }
  }

  lemma HeldBack(c: Call, d: Call, tenants: set<string>)
    requires Guard(c.session, tenants) != Proceed
    ensures !Alike(c, d, tenants)
  {
  }

  lemma GuardNamesTenant(s: Session, tenants: set<string>)
    ensures Guard(s, tenants) == Proceed ==> s.tenant.Some? && s.tenant.value in tenants && Sold(s.plan, s.cycle)
  {
  }

  // ---------------------------------------------------------- whole deliveries

  datatype Delivery = Delivery(session: Session, ensuredAt: real, appliedAt: real)

  datatype Answer = AnswerIgnored | AnswerPending | Duplicate | Review | Activated

  /** `fulfill_checkout_session` when nothing comes between its store calls. */
  function Deliver(a: Accounts, d: Delivery, trialDays: nat): Accounts {
    Next(Next(a, Ensure(d.session, d.ensuredAt), trialDays), Apply(d.session, d.appliedAt), trialDays)
  }

  function AnswerTo(a: Accounts, d: Delivery, trialDays: nat): Answer {
    match Guard(d.session, a.tenants)
    case Ignored => AnswerIgnored
    case Pending => AnswerPending
    case Proceed =>
      if Recorded(a.payments, d.session.id) then Duplicate
      else
        var n := Deliver(a, d, trialDays);
        if n.payments[|n.payments| - 1].end.Some? then Activated else Review
  }

  function Deliveries(a: Accounts, ds: seq<Delivery>, trialDays: nat): Accounts
    decreases |ds|
  {
    if ds == [] then a else Deliveries(Deliver(a, ds[0], trialDays), ds[1..], trialDays)
  }

  /** The deliveries without those of a session that was delivered, and not held back, before. */
  function FirstDeliveries(tenants: set<string>, ds: seq<Delivery>, seen: set<(string, string)>): seq<Delivery>
    decreases |ds|
  {
    if ds == [] then [] else
    var s := ds[0].session;
    if Guard(s, tenants) != Proceed then [ds[0]] + FirstDeliveries(tenants, ds[1..], seen)
    else if (s.id, s.tenant.value) in seen then FirstDeliveries(tenants, ds[1..], seen)
    else [ds[0]] + FirstDeliveries(tenants, ds[1..], seen + {(s.id, s.tenant.value)})
  }

  ghost predicate Served(a: Accounts, id: string, tenant: string) {
    Recorded(a.payments, id) && tenant in a.subscriptions
  }

  lemma DeliverServes(a: Accounts, d: Delivery, trialDays: nat)
    ensures var n := Deliver(a, d, trialDays);
            && n.tenants == a.tenants
            && (forall id, t | Served(a, id, t) :: Served(n, id, t))
            && (Guard(d.session, a.tenants) == Proceed ==>
                  && Served(n, d.session.id, d.session.tenant.value)
                  && (Served(a, d.session.id, d.session.tenant.value) ==> n == a))
  {
    hide Guard, Recorded, Activation;
    var m := Next(a, Ensure(d.session, d.ensuredAt), trialDays);
    NextGrows(a, Ensure(d.session, d.ensuredAt), trialDays);
    NextGrows(m, Apply(d.session, d.appliedAt), trialDays);
    if Guard(d.session, a.tenants) == Proceed {
      NextRecords(a, Ensure(d.session, d.ensuredAt), trialDays);
      NextRecords(m, Apply(d.session, d.appliedAt), trialDays);
    }
  }

  /** Delivering a session again, any number of times and in any order with others, changes nothing. */
  lemma {:induction false} RedeliveryMakesNoDifference(a: Accounts, ds: seq<Delivery>, seen: set<(string, string)>, trialDays: nat)
    requires forall p | p in seen :: Served(a, p.0, p.1)
    ensures Deliveries(a, ds, trialDays) == Deliveries(a, FirstDeliveries(a.tenants, ds, seen), trialDays)
    decreases |ds|
  {
    hide Served, Deliver;
    if ds != [] {
      var d := ds[0];
      var n := Deliver(a, d, trialDays);
      DeliverServes(a, d, trialDays);
      if Guard(d.session, a.tenants) != Proceed {
        RedeliveryMakesNoDifference(n, ds[1..], seen, trialDays);
        FirstDelivery(a, d, FirstDeliveries(a.tenants, ds[1..], seen), trialDays);
      } else {
        var key := (d.session.id, d.session.tenant.value);
        RedeliveryMakesNoDifference(n, ds[1..], seen + {key}, trialDays);
        FirstDelivery(a, d, FirstDeliveries(a.tenants, ds[1..], seen + {key}), trialDays);
        if key in seen {
          assert seen + {key} == seen;
        }
      }
    }
  }

  lemma FirstDelivery(a: Accounts, d: Delivery, rest: seq<Delivery>, trialDays: nat)
    ensures Deliveries(a, [d] + rest, trialDays) == Deliveries(Deliver(a, d, trialDays), rest, trialDays)
  {
    assert ([d] + rest)[1..] == rest;
  }

  // ------------------------------------------------------------ serial order

  /** As the code has it, an application comes after the workspace was ensured. */
  ghost predicate EnsuredFirst(a: Accounts, calls: seq<Call>, trialDays: nat)
    decreases |calls|
  {
    calls != [] ==>
      (calls[0].Apply? && Guard(calls[0].session, a.tenants) == Proceed ==> calls[0].session.tenant.value in a.subscriptions)
      && EnsuredFirst(Next(a, calls[0], trialDays), calls[1..], trialDays)
  }

  /** Whole deliveries in the order in which the sessions were first applied; `waiting` are the
      workspaces ensured so far that no delivery has come for. */
  function Serially(a: Accounts, calls: seq<Call>, waiting: map<string, real>, trialDays: nat): seq<Delivery>
    decreases |calls|
  {
    if calls == [] then [] else
    var c, rest := calls[0], calls[1..];
    if Guard(c.session, a.tenants) != Proceed then Serially(a, rest, waiting, trialDays)
    else match c
      case Ensure(s, now) =>
        var t := s.tenant.value;
        Serially(a, rest, if t in a.subscriptions || t in waiting then waiting else waiting[t := now], trialDays)
      case Apply(s, now) =>
        if Recorded(a.payments, s.id) then Serially(a, rest, waiting, trialDays)
        else
          var t := s.tenant.value;
          var d := Delivery(s, if t in waiting then waiting[t] else now, now);
          [d] + Serially(Deliver(a, d, trialDays), rest, waiting - {t}, trialDays)
  }

  /** `r` is `q` plus first subscriptions for those who wait. */
  ghost predicate Ahead(r: Accounts, q: Accounts, waiting: map<string, real>, trialDays: nat) {
    && r.tenants == q.tenants && r.payments == q.payments
    && (forall t :: t in r.subscriptions <==> t in q.subscriptions || t in waiting)
    && (forall t | t in q.subscriptions :: r.subscriptions[t] == q.subscriptions[t])
    && (forall t | t in waiting :: t !in q.subscriptions && r.subscriptions[t] == FirstSubscription(t, waiting[t], trialDays))
  }

  lemma AheadAfterApply(r: Accounts, q: Accounts, waiting: map<string, real>, s: Session, now: real, trialDays: nat)
    requires Ahead(r, q, waiting, trialDays) && Guard(s, r.tenants) == Proceed && s.tenant.value in r.subscriptions && !Recorded(q.payments, s.id)
    ensures var t := s.tenant.value;
            var d := Delivery(s, if t in waiting then waiting[t] else now, now);
            Ahead(Applied(r, s, now), Deliver(q, d, trialDays), waiting - {t}, trialDays)
  {
    hide Recorded, PaidPeriodEnd, FirstSubscription;
    var t := s.tenant.value;
    var e := Ensured(q, t, if t in waiting then waiting[t] else now, trialDays);
    assert CurrentOf(e, t) == CurrentOf(r, t);
  }

  lemma AheadAfterEnsure(r: Accounts, q: Accounts, waiting: map<string, real>, t: string, now: real, trialDays: nat)
    requires Ahead(r, q, waiting, trialDays)
    ensures Ahead(Ensured(r, t, now, trialDays), q,
                  if t in q.subscriptions || t in waiting then waiting else waiting[t := now], trialDays)
  {
  }

  /** A workspace that was ensured and is in no payment still has its first subscription. */
  ghost predicate OnlyFirst(sub: Subscription, tenant: string, trialDays: nat) {
    exists now: real :: sub == FirstSubscription(tenant, now, trialDays)
  }

  /** Deliveries are serializable: however their store calls interleave, they end as whole deliveries one
      after the other, each session once, in the order of their first application; besides those there
      are only workspaces that were ensured and not applied to yet, with the subscription that gave. */
  lemma {:induction false} InterleavingsAreSerial(r: Accounts, q: Accounts, calls: seq<Call>, waiting: map<string, real>, trialDays: nat)
    requires Ahead(r, q, waiting, trialDays) && EnsuredFirst(r, calls, trialDays)
    ensures var n, ds := Run(r, calls, trialDays), Serially(q, calls, waiting, trialDays);
            var m := Deliveries(q, ds, trialDays);
            && n.payments == m.payments
            && (forall t | t in m.subscriptions :: t in n.subscriptions && n.subscriptions[t] == m.subscriptions[t])
            && (forall t | t in n.subscriptions && t !in m.subscriptions :: OnlyFirst(n.subscriptions[t], t, trialDays))
    ensures var ds := Serially(q, calls, waiting, trialDays);
            && (forall d | d in ds :: !Recorded(q.payments, d.session.id) && Apply(d.session, d.appliedAt) in calls)
            && (forall i, j | 0 <= i < j < |ds| :: ds[i].session.id != ds[j].session.id)
    decreases |calls|
  {
    hide Guard, Recorded, Deliver, Ensured, Applied, FirstSubscription, Ahead;
    if calls == [] {
      NothingLeft(r, q, waiting, trialDays);
    } else {
      var c, rest := calls[0], calls[1..];
      GuardNamesTenant(c.session, r.tenants);
      AheadMeans(r, q, waiting, trialDays);
      if Guard(c.session, r.tenants) != Proceed {
        InterleavingsAreSerial(r, q, rest, waiting, trialDays);
      } else {
        var t := c.session.tenant.value;
        match c
        case Ensure(s, now) =>
          AheadAfterEnsure(r, q, waiting, t, now, trialDays);
          InterleavingsAreSerial(Next(r, c, trialDays), q, rest,
                                 if t in q.subscriptions || t in waiting then waiting else waiting[t := now], trialDays);
        case Apply(s, now) =>
          if Recorded(q.payments, s.id) {
            RecordedIsSkipped(r, s, now);
            InterleavingsAreSerial(r, q, rest, waiting, trialDays);
          } else {
            var d := Delivery(s, if t in waiting then waiting[t] else now, now);
            AheadAfterApply(r, q, waiting, s, now, trialDays);
            InterleavingsAreSerial(Next(r, c, trialDays), Deliver(q, d, trialDays), rest, waiting - {t}, trialDays);
            FirstDelivery(q, d, Serially(Deliver(q, d, trialDays), rest, waiting - {t}, trialDays), trialDays);
            DeliveryRecords(q, d, trialDays);
          }
      }
    }
  }

  /** So from any ledger, for the calls of any interleaving. */
  lemma DeliveriesAreSerializable(a: Accounts, calls: seq<Call>, trialDays: nat)
    requires EnsuredFirst(a, calls, trialDays)
    ensures var n, ds := Run(a, calls, trialDays), Serially(a, calls, map[], trialDays);
            var m := Deliveries(a, ds, trialDays);
            && n.payments == m.payments
            && (forall t | t in m.subscriptions :: CurrentOf(n, t) == CurrentOf(m, t))
            && (forall i, j | 0 <= i < j < |ds| :: ds[i].session.id != ds[j].session.id)
            && ((forall t | t in n.subscriptions :: t in m.subscriptions) ==> n.subscriptions == m.subscriptions)
  {
    InterleavingsAreSerial(a, a, calls, map[], trialDays);
  }

  lemma AheadMeans(r: Accounts, q: Accounts, waiting: map<string, real>, trialDays: nat)
    requires Ahead(r, q, waiting, trialDays)
    ensures r.tenants == q.tenants && r.payments == q.payments
  {
  }

  lemma RecordedIsSkipped(a: Accounts, s: Session, now: real)
    requires Guard(s, a.tenants) == Proceed && Recorded(a.payments, s.id)
    ensures Applied(a, s, now) == a
  {
  }

  lemma NothingLeft(r: Accounts, q: Accounts, waiting: map<string, real>, trialDays: nat)
    requires Ahead(r, q, waiting, trialDays)
    ensures r.payments == q.payments
    ensures forall t | t in q.subscriptions :: t in r.subscriptions && r.subscriptions[t] == q.subscriptions[t]
    ensures forall t | t in r.subscriptions && t !in q.subscriptions :: OnlyFirst(r.subscriptions[t], t, trialDays)
  {
  }

  lemma DeliveryRecords(q: Accounts, d: Delivery, trialDays: nat)
    requires Guard(d.session, q.tenants) == Proceed
    ensures Recorded(Deliver(q, d, trialDays).payments, d.session.id)
    ensures forall id | Recorded(q.payments, id) :: Recorded(Deliver(q, d, trialDays).payments, id)
  {
    hide Guard, Recorded, Activation;
    var m := Next(q, Ensure(d.session, d.ensuredAt), trialDays);
    NextGrows(q, Ensure(d.session, d.ensuredAt), trialDays);
    NextGrows(m, Apply(d.session, d.appliedAt), trialDays);
    NextRecords(m, Apply(d.session, d.appliedAt), trialDays);
  }

  // --------------------------------------------------------- what always holds

  /** The latest row of `tenant` that was paid. */
  function LatestPaid(payments: seq<Payment>, tenant: string): Option<Payment>
    ensures LatestPaid(payments, tenant).Some? ==> LatestPaid(payments, tenant).value.end.Some?
  {
    if payments == [] then None else
    var last := payments[|payments| - 1];
    if last.tenant == tenant && last.end.Some? then Some(last) else LatestPaid(payments[..|payments| - 1], tenant)
  }

  ghost predicate OnePerSession(payments: seq<Payment>) {
    forall i, j | 0 <= i < j < |payments| :: payments[i].id != payments[j].id
  }

  /** A row is `paid` only for the full price in the right currency. */
  predicate FullyPaid(p: Payment) {
    p.end.Some? ==> Sold(p.plan, p.cycle) && p.amount == PriceMinorUnits(p.plan, p.cycle) && p.currency == CURRENCY
  }

  ghost predicate Honoured(a: Accounts, tenant: string) {
    var paid := LatestPaid(a.payments, tenant);
    paid.Some? ==> CurrentOf(a, tenant) == Some(Subscription(paid.value.plan, paid.value.cycle, Active, paid.value.end))
  }

  ghost predicate Balanced(a: Accounts) {
    OnePerSession(a.payments)
    && (forall i | 0 <= i < |a.payments| :: FullyPaid(a.payments[i]))
    && (forall t :: Honoured(a, t))
  }

  lemma AppliedBalanced(a: Accounts, s: Session, now: real)
    requires Guard(s, a.tenants) == Proceed && Balanced(a)
    ensures Balanced(Applied(a, s, now))
  {
    var n := Applied(a, s, now);
    if !Recorded(a.payments, s.id) {
      var k := |a.payments|;
      assert n.payments[..k] == a.payments;
      assert forall i | 0 <= i < k :: a.payments[i].id != s.id;
      forall t ensures Honoured(n, t) {
        assert Honoured(a, t);
      }
    }
  }

  lemma EnsuredBalanced(a: Accounts, tenant: string, now: real, trialDays: nat)
    requires Balanced(a)
    ensures Balanced(Ensured(a, tenant, now, trialDays))
  {
    forall t ensures Honoured(Ensured(a, tenant, now, trialDays), t) {
      assert Honoured(a, t);
    }
  }

  /** In every interleaving, without operator edits: one row per session; no row is `paid` for less
      than the price; and each workspace's plan, cycle and end are those of its latest paid row. */
  lemma {:induction false} LedgerIsBalanced(a: Accounts, calls: seq<Call>, trialDays: nat)
    requires Balanced(a)
    ensures Balanced(Run(a, calls, trialDays))
    decreases |calls|
  {
    hide Balanced, Ensured, Applied;
    if calls != [] {
      var c := calls[0];
      if Guard(c.session, a.tenants) == Proceed {
        match c {
          case Ensure(s, now) => EnsuredBalanced(a, s.tenant.value, now, trialDays);
          case Apply(s, now) => AppliedBalanced(a, s, now);
        }
      }
      LedgerIsBalanced(Next(a, c, trialDays), calls[1..], trialDays);
    }
  }

  /** A new payment is kept for review exactly when it is not the full price or the workspace is a
      house account; then no subscription changes. Otherwise just this workspace's does. */
  lemma ReviewChangesNoSubscription(a: Accounts, s: Session, now: real)
    requires Guard(s, a.tenants) == Proceed && !Recorded(a.payments, s.id)
    ensures var n, current := Applied(a, s, now), CurrentOf(a, s.tenant.value);
            && |n.payments| == |a.payments| + 1 && n.payments[|a.payments|].id == s.id
            && (n.payments[|a.payments|].end.None? <==>
                  s.amount != Some(ListPrice(s.plan, s.cycle)) || s.currency != "cny"
                  || (current.Some? && current.value.status == Active && current.value.end.None?))
            && (n.payments[|a.payments|].end.None? ==> n.subscriptions == a.subscriptions)
            && (n.payments[|a.payments|].end.Some? ==>
                  CurrentOf(n, s.tenant.value) == Some(Paid(current, s.plan, s.cycle, 1, now))
                  && now + PeriodDays(s.cycle) as real <= n.payments[|a.payments|].end.value)
            && (forall t | t != s.tenant.value :: CurrentOf(n, t) == CurrentOf(a, t))
  {
    NeverShort(CurrentOf(a, s.tenant.value), s.plan, s.cycle, 1, now);
  }

  /** Nothing that is delivered touches an account that is active without an end. */
  lemma {:induction false} HouseAccountStays(a: Accounts, calls: seq<Call>, tenant: string, trialDays: nat)
    requires HasNoEndDate(CurrentOf(a, tenant))
    ensures CurrentOf(Run(a, calls, trialDays), tenant) == CurrentOf(a, tenant)
    ensures LatestPaid(Run(a, calls, trialDays).payments, tenant) == LatestPaid(a.payments, tenant)
    decreases |calls|
  {
    if calls != [] {
      var n := Next(a, calls[0], trialDays);
      if n.payments != a.payments {
        assert n.payments[..|a.payments|] == a.payments;
      }
      HouseAccountStays(n, calls[1..], tenant, trialDays);
    }
  }

  // ------------------------------------------------------- who gets what for what

  /** The price list, in fen. */
  function ListPrice(plan: Plan, cycle: Cycle): int {
    match (plan, cycle)
    case (Pro, Monthly) => 6600
    case (Pro, Annual) => 66600
    case (Agency, Monthly) => 16600
    case (Agency, Annual) => 166600
    case _ => 0
  }

  /** A purchase of a plan by a workspace that exists, reported paid. */
  predicate IsPurchase(s: Session, tenants: set<string>) {
    "cs_" <= s.id && s.mode == "payment" && s.paymentStatus == "paid"
    && s.tenant.Some? && s.tenant.value in tenants && (s.reference.Some? ==> s.reference.value == s.tenant.value)
    && (s.plan == Pro || s.plan == Agency) && (s.cycle == Monthly || s.cycle == Annual)
  }

  /** The row of a purchase: its own id, workspace, plan and amount; paid only for the list price. */
  predicate RowOf(row: Payment, s: Session) {
    row.id == s.id && s.tenant == Some(row.tenant) && row.plan == s.plan && row.cycle == s.cycle
    && row.amount == s.amount.GetOr(0) && (s.currency != "" ==> row.currency == s.currency)
    && (row.end.Some? ==> s.amount == Some(ListPrice(s.plan, s.cycle)) && s.currency == "cny")
  }

  lemma OnlyPurchasesProceed(s: Session, tenants: set<string>)
    ensures Guard(s, tenants) == Proceed <==> IsPurchase(s, tenants)
    ensures s.paymentStatus != "paid" ==> Guard(s, tenants) != Proceed
  {
  }

  ghost predicate Explained(row: Payment, calls: seq<Call>, tenants: set<string>) {
    exists c :: c in calls && c.Apply? && IsPurchase(c.session, tenants) && RowOf(row, c.session)
  }

  /** In every interleaving: every new row is that of a purchase some call applied, and every purchase
      that was applied has its row. */
  lemma {:induction false} RowsArePurchases(a: Accounts, calls: seq<Call>, trialDays: nat)
    ensures var n := Run(a, calls, trialDays);
            && a.payments <= n.payments && n.tenants == a.tenants
            && (forall i | |a.payments| <= i < |n.payments| :: Explained(n.payments[i], calls, a.tenants))
            && (forall id :: Recorded(n.payments, id) <==>
                  Recorded(a.payments, id) || exists c :: c in calls && c.Apply? && IsPurchase(c.session, a.tenants) && c.session.id == id)
    decreases |calls|
  {
    hide Guard, IsPurchase, RowOf, Recorded;
    if calls != [] {
      var c, rest := calls[0], calls[1..];
      var n, m := Next(a, c, trialDays), Run(a, calls, trialDays);
      RowsArePurchases(n, rest, trialDays);
      NextAddsItsRow(a, c, trialDays);
      assert forall d :: d in calls <==> d == c || d in rest;
      forall i | |a.payments| <= i < |m.payments| ensures Explained(m.payments[i], calls, a.tenants) {
        if i < |n.payments| {
          assert m.payments[i] == n.payments[i];
        } else {
          assert Explained(m.payments[i], rest, a.tenants);
        }
      }
    }
  }

  lemma NextAddsItsRow(a: Accounts, c: Call, trialDays: nat)
    ensures var n := Next(a, c, trialDays);
            && n.tenants == a.tenants
            && (n.payments == a.payments
                || (c.Apply? && IsPurchase(c.session, a.tenants) && |n.payments| == |a.payments| + 1 && a.payments <= n.payments
                    && RowOf(n.payments[|a.payments|], c.session)))
            && (forall id :: Recorded(n.payments, id) <==>
                  Recorded(a.payments, id) || (c.Apply? && IsPurchase(c.session, a.tenants) && c.session.id == id))
  {
    OnlyPurchasesProceed(c.session, a.tenants);
    NextGrows(a, c, trialDays);
    if IsPurchase(c.session, a.tenants) {
      NextRecords(a, c, trialDays);
    }
  }

  /** Nothing whatever comes of sessions that are not reported paid. */
  lemma {:induction false} UnpaidChangesNothing(a: Accounts, calls: seq<Call>, trialDays: nat)
    requires forall c | c in calls :: c.session.paymentStatus != "paid"
    ensures Run(a, calls, trialDays) == a
    decreases |calls|
  {
    if calls != [] {
      OnlyPurchasesProceed(calls[0].session, a.tenants);
      UnpaidChangesNothing(a, calls[1..], trialDays);
    }
  }

  /** What a delivery answers says what it did. */
  lemma WhatTheAnswerSays(a: Accounts, d: Delivery, trialDays: nat)
    ensures var n, answer, s := Deliver(a, d, trialDays), AnswerTo(a, d, trialDays), d.session;
            && (answer == Activated <==> |n.payments| == |a.payments| + 1 && n.payments[|a.payments|].end.Some?)
            && (answer == Review <==> |n.payments| == |a.payments| + 1 && n.payments[|a.payments|].end.None?)
            && (answer == Duplicate <==> IsPurchase(s, a.tenants) && exists p :: p in a.payments && p.id == s.id)
            && (answer == AnswerPending ==> s.paymentStatus != "paid" && n == a)
            && (answer == AnswerIgnored ==> !IsPurchase(s, a.tenants) && n == a)
            && (answer == Duplicate ==> n.payments == a.payments && forall t | t in a.subscriptions :: CurrentOf(n, t) == CurrentOf(a, t))
    ensures var s := d.session;
            AnswerTo(a, d, trialDays) == AnswerPending <==>
              s.paymentStatus != "paid" && s.tenant.Some? && IsPurchase(s.(paymentStatus := "paid"), a.tenants + {s.tenant.value})
  {
    OnlyPurchasesProceed(d.session, a.tenants);
    if Guard(d.session, a.tenants) == Proceed {
      var e := Ensured(a, d.session.tenant.value, d.ensuredAt, trialDays);
      assert Deliver(a, d, trialDays) == Applied(e, d.session, d.appliedAt);
      if p :| p in a.payments && p.id == d.session.id {
        assert Recorded(a.payments, d.session.id);
      }
    }
  }

  ghost predicate OneHouse(a: Accounts) {
    forall t | t in a.subscriptions && a.subscriptions[t].end.None? :: t == "default"
  }

  /** Being delivered to never gives a workspace an account without an end, but for the default one. */
  lemma {:induction false} OnlyTheHouseHasNoEnd(a: Accounts, calls: seq<Call>, trialDays: nat)
    requires OneHouse(a)
    ensures OneHouse(Run(a, calls, trialDays))
    decreases |calls|
  {
    hide Next;
    if calls != [] {
      NextGivesAnEnd(a, calls[0], trialDays);
      OnlyTheHouseHasNoEnd(Next(a, calls[0], trialDays), calls[1..], trialDays);
    }
  }

  lemma NextGivesAnEnd(a: Accounts, c: Call, trialDays: nat)
    ensures var n := Next(a, c, trialDays);
            forall t | t in n.subscriptions && n.subscriptions[t].end.None? :: (t in a.subscriptions && a.subscriptions[t].end.None?) || t == "default"
  {
    hide Recorded, PaidInFull, PaidPeriodEnd;
  }

  // --------------------------------------------------------- no day gets lost

  /** The days `tenant` has paid for. */
  function DaysPaid(payments: seq<Payment>, tenant: string): nat {
    if payments == [] then 0 else
    var last := payments[|payments| - 1];
    DaysPaid(payments[..|payments| - 1], tenant)
      + (if last.tenant == tenant && last.end.Some? && !last.cycle.OtherCycle? then PeriodDays(last.cycle) else 0)
  }

  /** Every payment of `tenant` comes while its plan is running, and is for that plan. */
  ghost predicate AlwaysRenews(a: Accounts, calls: seq<Call>, tenant: string, trialDays: nat)
    decreases |calls|
  {
    calls != [] ==>
      var n := Next(a, calls[0], trialDays);
      (CurrentOf(n, tenant) != CurrentOf(a, tenant) ==>
         tenant in a.subscriptions && a.subscriptions[tenant].plan == calls[0].session.plan && Running(a.subscriptions[tenant], calls[0].now))
      && AlwaysRenews(n, calls[1..], tenant, trialDays)
  }

  /** Then the end moves by exactly the days paid for, however often and early it renews and whatever
      trial it started from. */
  lemma {:induction false} DaysAddUp(a: Accounts, calls: seq<Call>, tenant: string, trialDays: nat)
    requires tenant in a.subscriptions && a.subscriptions[tenant].end.Some? && AlwaysRenews(a, calls, tenant, trialDays)
    ensures var n := Run(a, calls, trialDays);
            && tenant in n.subscriptions && n.subscriptions[tenant].end.Some?
            && n.subscriptions[tenant].end.value - a.subscriptions[tenant].end.value ==
               (DaysPaid(n.payments, tenant) - DaysPaid(a.payments, tenant)) as real
    decreases |calls|
  {
    hide Guard, Recorded, Next;
    if calls != [] {
      var n := Next(a, calls[0], trialDays);
      DaysAdded(a, calls[0], tenant, trialDays);
      DaysAddUp(n, calls[1..], tenant, trialDays);
    }
  }

  lemma DaysAdded(a: Accounts, c: Call, tenant: string, trialDays: nat)
    requires tenant in a.subscriptions && a.subscriptions[tenant].end.Some?
    requires CurrentOf(Next(a, c, trialDays), tenant) != CurrentOf(a, tenant) ==>
               a.subscriptions[tenant].plan == c.session.plan && Running(a.subscriptions[tenant], c.now)
    ensures var n := Next(a, c, trialDays);
            && tenant in n.subscriptions && n.subscriptions[tenant].end.Some?
            && n.subscriptions[tenant].end.value - a.subscriptions[tenant].end.value ==
               (DaysPaid(n.payments, tenant) - DaysPaid(a.payments, tenant)) as real
  {
    hide PaidPeriodEnd, DaysPaid, Recorded, Running;
    var n := Next(a, c, trialDays);
    if n.payments != a.payments {
      var s, sub := c.session, a.subscriptions[tenant];
      var last := n.payments[|a.payments|];
      OneMoreRow(a.payments, last, tenant);
      if last.tenant == tenant && last.end.Some? {
        NeverShort(Some(sub), s.plan, s.cycle, 1, c.now);
        if Running(sub, c.now) && sub.plan == s.plan {
          RenewalConservesDays(sub, s.cycle, 1, c.now);
        } else {
          assert CurrentOf(n, tenant) == CurrentOf(a, tenant);
          StillRunning(sub, c.now, s.cycle);
        }
      }
    }
  }

  lemma StillRunning(sub: Subscription, now: real, cycle: Cycle)
    requires !cycle.OtherCycle? && sub.status == Active && sub.end.Some? && now + Bought(cycle, 1) <= sub.end.value
    ensures Running(sub, now)
  {
  }

  lemma OneMoreRow(payments: seq<Payment>, row: Payment, tenant: string)
    ensures DaysPaid(payments + [row], tenant) == DaysPaid(payments, tenant)
              + (if row.tenant == tenant && row.end.Some? && !row.cycle.OtherCycle? then PeriodDays(row.cycle) else 0)
  {
    assert (payments + [row])[..|payments|] == payments;
  }

  // ------------------------------------------------------------- the operator

  /** `activate` of scripts/set_plan.py. */
  function Operated(a: Accounts, tenant: string, plan: Plan, cycle: Cycle, periods: nat, now: real, trialDays: nat): Accounts
    requires Sold(plan, cycle)
  {
    var e := Ensured(a, tenant, now, trialDays);
    e.(subscriptions := e.subscriptions[tenant := Paid(CurrentOf(e, tenant), plan, cycle, periods, now)])
  }

  function AllAt(sessions: seq<Session>, now: real): seq<Delivery> {
    seq(|sessions|, i requires 0 <= i < |sessions| => Delivery(sessions[i], now, now))
  }

  ghost predicate FreshPurchases(a: Accounts, sessions: seq<Session>, tenant: string, plan: Plan, cycle: Cycle)
    requires Sold(plan, cycle)
  {
    (forall i | 0 <= i < |sessions| ::
       Guard(sessions[i], a.tenants) == Proceed && sessions[i].tenant == Some(tenant) && sessions[i].plan == plan
       && sessions[i].cycle == cycle && PaidInFull(sessions[i]) && !Recorded(a.payments, sessions[i].id))
    && (forall i, j | 0 <= i < j < |sessions| :: sessions[i].id != sessions[j].id)
  }

  lemma OnePurchase(a: Accounts, sessions: seq<Session>, tenant: string, plan: Plan, cycle: Cycle, now: real, trialDays: nat)
    requires Sold(plan, cycle) && sessions != [] && FreshPurchases(a, sessions, tenant, plan, cycle)
    requires !HasNoEndDate(CurrentOf(Ensured(a, tenant, now, trialDays), tenant))
    ensures var n := Deliver(a, Delivery(sessions[0], now, now), trialDays);
            && CurrentOf(n, tenant) == Some(Paid(CurrentOf(Ensured(a, tenant, now, trialDays), tenant), plan, cycle, 1, now))
            && FreshPurchases(n, sessions[1..], tenant, plan, cycle)
  {
    var n := Deliver(a, Delivery(sessions[0], now, now), trialDays);
    assert n.payments == a.payments + [Entry(sessions[0], tenant, n.subscriptions[tenant].end)];
    forall i | 1 <= i < |sessions| ensures !Recorded(n.payments, sessions[i].id) {
      assert !Recorded(a.payments, sessions[i].id);
    }
  }

  lemma {:induction false} PurchasesCompose(a: Accounts, sessions: seq<Session>, tenant: string, plan: Plan, cycle: Cycle, now: real, trialDays: nat)
    requires Sold(plan, cycle) && sessions != [] && FreshPurchases(a, sessions, tenant, plan, cycle)
    requires !HasNoEndDate(CurrentOf(Ensured(a, tenant, now, trialDays), tenant))
    ensures CurrentOf(Deliveries(a, AllAt(sessions, now), trialDays), tenant) ==
            Some(Paid(CurrentOf(Ensured(a, tenant, now, trialDays), tenant), plan, cycle, |sessions|, now))
    decreases |sessions|
  {
    hide Guard, Recorded, Deliver, PaidPeriodEnd, FreshPurchases;
    var current := CurrentOf(Ensured(a, tenant, now, trialDays), tenant);
    var n := Deliver(a, Delivery(sessions[0], now, now), trialDays);
    OnePurchase(a, sessions, tenant, plan, cycle, now, trialDays);
    assert AllAt(sessions, now)[1..] == AllAt(sessions[1..], now);
    if |sessions| > 1 {
      PurchasesCompose(n, sessions[1..], tenant, plan, cycle, now, trialDays);
      PaymentsCompose(current, plan, cycle, 1, |sessions| - 1, now);
    }
  }

  lemma {:induction false} PurchasesSpareHouse(a: Accounts, ds: seq<Delivery>, tenant: string, trialDays: nat)
    requires HasNoEndDate(CurrentOf(a, tenant))
    ensures CurrentOf(Deliveries(a, ds, trialDays), tenant) == CurrentOf(a, tenant)
    decreases |ds|
  {
    if ds != [] {
      PurchasesSpareHouse(Deliver(a, ds[0], trialDays), ds[1..], tenant, trialDays);
    }
  }

  /** The operator's activation for some periods and as many full payments at that instant leave the
      same subscription, unless the account has no end: the operator gives it one, payments never do. */
  lemma OperatorIsAsManyPayments(a: Accounts, sessions: seq<Session>, tenant: string, plan: Plan, cycle: Cycle, now: real, trialDays: nat)
    requires Sold(plan, cycle) && sessions != [] && FreshPurchases(a, sessions, tenant, plan, cycle)
    ensures CurrentOf(Operated(a, tenant, plan, cycle, |sessions|, now, trialDays), tenant) ==
            CurrentOf(Deliveries(a, AllAt(sessions, now), trialDays), tenant)
            <==> !HasNoEndDate(CurrentOf(Ensured(a, tenant, now, trialDays), tenant))
  {
    if HasNoEndDate(CurrentOf(Ensured(a, tenant, now, trialDays), tenant)) {
      var d := AllAt(sessions, now)[0];
      assert d == Delivery(sessions[0], now, now);
      var n := Deliver(a, d, trialDays);
      assert CurrentOf(n, tenant) == CurrentOf(Ensured(a, tenant, now, trialDays), tenant);
      PurchasesSpareHouse(n, AllAt(sessions, now)[1..], tenant, trialDays);
    } else {
      PurchasesCompose(a, sessions, tenant, plan, cycle, now, trialDays);
    }
  }

  // ------------------------------------------- calls between its read and its save

  /** What `activate` leaves when it saves at `n` what it computed from the subscription it `read`. */
  function OperatedFrom(n: Accounts, read: Option<Subscription>, tenant: string, plan: Plan, cycle: Cycle, periods: nat, now: real): Accounts
    requires Sold(plan, cycle)
  {
    n.(subscriptions := n.subscriptions[tenant := Paid(read, plan, cycle, periods, now)])
  }

  /** A call that is no new full payment of `tenant`. */
  predicate Spares(a: Accounts, c: Call, tenant: string) {
    c.Apply? && c.session.tenant == Some(tenant) && Guard(c.session, a.tenants) == Proceed ==>
      Recorded(a.payments, c.session.id) || !PaidInFull(c.session)
  }

  lemma {:induction false} SparedStays(a: Accounts, calls: seq<Call>, tenant: string, trialDays: nat)
    requires tenant in a.subscriptions && forall c | c in calls :: Spares(a, c, tenant)
    ensures CurrentOf(Run(a, calls, trialDays), tenant) == CurrentOf(a, tenant)
    decreases |calls|
  {
    hide Guard, Recorded, PaidInFull;
    if calls != [] {
      var n := Next(a, calls[0], trialDays);
      NextGrows(a, calls[0], trialDays);
      forall c | c in calls[1..] ensures Spares(n, c, tenant) {
        assert Spares(a, c, tenant);
      }
      SpareStep(a, calls[0], tenant, trialDays);
      SparedStays(n, calls[1..], tenant, trialDays);
    }
  }

  lemma SpareStep(a: Accounts, c: Call, tenant: string, trialDays: nat)
    requires tenant in a.subscriptions && Spares(a, c, tenant)
    ensures CurrentOf(Next(a, c, trialDays), tenant) == CurrentOf(a, tenant)
  {
  }

  /** The operator's read and save are two store calls. It ends as if they had been one, at the save, if
      and only if the period starts at the same time from the subscription that was read as from the one
      it overwrites; so it does when no new full payment of the workspace comes in between. */
  lemma OperatorReadsBeforeItSaves(a: Accounts, calls: seq<Call>, tenant: string, plan: Plan, cycle: Cycle, periods: nat, now: real, trialDays: nat)
    requires Sold(plan, cycle) && tenant in a.subscriptions
    ensures var n := Run(a, calls, trialDays);
            var asOne := OperatedFrom(n, CurrentOf(a, tenant), tenant, plan, cycle, periods, now) ==
                         Operated(n, tenant, plan, cycle, periods, now, trialDays);
            && (asOne <==> PeriodStart(CurrentOf(a, tenant), plan, cycle, now) == PeriodStart(CurrentOf(n, tenant), plan, cycle, now))
            && ((forall c | c in calls :: Spares(a, c, tenant)) ==> asOne)
  {
    hide PeriodStart, Spares;
    var n := Run(a, calls, trialDays);
    StillSubscribed(a, calls, tenant, trialDays);
    var late := OperatedFrom(n, CurrentOf(a, tenant), tenant, plan, cycle, periods, now);
    var asOne := Operated(n, tenant, plan, cycle, periods, now, trialDays);
    assert late.subscriptions[tenant] == asOne.subscriptions[tenant] ==> late == asOne;
    if forall c | c in calls :: Spares(a, c, tenant) {
      SparedStays(a, calls, tenant, trialDays);
    }
  }

  lemma {:induction false} StillSubscribed(a: Accounts, calls: seq<Call>, tenant: string, trialDays: nat)
    requires tenant in a.subscriptions
    ensures tenant in Run(a, calls, trialDays).subscriptions
    decreases |calls|
  {
    hide Next;
    if calls != [] {
      NextGrows(a, calls[0], trialDays);
      StillSubscribed(Next(a, calls[0], trialDays), calls[1..], tenant, trialDays);
    }
  }

  lemma {:induction false} RenewalsKeepPlan(a: Accounts, calls: seq<Call>, tenant: string, trialDays: nat)
    requires tenant in a.subscriptions && AlwaysRenews(a, calls, tenant, trialDays)
    requires a.subscriptions[tenant].status in {Active, Trial}
    ensures var n := Run(a, calls, trialDays);
            tenant in n.subscriptions && n.subscriptions[tenant].plan == a.subscriptions[tenant].plan
            && n.subscriptions[tenant].status in {Active, Trial}
    decreases |calls|
  {
    hide Guard, Recorded, PaidPeriodEnd;
    if calls != [] {
      NextGrows(a, calls[0], trialDays);
      RenewalsKeepPlan(Next(a, calls[0], trialDays), calls[1..], tenant, trialDays);
    }
  }

  lemma {:induction false} PaidOnlyGrows(a: Accounts, calls: seq<Call>, tenant: string, trialDays: nat)
    ensures DaysPaid(a.payments, tenant) <= DaysPaid(Run(a, calls, trialDays).payments, tenant)
    decreases |calls|
  {
    hide Guard, Recorded, Activation;
    if calls != [] {
      var n := Next(a, calls[0], trialDays);
      if n.payments != a.payments {
        OneMoreRow(a.payments, n.payments[|a.payments|], tenant);
      }
      PaidOnlyGrows(n, calls[1..], tenant, trialDays);
    }
  }

  /** What a payment in between costs: when the plan that is running is renewed by deliveries between the
      operator's read and its save, its save takes back exactly the days they were paid for. */
  lemma OverwrittenRenewals(a: Accounts, calls: seq<Call>, tenant: string, cycle: Cycle, periods: nat, now: real, trialDays: nat)
    requires tenant in a.subscriptions && Running(a.subscriptions[tenant], now) && Sold(a.subscriptions[tenant].plan, cycle)
    requires AlwaysRenews(a, calls, tenant, trialDays)
    ensures var n, plan := Run(a, calls, trialDays), a.subscriptions[tenant].plan;
            var asOne, late := Operated(n, tenant, plan, cycle, periods, now, trialDays),
                               OperatedFrom(n, CurrentOf(a, tenant), tenant, plan, cycle, periods, now);
            && asOne.subscriptions[tenant].end.Some? && late.subscriptions[tenant].end.Some?
            && asOne.subscriptions[tenant].end.value - late.subscriptions[tenant].end.value ==
               (DaysPaid(n.payments, tenant) - DaysPaid(a.payments, tenant)) as real
            && (late == asOne <==> DaysPaid(n.payments, tenant) == DaysPaid(a.payments, tenant))
  {
    hide PaidPeriodEnd, DaysPaid, AlwaysRenews, Run;
    var n, sub := Run(a, calls, trialDays), a.subscriptions[tenant];
    DaysAddUp(a, calls, tenant, trialDays);
    RenewalsKeepPlan(a, calls, tenant, trialDays);
    PaidOnlyGrows(a, calls, tenant, trialDays);
    RenewalConservesDays(sub, cycle, periods, now);
    RenewalConservesDays(n.subscriptions[tenant], cycle, periods, now);
    var late := OperatedFrom(n, CurrentOf(a, tenant), tenant, sub.plan, cycle, periods, now);
    var asOne := Operated(n, tenant, sub.plan, cycle, periods, now, trialDays);
    assert late.subscriptions[tenant] == asOne.subscriptions[tenant] ==> late == asOne;
  }
}
