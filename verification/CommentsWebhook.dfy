/** Which workspaces a page's comments go to, and the loop that stores them (app/routers/comments.py). */
module CommentsWebhook {
  import opened Workspaces
  import opened Comments
  import opened SqliteStore
  import Channels

  /** A workspace has a page when it has connected it, and the default one also the configured page. */
  predicate HasPage(accounts: Channels.Accounts, tenant: string, page: string, ownPage: string) {
    (var id := Channels.AccountId(tenant, "meta", page); id in accounts && accounts[id].status == "connected")
    || (tenant == "default" && page == ownPage)
  }

  /** `tenants_for_page`: everyone who has the page connected, and the default workspace when it is
      the page configured for the process. */
  function TenantsForPage(accounts: Channels.Accounts, page: string, ownPage: string): (tenants: set<string>)
    ensures forall t :: t in tenants <==> HasPage(accounts, t, page, ownPage)
  {
    (set id | id in accounts && id.platform == "meta" && id.accountId == page && accounts[id].status == "connected" :: id.tenant)
      + (if page == ownPage then {DEFAULT_TENANT} else {})
  }

  /** The comments meant for `key`, oldest first: those whose page belongs to its workspace. */
  function Meant(accounts: Channels.Accounts, ownPage: string, events: seq<Comment>, key: (string, string)): seq<Comment> {
    if events == [] then [] else
    var c, before := events[|events| - 1], Meant(accounts, ownPage, events[..|events| - 1], key);
    if c.commentId == key.1 && HasPage(accounts, key.0, c.pageId, ownPage) then before + [c] else before
  }

  /** Some event is a comment of this id on a page of this workspace. */
  ghost predicate IsSent(accounts: Channels.Accounts, ownPage: string, events: seq<Comment>, key: (string, string)) {
    exists c :: c in events && c.commentId == key.1 && HasPage(accounts, key.0, c.pageId, ownPage)
  }

  lemma {:induction false} MeantIsSent(accounts: Channels.Accounts, ownPage: string, events: seq<Comment>, key: (string, string))
    ensures Meant(accounts, ownPage, events, key) != [] <==> IsSent(accounts, ownPage, events, key)
  {
    hide HasPage;
    if events != [] {
      var n := |events| - 1;
      MeantIsSent(accounts, ownPage, events[..n], key);
      assert events == events[..n] + [events[n]];
    }
  }

  /** What `n` must hold for `key` after the events, when `t` was there before: a comment if it was there
      or was sent; the newest value of every field if it was sent; and what it was if it was not. */
  ghost predicate Delivered(t: Table, n: Table, accounts: Channels.Accounts, ownPage: string, events: seq<Comment>, key: (string, string)) {
    var cs := Meant(accounts, ownPage, events, key);
    && (key in n <==> key in t || IsSent(accounts, ownPage, events, key))
    && (!IsSent(accounts, ownPage, events, key) && key in t ==> n[key] == t[key])
    && (cs != [] <==> IsSent(accounts, ownPage, events, key))
    && (cs != [] && key in n ==> Holds(n[key].comment, Before(t, key) + cs))
  }

  lemma KeyDelivered(t: Table, log: seq<Event>, accounts: Channels.Accounts, ownPage: string, events: seq<Comment>, key: (string, string))
    requires For(log, key) == Meant(accounts, ownPage, events, key)
    ensures Delivered(t, Run(t, log), accounts, ownPage, events, key)
  {
    hide Holds, HasPage;
    RowsHoldTheLatest(t, log, key);
    MeantIsSent(accounts, ownPage, events, key);
  }

  lemma OneMore(t: Table, log: seq<Event>, e: Event)
    ensures Run(t, log + [e]) == Saved(Run(t, log), e.tenant, e.comment, e.now)
    ensures forall key :: For(log + [e], key) == For(log, key) + (if (e.tenant, e.comment.commentId) == key then [e.comment] else [])
  {
    assert (log + [e])[..|log|] == log;
  }

  lemma NothingYet(t: Table)
    ensures Run(t, []) == t
  {
  }

  /** `_persist`, with the clock of the k-th save. It stores each event for every workspace it is meant
      for and for no other, in the order of delivery, and counts the saves; `log` lists them. So each
      workspace's comment holds the newest value of every field among what it had and the events of its
      own pages. */
  method Persist(store: Store, events: seq<Comment>, ownPage: string, clock: nat -> nat) returns (stored: nat, ghost log: seq<Event>)
    modifies store`comments
    ensures store.comments == Run(old(store.comments), log) && stored == |log|
    ensures forall key :: For(log, key) == Meant(store.accounts, ownPage, events, key)
    ensures forall key :: Delivered(old(store.comments), store.comments, store.accounts, ownPage, events, key)
  {
    hide Delivered, HasPage, Run;
    stored, log := 0, [];
    NothingYet(store.comments);
    var i := 0;
    while i < |events|
      invariant 0 <= i <= |events| && stored == |log|
      invariant store.comments == Run(old(store.comments), log)
      invariant forall key :: For(log, key) == Meant(store.accounts, ownPage, events[..i], key)
    {
      var c := events[i];
      var rest := TenantsForPage(store.accounts, c.pageId, ownPage);
      ghost var before, done := log, {};
      while rest != {}
        invariant done + rest == TenantsForPage(store.accounts, c.pageId, ownPage) && done !! rest && stored == |log|
        invariant store.comments == Run(old(store.comments), log)
        invariant forall key :: For(log, key) == For(before, key) + (if c.commentId == key.1 && key.0 in done then [c] else [])
        decreases rest
      {
        var tenant :| tenant in rest;
        OneMore(old(store.comments), log, Event(tenant, c, clock(stored)));
        store.SavePageComment(c, tenant, clock(stored));
        log := log + [Event(tenant, c, clock(stored))];
        stored := stored + 1;
        rest, done := rest - {tenant}, done + {tenant};
      }
      assert events[..i + 1][..i] == events[..i];
      i := i + 1;
    }
    assert events[..|events|] == events;
    forall key ensures Delivered(old(store.comments), store.comments, store.accounts, ownPage, events, key) {
      KeyDelivered(old(store.comments), log, store.accounts, ownPage, events, key);
    }
  }
}
