/**
 Connected channels and the plan's channel cap: the gate's cached set of keys (app/dependencies/limits.py,
 app/plans.py), the account rows (db/sqlite_store.py) and the page loops of the Facebook login callback
 (app/routers/meta_oauth.py). Platform names are in lower case, as every save leaves them.
 */
module Channels {
  import opened Wrappers

  /** A row of `connected_accounts`. */
  datatype Account = Account(rowId: string, user: string, name: string, token: string, status: string, permissions: seq<string>,
                             createdAt: nat, updatedAt: nat)

  /** What a save looks a row up by. */
  datatype AccountId = AccountId(tenant: string, platform: string, accountId: string)

  type Accounts = map<AccountId, Account>

  datatype ChannelKey = PerWorkspace(platform: string) | PerAccount(platform: string, accountId: string)

  datatype Page = Page(id: string, name: string, token: string, tasks: seq<string>)

  predicate MultiAccount(platform: string) {
    platform == "meta" || platform == "instagram" || platform == "meta_ads"
  }

  /** `channel_key`. */
  function KeyOf(platform: string, accountId: string): ChannelKey {
    if MultiAccount(platform) then PerAccount(platform, accountId) else PerWorkspace(platform)
  }

  predicate IsChannel(id: AccountId, account: Account, tenant: string) {
    id.tenant == tenant && id.platform != "webhook" && account.status == "connected"
  }

  /** `connected_channel_keys` over the rows of one workspace. */
  function ConnectedKeys(accounts: Accounts, tenant: string): set<ChannelKey> {
    set id | id in accounts && IsChannel(id, accounts[id], tenant) :: KeyOf(id.platform, id.accountId)
  }

  /** The keys of a workspace are those of its connected rows other than the webhook. */
  lemma KeysAreConnected(accounts: Accounts, tenant: string, key: ChannelKey)
    ensures key in ConnectedKeys(accounts, tenant) <==>
            exists id :: id in accounts && id.tenant == tenant && id.platform != "webhook" && accounts[id].status == "connected"
                         && KeyOf(id.platform, id.accountId) == key
  {
    if key in ConnectedKeys(accounts, tenant) {
      var id :| id in accounts && IsChannel(id, accounts[id], tenant) && KeyOf(id.platform, id.accountId) == key;
      assert id.tenant == tenant;
    }
    if id :| id in accounts && id.tenant == tenant && id.platform != "webhook" && accounts[id].status == "connected"
             && KeyOf(id.platform, id.accountId) == key {
      assert IsChannel(id, accounts[id], tenant);
    }
  }

  /** Pages, Instagram accounts and ad accounts count one each, every other platform once; the webhook
      never counts, nor does a row that is not connected. */
  lemma WhatCounts(accounts: Accounts, tenant: string, a: AccountId, b: AccountId)
    requires a in accounts && b in accounts && IsChannel(a, accounts[a], tenant) && IsChannel(b, accounts[b], tenant)
    ensures KeyOf(a.platform, a.accountId) in ConnectedKeys(accounts, tenant)
    ensures KeyOf(a.platform, a.accountId) == KeyOf(b.platform, b.accountId) <==>
            a.platform == b.platform && (a.platform in {"meta", "instagram", "meta_ads"} ==> a.accountId == b.accountId)
    ensures PerWorkspace("webhook") !in ConnectedKeys(accounts, tenant)
  {
  }

  lemma UnconnectedDoesNotCount(accounts: Accounts, tenant: string, id: AccountId)
    requires id in accounts && !IsChannel(id, accounts[id], tenant)
    ensures ConnectedKeys(accounts, tenant) == ConnectedKeys(accounts - {id}, tenant)
  {
    forall k | k in ConnectedKeys(accounts, tenant) ensures k in ConnectedKeys(accounts - {id}, tenant) {
      var other :| other in accounts && IsChannel(other, accounts[other], tenant) && KeyOf(other.platform, other.accountId) == k;
      assert other in accounts - {id};
    }
  }

  // -------------------------------------------------------------------- the gate

  /** Does `require_channel_slot` let this key through? */
  predicate Admits(keys: set<ChannelKey>, cap: nat, key: ChannelKey) {
    key in keys || |keys| < cap
  }

  /** What the callback has accepted, the gate's keys and the count of pages over the cap. */
  datatype Sorted = Sorted(usable: seq<Page>, keys: set<ChannelKey>, skipped: nat)

  function PageKey(page: Page): ChannelKey {
    KeyOf("meta", page.id)
  }

  function Sort(keys: set<ChannelKey>, cap: nat, pages: seq<Page>): Sorted {
    if pages == [] then Sorted([], keys, 0) else
    var before := Sort(keys, cap, pages[..|pages| - 1]);
    var page := pages[|pages| - 1];
    if Admits(before.keys, cap, PageKey(page)) then
      Sorted(before.usable + [page], before.keys + {PageKey(page)}, before.skipped)
    else before.(skipped := before.skipped + 1)
  }

  function KeysOf(pages: seq<Page>): set<ChannelKey> {
    set p | p in pages :: PageKey(p)
  }

  lemma KeysOfMore(pages: seq<Page>, page: Page)
    ensures KeysOf(pages + [page]) == KeysOf(pages) + {PageKey(page)}
  {
    forall k | k in KeysOf(pages) + {PageKey(page)} ensures k in KeysOf(pages + [page]) {
      if k == PageKey(page) {
        assert page in pages + [page];
      } else {
        var p :| p in pages && PageKey(p) == k;
        assert p in pages + [page];
      }
    }
  }

  /** One key more, or none if it was there. */
  lemma OneKey(keys: set<ChannelKey>, key: ChannelKey)
    ensures keys <= keys + {key}
    ensures |keys + {key}| == if key in keys then |keys| else |keys| + 1
  {
    assert key in keys ==> keys + {key} == keys;
  }

  /** The cap holds unless it was exceeded before, and pages are only turned away at a full cap. */
  lemma {:induction false} CapHolds(keys: set<ChannelKey>, cap: nat, pages: seq<Page>)
    ensures var r := Sort(keys, cap, pages);
            && keys <= r.keys && |keys| <= |r.keys|
            && |r.keys| <= (if |keys| < cap then cap else |keys|)
            && (r.skipped > 0 ==> |r.keys| >= cap)
            && |r.usable| + r.skipped == |pages|
  {
    if pages != [] {
      var page := pages[|pages| - 1];
      CapHolds(keys, cap, pages[..|pages| - 1]);
      OneKey(Sort(keys, cap, pages[..|pages| - 1]).keys, PageKey(page));
    }
  }

  lemma {:induction false} KeysOfUsable(keys: set<ChannelKey>, cap: nat, pages: seq<Page>)
    ensures var r := Sort(keys, cap, pages);
            r.keys == keys + KeysOf(r.usable)
  {
    hide KeysOf;
    if pages != [] {
      var page := pages[|pages| - 1];
      KeysOfUsable(keys, cap, pages[..|pages| - 1]);
      KeysOfMore(Sort(keys, cap, pages[..|pages| - 1]).usable, page);
    } else {
      NoKeys();
    }
  }

  lemma NoKeys()
    ensures KeysOf([]) == {}
  {
  }

  /** A page is turned away exactly when, at its turn, it is new and the cap is full; a page that was
      connected before the login never is; and once a new page is turned away, so is every later one. */
  lemma {:induction false} WhoIsTurnedAway(keys: set<ChannelKey>, cap: nat, pages: seq<Page>, i: nat)
    requires i < |pages|
    ensures var before, final := Sort(keys, cap, pages[..i]).keys, Sort(keys, cap, pages).keys;
            && keys <= before <= final
            && (PageKey(pages[i]) in final <==> Admits(before, cap, PageKey(pages[i])))
            && (PageKey(pages[i]) !in final ==> final == before)
    decreases |pages|
  {
    var n := |pages| - 1;
    CapHolds(keys, cap, pages[..i]);
    if i < n {
      assert pages[..n][..i] == pages[..i];
      WhoIsTurnedAway(keys, cap, pages[..n], i);
      LastStep(Sort(keys, cap, pages[..i]).keys, Sort(keys, cap, pages[..n]).keys, cap, PageKey(pages[i]), PageKey(pages[n]));
    } else {
      OneKey(Sort(keys, cap, pages[..n]).keys, PageKey(pages[n]));
    }
  }

  lemma LastStep(before: set<ChannelKey>, later: set<ChannelKey>, cap: nat, key: ChannelKey, last: ChannelKey)
    requires before <= later && (key in later <==> Admits(before, cap, key)) && (key !in later ==> later == before)
    ensures var final := if Admits(later, cap, last) then later + {last} else later;
            && before <= final && (key in final <==> Admits(before, cap, key)) && (key !in final ==> final == before)
  {
    assert last in later ==> later + {last} == later;
  }

  /** The pages whose key is among `keys`, in order. */
  function Among(pages: seq<Page>, keys: set<ChannelKey>): seq<Page> {
    if pages == [] then [] else
    var before := Among(pages[..|pages| - 1], keys);
    if PageKey(pages[|pages| - 1]) in keys then before + [pages[|pages| - 1]] else before
  }

  lemma {:induction false} AmongSame(pages: seq<Page>, keys: set<ChannelKey>, more: set<ChannelKey>)
    requires forall p | p in pages :: PageKey(p) in keys <==> PageKey(p) in more
    ensures Among(pages, keys) == Among(pages, more)
  {
    if pages != [] {
      assert pages[|pages| - 1] in pages;
      AmongSame(pages[..|pages| - 1], keys, more);
    }
  }

  /** So the accepted pages are those connected in the end, in the order Meta listed them. */
  lemma {:induction false} UsableAreConnected(keys: set<ChannelKey>, cap: nat, pages: seq<Page>)
    ensures Sort(keys, cap, pages).usable == Among(pages, Sort(keys, cap, pages).keys)
  {
    if pages != [] {
      var n := |pages| - 1;
      var before, final := Sort(keys, cap, pages[..n]), Sort(keys, cap, pages);
      UsableAreConnected(keys, cap, pages[..n]);
      forall p | p in pages[..n] ensures PageKey(p) in before.keys <==> PageKey(p) in final.keys {
        var i :| 0 <= i < n && pages[..n][i] == p;
        WhoIsTurnedAway(keys, cap, pages, i);
        WhoIsTurnedAway(keys, cap, pages[..n], i);
        assert pages[..n][..i] == pages[..i];
      }
      AmongSame(pages[..n], before.keys, final.keys);
    }
  }

  // ------------------------------------------------------------------- the saves

  function PageId(tenant: string, page: Page): AccountId {
    AccountId(tenant, "meta", page.id)
  }

  /** The clock and the fresh row id of a save. */
  datatype Stamp = Stamp(rowId: string, at: nat)

  /** `save_connected_account`: a row that is there keeps its id and its time of creation. */
  function Upserted(accounts: Accounts, id: AccountId, user: string, name: string, token: string, permissions: seq<string>, s: Stamp): Accounts {
    var row := if id in accounts then accounts[id] else Account(s.rowId, user, name, token, "connected", permissions, s.at, s.at);
    accounts[id := row.(user := user, name := name, token := token, status := "connected", permissions := permissions, updatedAt := s.at)]
  }

  function PageSaved(accounts: Accounts, tenant: string, user: string, page: Page, s: Stamp): Accounts {
    Upserted(accounts, PageId(tenant, page), user, if page.name != "" then page.name else page.id, page.token,
             if page.tasks == [] then ["CREATE_CONTENT"] else page.tasks, s)
  }

  /** A save writes its row alone, and what it writes is the caller's but for the row's id and creation. */
  lemma OneRowWritten(accounts: Accounts, id: AccountId, user: string, name: string, token: string, permissions: seq<string>, s: Stamp)
    ensures var n := Upserted(accounts, id, user, name, token, permissions, s);
            && n.Keys == accounts.Keys + {id} && (forall k | k in accounts && k != id :: n[k] == accounts[k])
            && n[id] == Account(if id in accounts then accounts[id].rowId else s.rowId, user, name, token, "connected", permissions,
                                if id in accounts then accounts[id].createdAt else s.at, s.at)
  {
  }

  /** The pages saved last to first; `stamps[i]` is that of page `i`. */
  function SavedReversed(accounts: Accounts, tenant: string, user: string, pages: seq<Page>, stamps: seq<Stamp>): Accounts
    requires |pages| == |stamps|
  {
    if pages == [] then accounts
    else PageSaved(SavedReversed(accounts, tenant, user, pages[1..], stamps[1..]), tenant, user, pages[0], stamps[0])
  }

  lemma OneSaved(accounts: Accounts, id: AccountId, row: Account, tenant: string)
    requires id.platform == "meta" && row.status == "connected"
    ensures ConnectedKeys(accounts[id := row], id.tenant) == ConnectedKeys(accounts, id.tenant) + {KeyOf("meta", id.accountId)}
    ensures tenant != id.tenant ==> ConnectedKeys(accounts[id := row], tenant) == ConnectedKeys(accounts, tenant)
  {
    var n := accounts[id := row];
    forall k | k in ConnectedKeys(accounts, id.tenant) + {KeyOf("meta", id.accountId)} ensures k in ConnectedKeys(n, id.tenant) {
      if k in ConnectedKeys(accounts, id.tenant) {
        var other :| other in accounts && IsChannel(other, accounts[other], id.tenant) && KeyOf(other.platform, other.accountId) == k;
        assert other in n && IsChannel(other, n[other], id.tenant);
      } else {
        assert id in n && IsChannel(id, n[id], id.tenant);
      }
    }
    if tenant != id.tenant {
      forall k | k in ConnectedKeys(accounts, tenant) ensures k in ConnectedKeys(n, tenant) {
        var other :| other in accounts && IsChannel(other, accounts[other], tenant) && KeyOf(other.platform, other.accountId) == k;
        assert other in n && IsChannel(other, n[other], tenant);
      }
    }
  }

  lemma {:induction false} PagesSaved(accounts: Accounts, tenant: string, user: string, pages: seq<Page>, stamps: seq<Stamp>, other: string)
    requires |pages| == |stamps|
    ensures var n := SavedReversed(accounts, tenant, user, pages, stamps);
            && ConnectedKeys(n, tenant) == ConnectedKeys(accounts, tenant) + KeysOf(pages)
            && (other != tenant ==> ConnectedKeys(n, other) == ConnectedKeys(accounts, other))
  {
    hide ConnectedKeys, KeysOf;
    if pages == [] {
      NoKeys();
    } else {
      PagesSaved(accounts, tenant, user, pages[1..], stamps[1..], other);
      var rest := SavedReversed(accounts, tenant, user, pages[1..], stamps[1..]);
      var n := PageSaved(rest, tenant, user, pages[0], stamps[0]);
      OneSaved(rest, PageId(tenant, pages[0]), n[PageId(tenant, pages[0])], other);
      assert n == rest[PageId(tenant, pages[0]) := n[PageId(tenant, pages[0])]];
      KeysOfRest(pages);
    }
  }

  lemma KeysOfRest(pages: seq<Page>)
    requires pages != []
    ensures KeysOf(pages) == KeysOf(pages[1..]) + {PageKey(pages[0])}
  {
    forall k | k in KeysOf(pages[1..]) + {PageKey(pages[0])} ensures k in KeysOf(pages) {
      if k == PageKey(pages[0]) {
        assert pages[0] in pages;
      } else {
        var p :| p in pages[1..] && PageKey(p) == k;
        assert p in pages;
      }
    }
    forall k | k in KeysOf(pages) ensures k in KeysOf(pages[1..]) + {PageKey(pages[0])} {
      var p :| p in pages && PageKey(p) == k;
      assert p == pages[0] || p in pages[1..];
    }
  }

  /** The row of a page just connected: its own token and name, or its id where it has no name; its tasks,
      or the one every page has; connected, by this user. */
  ghost predicate HoldsPage(accounts: Accounts, tenant: string, user: string, page: Page) {
    var id := AccountId(tenant, "meta", page.id);
    id in accounts
    && var row := accounts[id];
       && row.token == page.token && row.user == user && row.status == "connected"
       && (if page.name != "" then row.name == page.name else row.name == page.id)
       && (if page.tasks != [] then row.permissions == page.tasks else row.permissions == ["CREATE_CONTENT"])
  }

  /** Each page's row holds it; of pages of one id, the first. */
  ghost predicate HoldsPages(accounts: Accounts, tenant: string, user: string, pages: seq<Page>) {
    forall i | 0 <= i < |pages| && FirstOfItsId(pages, i) :: HoldsPage(accounts, tenant, user, pages[i])
  }

  ghost predicate FirstOfItsId(pages: seq<Page>, i: nat)
    requires i < |pages|
  {
    forall j | 0 <= j < i :: pages[j].id != pages[i].id
  }

  lemma {:induction false} PagesAreHeld(accounts: Accounts, tenant: string, user: string, pages: seq<Page>, stamps: seq<Stamp>)
    requires |pages| == |stamps|
    ensures HoldsPages(SavedReversed(accounts, tenant, user, pages, stamps), tenant, user, pages)
  {
    if pages != [] {
      PagesAreHeld(accounts, tenant, user, pages[1..], stamps[1..]);
      var rest := SavedReversed(accounts, tenant, user, pages[1..], stamps[1..]);
      var n := PageSaved(rest, tenant, user, pages[0], stamps[0]);
      SavedIsHeld(rest, tenant, user, pages[0], stamps[0]);
      forall i | 0 <= i < |pages| && FirstOfItsId(pages, i) ensures HoldsPage(n, tenant, user, pages[i]) {
        if i > 0 {
          FirstLater(pages, i);
          assert HoldsPage(rest, tenant, user, pages[1..][i - 1]);
          OtherIsHeld(rest, tenant, user, pages[0], stamps[0], pages[i]);
        }
      }
    }
  }

  lemma FirstLater(pages: seq<Page>, i: nat)
    requires 0 < i < |pages| && FirstOfItsId(pages, i)
    ensures FirstOfItsId(pages[1..], i - 1) && pages[0].id != pages[i].id
  {
  }

  lemma SavedIsHeld(accounts: Accounts, tenant: string, user: string, page: Page, s: Stamp)
    ensures HoldsPage(PageSaved(accounts, tenant, user, page, s), tenant, user, page)
  {
  }

  lemma OtherIsHeld(accounts: Accounts, tenant: string, user: string, page: Page, s: Stamp, other: Page)
    requires page.id != other.id && HoldsPage(accounts, tenant, user, other)
    ensures HoldsPage(PageSaved(accounts, tenant, user, page, s), tenant, user, other)
  {
  }

  /** Saving the pages touches no row but theirs, and leaves a row that was there its id and creation. */
  lemma {:induction false} OtherRowsStay(accounts: Accounts, tenant: string, user: string, pages: seq<Page>, stamps: seq<Stamp>, id: AccountId)
    requires |pages| == |stamps|
    ensures var n := SavedReversed(accounts, tenant, user, pages, stamps);
            && (id in accounts ==> id in n && n[id].rowId == accounts[id].rowId && n[id].createdAt == accounts[id].createdAt)
            && (id.tenant != tenant || id.platform != "meta" || (forall p | p in pages :: p.id != id.accountId) ==>
                  (id in n <==> id in accounts) && (id in n ==> n[id] == accounts[id]))
  {
    if pages != [] {
      assert pages[0] in pages && forall p | p in pages[1..] :: p in pages;
      OtherRowsStay(accounts, tenant, user, pages[1..], stamps[1..], id);
    }
  }

  /** After the login the gate's cached keys are exactly the keys recomputed from the rows, and their
      number is within the cap unless it was over it before. Other workspaces are as they were. */
  lemma CacheIsExact(accounts: Accounts, tenant: string, user: string, cap: nat, pages: seq<Page>, stamps: seq<Stamp>, other: string)
    requires |Sort(ConnectedKeys(accounts, tenant), cap, pages).usable| == |stamps|
    ensures var r := Sort(ConnectedKeys(accounts, tenant), cap, pages);
            var n := SavedReversed(accounts, tenant, user, r.usable, stamps);
            && r.keys == ConnectedKeys(n, tenant)
            && |ConnectedKeys(n, tenant)| <= (if |ConnectedKeys(accounts, tenant)| < cap then cap else |ConnectedKeys(accounts, tenant)|)
            && ConnectedKeys(accounts, tenant) <= ConnectedKeys(n, tenant)
            && (other != tenant ==> ConnectedKeys(n, other) == ConnectedKeys(accounts, other))
  {
    hide ConnectedKeys, KeysOf;
    var keys := ConnectedKeys(accounts, tenant);
    KeysOfUsable(keys, cap, pages);
    CapHolds(keys, cap, pages);
    PagesSaved(accounts, tenant, user, Sort(keys, cap, pages).usable, stamps, other);
  }

  // ------------------------------------------------------------ the default page

  /** Which rows a lookup may use: any when no user is given, else the user's own and the shared ones. */
  predicate Usable(account: Account, user: Option<string>) {
    user.Some? ==> account.user == user.value || account.user == "global"
  }

  /** The account that `get_connected_account` picks for a platform: the usable one updated last. */
  ghost predicate UpdatedLast(accounts: Accounts, tenant: string, platform: string, user: Option<string>, id: AccountId) {
    id in accounts && id.tenant == tenant && id.platform == platform && Usable(accounts[id], user)
    && forall other | other in accounts && other.tenant == tenant && other.platform == platform && other != id && Usable(accounts[other], user) ::
         accounts[other].updatedAt < accounts[id].updatedAt
  }

  /** A user's lookup finds an account of his own or a shared one, and finds one as soon as there is one
      updated last. */
  lemma LookupsStayPrivate(accounts: Accounts, tenant: string, platform: string, asker: string, id: AccountId)
    ensures UpdatedLast(accounts, tenant, platform, Some(asker), id) ==>
              id in accounts && id.tenant == tenant && (accounts[id].user == asker || accounts[id].user == "global")
    ensures id in accounts && id.tenant == tenant && id.platform == platform && (accounts[id].user == asker || accounts[id].user == "global")
            && (forall other | other in accounts && other != id :: accounts[other].updatedAt < accounts[id].updatedAt) ==>
              UpdatedLast(accounts, tenant, platform, Some(asker), id)
  {
  }

  ghost predicate AllBefore(accounts: Accounts, now: nat) {
    forall id | id in accounts :: accounts[id].updatedAt < now
  }

  /** Saving in reverse makes the first page accepted the default one, for the user who logged in and
      for lookups without a user, when time moves between saves. */
  lemma FirstPageIsDefault(accounts: Accounts, tenant: string, user: string, pages: seq<Page>, stamps: seq<Stamp>, asker: Option<string>)
    requires |pages| == |stamps| && pages != [] && (asker.Some? ==> asker.value == user || user == "global")
    requires forall i, j | 0 <= i < j < |stamps| :: stamps[j].at < stamps[i].at
    requires forall i | 0 <= i < |stamps| :: AllBefore(accounts, stamps[i].at)
    ensures UpdatedLast(SavedReversed(accounts, tenant, user, pages, stamps), tenant, "meta", asker, PageId(tenant, pages[0]))
  {
    AllOlder(accounts, tenant, user, pages[1..], stamps[1..], stamps[0].at);
    var rest, id := SavedReversed(accounts, tenant, user, pages[1..], stamps[1..]), PageId(tenant, pages[0]);
    var n := SavedReversed(accounts, tenant, user, pages, stamps);
    assert n == rest[id := n[id]] && n[id].updatedAt == stamps[0].at && n[id].user == user;
    forall k | k in n && k != id ensures n[k].updatedAt < n[id].updatedAt {
      assert k in rest && n[k] == rest[k];
    }
  }

  lemma {:induction false} AllOlder(accounts: Accounts, tenant: string, user: string, pages: seq<Page>, stamps: seq<Stamp>, now: nat)
    requires |pages| == |stamps| && forall i | 0 <= i < |stamps| :: stamps[i].at < now
    requires AllBefore(accounts, now)
    ensures AllBefore(SavedReversed(accounts, tenant, user, pages, stamps), now)
  {
    if pages != [] {
      AllOlder(accounts, tenant, user, pages[1..], stamps[1..], now);
      var rest, id := SavedReversed(accounts, tenant, user, pages[1..], stamps[1..]), PageId(tenant, pages[0]);
      var n := SavedReversed(accounts, tenant, user, pages, stamps);
      assert n == rest[id := n[id]] && n[id].updatedAt == stamps[0].at;
      forall k | k in n ensures n[k].updatedAt < now {
        if k != id {
          assert k in rest && n[k] == rest[k];
        }
      }
    }
  }
}
