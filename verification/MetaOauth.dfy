/** The page loops of the Facebook login callback (app/routers/meta_oauth.py). */
module MetaOauth {
  import opened Wrappers
  import opened Channels
  import opened SqliteStore
  import opened Limits
  import opened Plans

  /** Pages Meta lists without an id or a token are passed over. */
  function Complete(pages: seq<Page>): seq<Page> {
    if pages == [] then [] else
    var page, before := pages[|pages| - 1], Complete(pages[..|pages| - 1]);
    if page.id != "" && page.token != "" then before + [page] else before
  }

  /** Just the pages that have both, each as often as it was listed. */
  lemma {:induction false} CompletePages(pages: seq<Page>)
    ensures forall p :: multiset(Complete(pages))[p] == if p.id != "" && p.token != "" then multiset(pages)[p] else 0
  {
    if pages != [] {
      var n := |pages| - 1;
      CompletePages(pages[..n]);
      assert pages == pages[..n] + [pages[n]];
    }
  }

  /** The stamps of `n` pages, last page first, if the k-th save gets `stamp(k)`. */
  function Stamps(stamp: nat -> Stamp, n: nat): (stamps: seq<Stamp>)
    ensures |stamps| == n && forall i | 0 <= i < n :: stamps[i] == stamp(n - 1 - i)
  {
    if n == 0 then [] else [stamp(n - 1)] + Stamps(stamp, n - 1)
  }

  /** The first loop: which pages get a channel slot. */
  method AcceptPages(gate: PlanGate, pages: seq<Page>) returns (usable: seq<Page>, skipped: nat)
    modifies gate`channels
    ensures var limit := ChannelLimit(gate.subscription.plan);
            if limit.None? then usable == Complete(pages) && skipped == 0 && gate.channels == old(gate.channels)
            else Sorted(usable, gate.Keys(), skipped) == Sort(old(gate.Keys()), limit.value, Complete(pages))
  {
    var limit := ChannelLimit(gate.subscription.plan);
    usable, skipped := [], 0;
    var i := 0;
    while i < |pages|
      invariant 0 <= i <= |pages|
      invariant if limit.None? then usable == Complete(pages[..i]) && skipped == 0 && gate.channels == old(gate.channels)
                else Sorted(usable, gate.Keys(), skipped) == Sort(old(gate.Keys()), limit.value, Complete(pages[..i]))
    {
      var page := pages[i];
      assert pages[..i + 1][..i] == pages[..i];
      if page.id != "" && page.token != "" {
        ghost var before := Complete(pages[..i]);
        assert Complete(pages[..i + 1]) == before + [page] && (before + [page])[..|before|] == before;
        var ok := gate.RequireChannelSlot("meta", page.id);
        if ok {
          usable := usable + [page];
        } else {
          skipped := skipped + 1;
        }
      }
      i := i + 1;
    }
    assert pages[..|pages|] == pages;
  }

  /** The second loop: the accepted pages saved, in reverse. */
  method SavePages(store: Store, tenant: string, user: string, usable: seq<Page>, stamp: nat -> Stamp)
    modifies store`accounts
    ensures store.accounts == SavedReversed(old(store.accounts), tenant, user, usable, Stamps(stamp, |usable|))
  {
    var i := |usable|;
    assert usable[|usable|..] == [];
    while i > 0
      invariant 0 <= i <= |usable|
      invariant store.accounts == SavedReversed(old(store.accounts), tenant, user, usable[i..], Stamps(stamp, |usable| - i))
    {
      i := i - 1;
      var page := usable[i];
      assert usable[i..][1..] == usable[i + 1..];
      assert Stamps(stamp, |usable| - i)[1..] == Stamps(stamp, |usable| - i - 1);
      store.SaveConnectedAccount(AccountId(tenant, "meta", page.id), user, if page.name != "" then page.name else page.id, page.token,
                                 if page.tasks == [] then ["CREATE_CONTENT"] else page.tasks, stamp(|usable| - 1 - i));
    }
  }

  /** The callback once Meta has answered. On a capped plan the gate's cache ends up equal to the keys
      of the rows, no more of them than the cap or than there were, and none lost. */
  method ConnectPages(gate: PlanGate, user: string, pages: seq<Page>, stamp: nat -> Stamp) returns (usable: seq<Page>, skipped: nat)
    requires gate.channels == None
    modifies gate`channels, gate.store`accounts
    ensures var before, after, limit := ConnectedKeys(old(gate.store.accounts), gate.tenant), ConnectedKeys(gate.store.accounts, gate.tenant),
                                        ChannelLimit(gate.subscription.plan);
            && gate.store.accounts == SavedReversed(old(gate.store.accounts), gate.tenant, user, usable, Stamps(stamp, |usable|))
            && gate.Keys() == after && before <= after
            && (limit.None? ==> usable == Complete(pages) && skipped == 0)
            && (limit.Some? ==> (
                  && usable == Among(Complete(pages), after) && |usable| + skipped == |Complete(pages)|
                  && |after| <= (if |before| < limit.value then limit.value else |before|)
                  && (skipped > 0 ==> |after| >= limit.value)))
    ensures HoldsPages(gate.store.accounts, gate.tenant, user, usable)
    ensures gate.subscription.plan != Agency ==>
              |ConnectedKeys(gate.store.accounts, gate.tenant)| <= 3
              || |ConnectedKeys(gate.store.accounts, gate.tenant)| == |ConnectedKeys(old(gate.store.accounts), gate.tenant)|
  {
    hide HoldsPages, ConnectedKeys, Sort, Among, Complete;
    ghost var accounts := gate.store.accounts;
    ghost var before := ConnectedKeys(accounts, gate.tenant);
    ghost var limit := ChannelLimit(gate.subscription.plan);
    usable, skipped := AcceptPages(gate, pages);
    SavePages(gate.store, gate.tenant, user, usable, stamp);
    ghost var stamps := Stamps(stamp, |usable|);
    PagesAreHeld(accounts, gate.tenant, user, usable, stamps);
    if limit.Some? {
      CacheIsExact(accounts, gate.tenant, user, limit.value, Complete(pages), stamps, gate.tenant);
      CapHolds(before, limit.value, Complete(pages));
      UsableAreConnected(before, limit.value, Complete(pages));
      KeysKept(gate, before, limit.value, Complete(pages));
    } else {
      PagesSaved(accounts, gate.tenant, user, usable, stamps, gate.tenant);
    }
  }

  lemma KeysKept(gate: PlanGate, before: set<ChannelKey>, cap: nat, pages: seq<Page>)
    ensures before <= Sort(before, cap, pages).keys
  {
    CapHolds(before, cap, pages);
  }

  /** When the clock moves between saves, the first page accepted is the one used by default. */
  lemma FirstUsableIsDefault(accounts: Accounts, tenant: string, user: string, usable: seq<Page>, stamp: nat -> Stamp, asker: Option<string>)
    requires usable != [] && (asker.Some? ==> asker.value == user || user == "global")
    requires forall j: nat, k: nat | j < k :: stamp(j).at < stamp(k).at
    requires forall k: nat :: AllBefore(accounts, stamp(k).at)
    ensures UpdatedLast(SavedReversed(accounts, tenant, user, usable, Stamps(stamp, |usable|)), tenant, "meta", asker, PageId(tenant, usable[0]))
  {
    FirstPageIsDefault(accounts, tenant, user, usable, Stamps(stamp, |usable|), asker);
  }
}
