/** The page cache: page shells kept in order of use, valid only while the resources they own
    are still held at the versions recorded for them. */
module PageCache {
  import opened Json
  import opened Recency
  import RP = RouterProtocol
  import RS = ResourceStore

  datatype CachedPage = CachedPage(
    page: RP.Page, resources: map<string, string>, resourceKeys: seq<string>, pendingDeferred: seq<string>,
    liveKeys: seq<string>)

  datatype Manifest = Manifest(resourceKeys: seq<string>, pendingDeferred: seq<string>, liveKeys: seq<string>)

  /** What the store shows of its keys. */
  datatype Showing = Showing(records: map<string, RS.Record>, stale: set<string>, states: map<string, RS.Snapshot>)

  function StatusOf(v: Showing, key: string): RS.Status {
    if key in v.states then v.states[key].status else RS.Missing
  }

  predicate FreshAt(v: Showing, key: string, version: string) {
    key in v.records && v.records[key].version == version && key !in v.stale
  }

  /** A key is fresh at the recorded version or, where no version is recorded, failed to load. */
  predicate Kept(e: CachedPage, v: Showing, key: string) {
    if key in e.resources then FreshAt(v, key, e.resources[key]) else StatusOf(v, key) == RS.Error
  }

  /** All owned keys that are not pending are kept. */
  predicate Usable(e: CachedPage, v: Showing) {
    forall k :: k in e.resourceKeys && k !in e.pendingDeferred ==> Kept(e, v, k)
  }

  predicate PendingOwned(e: CachedPage) {
    forall k :: k in e.pendingDeferred ==> k in e.resourceKeys
  }

  // ----- Settling -----

  /** The versions and pending keys of a page while resource loads settle, unless a settled key
      turned out to be held nowhere, which ends the page. */
  datatype Settling = Gone | Settling(versions: map<string, string>, pending: set<string>)

  /** A key whose load is still under way. */
  predicate Awaited(v: Showing, key: string) {
    StatusOf(v, key) == RS.Pending || StatusOf(v, key) == RS.Loading
  }

  predicate Ready(v: Showing, key: string) {
    key in v.records && StatusOf(v, key) == RS.Ready && key !in v.stale
  }

  function SettleOne(s: Settling, owned: seq<string>, v: Showing, key: string): Settling {
    if s.Gone? || key !in owned then s
    else if Ready(v, key) then Settling(s.versions[key := v.records[key].version], s.pending - {key})
    else if StatusOf(v, key) == RS.Error then Settling(s.versions - {key}, s.pending - {key})
    else if Awaited(v, key) then s
    else Gone
  }

  function SettleAll(s: Settling, owned: seq<string>, v: Showing, keys: seq<string>): Settling {
    if keys == [] then s
    else SettleOne(SettleAll(s, owned, v, keys[..|keys| - 1]), owned, v, keys[|keys| - 1])
  }

  /** The page after the loads of `keys` settled. */
  function Settled(e: CachedPage, v: Showing, keys: seq<string>): Option<CachedPage> {
    match SettleAll(Settling(e.resources, Elements(e.pendingDeferred)), e.resourceKeys, v, keys)
    case Gone => None
    case Settling(versions, pending) =>
      Some(e.(resources := versions, pendingDeferred := RP.KeysIn(e.resourceKeys, pending)))
  }

  function Elements(keys: seq<string>): (r: set<string>)
    ensures forall k :: k in r <==> k in keys
  {
    set k | k in keys
  }

  /** Nothing changed for `key`. */
  predicate SameFor(s: Settling, t: Settling, key: string)
    requires s.Settling? && t.Settling?
  {
    && (key in t.pending <==> key in s.pending)
    && (key in t.versions <==> key in s.versions)
    && (key in t.versions ==> t.versions[key] == s.versions[key])
  }

  /** `key` is no longer pending and is kept. */
  predicate KeptIn(t: Settling, v: Showing, key: string)
    requires t.Settling?
  {
    key !in t.pending && if key in t.versions then FreshAt(v, key, t.versions[key]) else StatusOf(v, key) == RS.Error
  }

  /** An owned key whose load ended is kept and no longer pending; any other key is as it was. */
  lemma {:induction false} SettleAllMeans(s: Settling, owned: seq<string>, v: Showing, keys: seq<string>, key: string)
    requires s.Settling? && SettleAll(s, owned, v, keys).Settling?
    ensures if key in keys && key in owned && !Awaited(v, key) then KeptIn(SettleAll(s, owned, v, keys), v, key)
            else SameFor(s, SettleAll(s, owned, v, keys), key)
  {
    if keys != [] {
      var init, last := keys[..|keys| - 1], keys[|keys| - 1];
      assert keys == init + [last];
      SettleAllMeans(s, owned, v, init, key);
      SettleOneMeans(SettleAll(s, owned, v, init), owned, v, last, key);
    }
  }

  lemma SettleOneMeans(s: Settling, owned: seq<string>, v: Showing, last: string, key: string)
    requires s.Settling? && SettleOne(s, owned, v, last).Settling?
    ensures key != last || key !in owned || Awaited(v, key) ==> SameFor(s, SettleOne(s, owned, v, last), key)
    ensures key == last && key in owned && !Awaited(v, key) ==> KeptIn(SettleOne(s, owned, v, last), v, key)
  {
  }

  /** The page is given up exactly when some settled key of its own is neither there nor failed
      nor awaited. */
  lemma {:induction false} SettledOrGone(s: Settling, owned: seq<string>, v: Showing, keys: seq<string>)
    requires s.Settling?
    ensures SettleAll(s, owned, v, keys).Gone? <==>
            exists k :: k in keys && k in owned && !Ready(v, k) && StatusOf(v, k) != RS.Error && !Awaited(v, k)
  {
    if keys != [] {
      var init, last := keys[..|keys| - 1], keys[|keys| - 1];
      assert keys == init + [last];
      SettledOrGone(s, owned, v, init);
    }
  }

  /** Once its loads settled, a page is usable exactly when the keys they did not settle were
      kept: the settled ones need no further check. */
  lemma SettledIsUsable(e: CachedPage, v: Showing, keys: seq<string>)
    requires Settled(e, v, keys).Some?
    ensures PendingOwned(Settled(e, v, keys).value)
    ensures Usable(Settled(e, v, keys).value, v) <==>
            forall k :: k in e.resourceKeys && k !in e.pendingDeferred && (k !in keys || Awaited(v, k)) ==>
                Kept(e, v, k)
  {
    var s := Settling(e.resources, Elements(e.pendingDeferred));
    var page := Settled(e, v, keys).value;
    forall k | k in e.resourceKeys
      ensures k in keys && !Awaited(v, k) ==> k !in page.pendingDeferred && Kept(page, v, k)
      ensures k !in keys || Awaited(v, k) ==>
                (k in page.pendingDeferred <==> k in e.pendingDeferred) && (Kept(page, v, k) <==> Kept(e, v, k))
    {
      SettleAllMeans(s, e.resourceKeys, v, keys, k);
    }
  }

  // ----- The cache -----

  class PageCache {
    const maxPages: nat
    var order: seq<string>
    var entries: map<string, CachedPage>

    constructor (maxPages: nat)
      requires maxPages >= 1
      ensures Valid() && this.maxPages == maxPages && order == [] && Owned()
    {
      this.maxPages, order, entries := maxPages, [], map[];
    }

    ghost predicate Listed()
      reads this
    {
      && maxPages >= 1 && NoDuplicates(order)
      && (forall k :: k in order <==> k in entries)
      && (forall k :: k in entries ==> entries[k].page.url == k)
    }

    ghost predicate Valid()
      reads this
    {
      Listed() && |order| <= maxPages
    }

    /** No page waits for a key that is not its own. */
    ghost predicate Owned()
      reads this
    {
      forall k :: k in entries ==> PendingOwned(entries[k])
    }

    /** Other pages that are still cached are as they were. */
    twostate predicate OthersKept(url: string)
      reads this
    {
      forall k :: k != url && k in entries ==> k in old(entries) && entries[k] == old(entries)[k]
    }

    method Insert(url: string, entry: CachedPage)
      requires Listed() && entry.page.url == url
      modifies this
      ensures Listed() && order == Touched(old(order), url) && entries == old(entries)[url := entry]
    {
      TouchedUnique(order, url);
      order := Touched(order, url);
      entries := entries[url := entry];
    }

    method Remove(url: string)
      requires Valid()
      modifies this
      ensures Valid() && order == Without(old(order), url) && entries == old(entries) - {url}
    {
      WithoutUnique(order, url);
      order := Without(order, url);
      entries := entries - {url};
    }

    method Evict()
      requires Listed()
      modifies this
      ensures Valid() && order == Recent(old(order), maxPages)
      ensures forall k :: k in entries ==> k in old(entries) && entries[k] == old(entries)[k]
    {
      while |order| > maxPages
        invariant Listed() && Recent(order, maxPages) == Recent(old(order), maxPages)
        invariant forall k :: k in entries ==> k in old(entries) && entries[k] == old(entries)[k]
        decreases |order|
      {
        entries := entries - {order[0]};
        order := order[1..];
      }
    }

    /** Caches a page as the most recent one. Without a manifest it owns the keys it has versions
        of and waits for none. */
    method Set(page: RP.Page, resources: map<string, string>, manifest: Option<Manifest>)
      requires Valid()
      modifies this
      ensures Valid() && OthersKept(page.url)
      ensures order == Recent(Touched(old(order), page.url), maxPages)
      ensures page.url in entries && entries[page.url].page == page && entries[page.url].resources == resources
      ensures manifest.None? ==>
                && (forall k :: k in entries[page.url].resourceKeys <==> k in resources)
                && entries[page.url].pendingDeferred == [] && entries[page.url].liveKeys == []
      ensures manifest.Some? ==>
                && entries[page.url].resourceKeys == manifest.value.resourceKeys
                && entries[page.url].pendingDeferred == manifest.value.pendingDeferred
                && entries[page.url].liveKeys == RP.Distinct(manifest.value.liveKeys)
      ensures old(Owned()) && PendingOwned(entries[page.url]) ==> Owned()
    {
      var entry;
      if manifest.Some? {
        entry := CachedPage(page, resources, manifest.value.resourceKeys, manifest.value.pendingDeferred,
                            RP.Distinct(manifest.value.liveKeys));
      } else {
        var keys := Listing(resources.Keys);
        entry := CachedPage(page, resources, keys, [], []);
      }
      Insert(page.url, entry);
      RecentKeepsLast(Without(old(order), page.url), page.url, maxPages);
      Evict();
    }

    ghost function Shown(store: RS.ResourceStore): Showing
      reads store
    {
      Showing(store.records, store.staleKeys, store.stateSnapshots)
    }

    /** Whether an owned key that is not pending is still kept; reading it counts as a use. */
    method StillKept(entry: CachedPage, key: string, store: RS.ResourceStore) returns (kept: bool)
      requires store.Valid()
      modifies store`lruOrder
      ensures store.Valid() && kept == Kept(entry, Shown(store), key)
    {
      if key in entry.resources {
        var record := store.GetRecord(key);
        return record.Some? && record.value.version == entry.resources[key] && key !in store.staleKeys;
      }
      var state := store.GetStateSnapshot(key);
      return state.status == RS.Error;
    }

    method Check(entry: CachedPage, store: RS.ResourceStore) returns (usable: bool)
      requires store.Valid()
      modifies store`lruOrder
      ensures store.Valid() && usable == Usable(entry, Shown(store))
    {
      for i := 0 to |entry.resourceKeys|
        invariant store.Valid()
        invariant forall k :: k in entry.resourceKeys[..i] && k !in entry.pendingDeferred ==>
                  Kept(entry, Shown(store), k)
      {
        var key := entry.resourceKeys[i];
        assert entry.resourceKeys[..i + 1] == entry.resourceKeys[..i] + [key];
        if key !in entry.pendingDeferred {
          var kept := StillKept(entry, key, store);
          if !kept {
            return false;
          }
        }
      }
      assert entry.resourceKeys[..|entry.resourceKeys|] == entry.resourceKeys;
      return true;
    }

    /** Finds a cached page that is usable with what the store holds now; one that is not is dropped. */
    method GetValid(url: string, store: RS.ResourceStore) returns (hit: Option<CachedPage>)
      requires Valid() && store.Valid()
      modifies this, store`lruOrder
      ensures Valid() && store.Valid() && OthersKept(url)
      ensures hit == if url in old(entries) && Usable(old(entries)[url], Shown(store)) then Some(old(entries)[url])
                     else None
      ensures hit.Some? ==> entries == old(entries) && order == Touched(old(order), url)
      ensures hit.None? ==> entries == old(entries) - {url} && order == Without(old(order), url)
      ensures old(Owned()) ==> Owned()
    {
      if url !in entries {
        return None;
      }
      var entry := entries[url];
      var usable := Check(entry, store);
      if !usable {
        Remove(url);
        return None;
      }
      TouchedSize(order, url);
      Insert(url, entry);
      return Some(entry);
    }

    method SettleKey(s: Settling, owned: seq<string>, key: string, store: RS.ResourceStore) returns (t: Settling)
      requires store.Valid() && s.Settling?
      modifies store`lruOrder
      ensures store.Valid() && t == SettleOne(s, owned, Shown(store), key)
    {
      if key !in owned {
        return s;
      }
      var state := store.GetStateSnapshot(key);
      var record := store.GetRecord(key);
      if record.Some? && state.status == RS.Ready && key !in store.staleKeys {
        return Settling(s.versions[key := record.value.version], s.pending - {key});
      }
      if state.status == RS.Error {
        return Settling(s.versions - {key}, s.pending - {key});
      }
      if state.status == RS.Pending || state.status == RS.Loading {
        return s;
      }
      return Gone;
    }

    /** Works the settled keys into the versions and pending keys. */
    method SettleKeys(start: Settling, owned: seq<string>, keys: seq<string>, store: RS.ResourceStore)
      returns (s: Settling)
      requires store.Valid() && start.Settling?
      modifies store`lruOrder
      ensures store.Valid() && s == SettleAll(start, owned, Shown(store), keys)
    {
      s := start;
      for i := 0 to |keys|
        invariant store.Valid() && s.Settling?
        invariant s == SettleAll(start, owned, Shown(store), keys[..i])
      {
        assert keys[..i + 1][..i] == keys[..i];
        s := SettleKey(s, owned, keys[i], store);
        if s.Gone? {
          GoneForGood(start, owned, Shown(store), keys, i + 1);
          return;
        }
      }
      assert keys[..|keys|] == keys;
    }

    /** Records that loads settled, without replacing the page. */
    method SettleResources(url: string, keys: seq<string>, store: RS.ResourceStore)
      requires Valid() && store.Valid()
      modifies this, store`lruOrder
      ensures Valid() && store.Valid() && OthersKept(url)
      ensures url !in old(entries) ==> entries == old(entries) && order == old(order)
      ensures url in old(entries) ==>
                match Settled(old(entries)[url], Shown(store), keys)
                case None => entries == old(entries) - {url} && order == Without(old(order), url)
                case Some(page) => entries == old(entries)[url := page] && order == Touched(old(order), url)
      ensures old(Owned()) ==> Owned()
    {
      if url !in entries {
        return;
      }
      var entry := entries[url];
      var s := SettleKeys(Settling(entry.resources, Elements(entry.pendingDeferred)), entry.resourceKeys, keys, store);
      if s.Gone? {
        Remove(url);
        return;
      }
      TouchedSize(order, url);
      Insert(url, entry.(resources := s.versions, pendingDeferred := RP.KeysIn(entry.resourceKeys, s.pending)));
    }

    method Clear()
      requires Valid()
      modifies this
      ensures Valid() && order == [] && entries == map[] && Owned()
    {
      order, entries := [], map[];
    }

    // ----- Caching an envelope -----

    /** The key is among the 100 most recent ones, with a fresh record that has a version. */
    ghost predicate KnownTo(store: RS.ResourceStore, key: string)
      reads store
    {
      && key in Recent(store.lruOrder, 100)
      && key in store.records && store.records[key].version != "" && key !in store.staleKeys
    }

    /** Caches the page of an envelope with the versions now known of its keys. Without a list of
        keys the page owns all that is known and waits for nothing. */
    method CachePageEnvelope(page: RP.Page, resourceKeys: Option<seq<string>>, deferred: seq<string>, live: seq<string>,
                             store: RS.ResourceStore)
      requires Valid() && store.Valid()
      modifies this
      ensures Valid() && OthersKept(page.url) && page.url in entries && entries[page.url].page == page
      ensures old(Owned()) ==> Owned()
      ensures forall k :: k in entries[page.url].pendingDeferred <==>
                            resourceKeys.Some? && k in deferred && k in resourceKeys.value
      ensures forall k :: k in entries[page.url].resources <==>
                            k in entries[page.url].resourceKeys && KnownTo(store, k)
      ensures forall k :: k in entries[page.url].resources ==> FreshAt(Shown(store), k, entries[page.url].resources[k])
      ensures forall k :: k in entries[page.url].resourceKeys <==>
                            if resourceKeys.Some? then k in resourceKeys.value else KnownTo(store, k)
      ensures entries[page.url].liveKeys == RP.Distinct(live)
              && order == Recent(Touched(old(order), page.url), maxPages)
    {
      var known := store.ExportKnownVersions(100);
      if resourceKeys.None? {
        var keys := Listing(known.Keys);
        Set(page, known, Some(Manifest(keys, [], live)));
        return;
      }
      var owned := RP.Distinct(resourceKeys.value);
      var versions := map k | k in known && k in owned :: known[k];
      Set(page, versions, Some(Manifest(owned, RP.KeysIn(RP.Distinct(deferred), Elements(owned)), live)));
    }
  }

  lemma {:induction false} GoneForGood(s: Settling, owned: seq<string>, v: Showing, keys: seq<string>, i: nat)
    requires i <= |keys| && SettleAll(s, owned, v, keys[..i]).Gone?
    ensures SettleAll(s, owned, v, keys).Gone?
    decreases |keys|
  {
    if i == |keys| {
      assert keys[..i] == keys;
    } else {
      var init := keys[..|keys| - 1];
      assert init[..i] == keys[..i];
      GoneForGood(s, owned, v, init, i);
    }
  }
}
