/** Runs over the store and the page cache together: any writes, cached pages, visits back and
    settled loads, in any order. */
module PageCacheRuns {
  import opened Json
  import opened PC = PageCache
  import RP = RouterProtocol
  import RS = ResourceStore

  datatype Event =
    | Received(key: string, version: string, value: Value)
    | Patched(key: string, apply: Value -> Value, suffix: string)
    | Requested(keys: seq<string>)
    | Failed(key: string, error: RS.ErrorDetail)
    | Obsolete(key: string)
    | Dropped(key: string)
    | Emptied
    | PageArrived(page: RP.Page, resourceKeys: Option<seq<string>>, deferred: seq<string>, live: seq<string>)
    | FirstPage(page: RP.Page)
    | PageRevisited(url: string)
    | LoadsSettled(url: string, keys: seq<string>)
    | PagesForgotten

  /** The store held `key` fresh at `version` in one of these views. */
  ghost predicate Witnessed(views: seq<Showing>, key: string, version: string) {
    exists i :: 0 <= i < |views| && FreshAt(views[i], key, version)
  }

  /** Every version that a page records was the fresh one in one of these views. */
  ghost predicate Honest(e: CachedPage, views: seq<Showing>) {
    forall k :: k in e.resources ==> Witnessed(views, k, e.resources[k])
  }

  lemma HonestLater(e: CachedPage, views: seq<Showing>, more: seq<Showing>)
    requires Honest(e, views) && views <= more
    ensures Honest(e, more)
  {
    forall k | k in e.resources ensures Witnessed(more, k, e.resources[k]) {
      var i :| 0 <= i < |views| && FreshAt(views[i], k, e.resources[k]);
      assert more[i] == views[i];
    }
  }

  lemma FreshIsHonest(e: CachedPage, v: Showing)
    requires forall k :: k in e.resources ==> FreshAt(v, k, e.resources[k])
    ensures Honest(e, [v])
  {
    forall k | k in e.resources ensures Witnessed([v], k, e.resources[k]) {
      assert FreshAt([v][0], k, e.resources[k]);
    }
  }

  /** Settling records only versions that are fresh now and keeps the others. */
  lemma SettledIsHonest(e: CachedPage, views: seq<Showing>, v: Showing, keys: seq<string>)
    requires Honest(e, views) && Settled(e, v, keys).Some?
    ensures Honest(Settled(e, v, keys).value, views + [v])
  {
    var page := Settled(e, v, keys).value;
    forall k | k in page.resources ensures Witnessed(views + [v], k, page.resources[k]) {
      SettleAllMeans(Settling(e.resources, Elements(e.pendingDeferred)), e.resourceKeys, v, keys, k);
      if k in keys && k in e.resourceKeys && !Awaited(v, k) {
        assert FreshAt((views + [v])[|views|], k, page.resources[k]);
      } else {
        HonestLater(e, views, views + [v]);
      }
    }
  }

  /** The store and the cache of one router, with what the store showed when each page was last
      cached, and since then whenever loads of that page settled. */
  class PageSession {
    const store: RS.ResourceStore
    const cache: PC.PageCache
    ghost var views: map<string, seq<Showing>>

    constructor (maxResources: nat, maxPages: nat)
      requires maxResources >= 1 && maxPages >= 1
      ensures Valid() && fresh(store) && fresh(cache) && views == map[]
    {
      store := new RS.ResourceStore(maxResources);
      cache := new PC.PageCache(maxPages);
      views := map[];
    }

    /** Each page waits only for keys of its own, and each of its recorded versions was fresh when
        this page was cached or when its loads settled since. */
    ghost predicate Valid()
      reads this, store, cache
    {
      && store.Valid() && cache.Valid() && cache.Owned()
      && (forall url :: url in cache.entries ==> url in views && Honest(cache.entries[url], views[url]))
    }

    /** Any write to the store; no page changes. */
    method Write(event: Event)
      requires Valid()
      modifies store
      ensures Valid()
    {
      match event {
        case Received(key, version, value) => var _ := store.Set(key, version, value);
        case Patched(key, apply, suffix) => var _ := store.Patch(key, apply, suffix);
        case Requested(keys) => store.MarkPending(keys);
        case Failed(key, error) => store.SetResourceError(key, error);
        case Obsolete(key) => store.MarkStale(key);
        case Dropped(key) => store.Invalidate(key);
        case Emptied => store.Clear();
        case _ =>
      }
    }

    method ArrivePage(page: RP.Page, resourceKeys: Option<seq<string>>, deferred: seq<string>, live: seq<string>)
      requires Valid()
      modifies this`views, cache
      ensures Valid() && views == old(views)[page.url := [cache.Shown(store)]] && page.url in cache.entries
    {
      cache.CachePageEnvelope(page, resourceKeys, deferred, live, store);
      views := views[page.url := [cache.Shown(store)]];
      FreshIsHonest(cache.entries[page.url], cache.Shown(store));
    }

    /** The page that the application starts with, when it comes without an envelope. */
    method ArriveFirst(page: RP.Page)
      requires Valid()
      modifies this`views, cache
      ensures Valid() && views == old(views)[page.url := [cache.Shown(store)]] && page.url in cache.entries
    {
      var known := store.ExportKnownVersions(100);
      cache.Set(page, known, None);
      views := views[page.url := [cache.Shown(store)]];
      FreshIsHonest(cache.entries[page.url], cache.Shown(store));
    }

    /** A page that is found shows each of its keys as it was when this page was cached or settled:
        the version held now is fresh, and was the fresh one then. */
    method Revisit(url: string) returns (hit: Option<CachedPage>)
      requires Valid()
      modifies cache, store`lruOrder
      ensures Valid()
      ensures hit.Some? ==> url in views
      ensures hit.Some? ==> forall k :: k in hit.value.resourceKeys && k !in hit.value.pendingDeferred ==>
                if k in hit.value.resources
                then k in store.records && k !in store.staleKeys && Witnessed(views[url], k, store.records[k].version)
                else store.State(k).status == RS.Error
    {
      hit := cache.GetValid(url, store);
      if hit.Some? {
        ghost var e := hit.value;
        forall k | k in e.resourceKeys && k !in e.pendingDeferred ensures Kept(e, cache.Shown(store), k) {
        }
      }
    }

    method SettleLoads(url: string, keys: seq<string>)
      requires Valid()
      modifies this`views, cache, store`lruOrder
      ensures Valid()
      ensures views == if url in old(cache.entries) then old(views)[url := old(views)[url] + [cache.Shown(store)]]
                       else old(views)
    {
      ghost var was, shown := cache.entries, cache.Shown(store);
      cache.SettleResources(url, keys, store);
      if url in was {
        if url in cache.entries {
          SettledIsHonest(was[url], views[url], shown, keys);
        }
        views := views[url := views[url] + [shown]];
      }
    }

    method Step(event: Event)
      requires Valid()
      modifies this`views, cache, store
      ensures Valid()
    {
      match event
      case PageArrived(page, resourceKeys, deferred, live) => ArrivePage(page, resourceKeys, deferred, live);
      case FirstPage(page) => ArriveFirst(page);
      case PageRevisited(url) => var _ := Revisit(url);
      case LoadsSettled(url, keys) => SettleLoads(url, keys);
      case PagesForgotten => cache.Clear();
      case _ => Write(event);
    }

    /** Over any run every cached page stays honest and waits only for keys of its own. */
    method Run(script: seq<Event>)
      requires Valid()
      modifies this`views, cache, store
      ensures Valid()
    {
      for i := 0 to |script|
        invariant Valid()
      {
        Step(script[i]);
      }
    }
  }
}
