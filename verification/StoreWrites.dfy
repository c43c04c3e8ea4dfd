/** The store's writes, by what they leave under each key. */
module StoreWrites {
  import opened Json
  import opened RouterProtocol
  import opened StoreEffects
  import opened SweepEffects
  import RS = ResourceStore

  method SetValue(store: RS.ResourceStore, key: string, record: RS.Record)
    requires store.Valid()
    modifies store
    ensures store.Valid()
    ensures Does(key, Deed({record}, Fresh), store.maxResources, old(store.Contents()), store.Contents())
  {
    ghost var before := store.Contents();
    var updated := store.Set(key, record.version, record.value);
    assert HasVersion({record}, record.version);
    ValueShown(store, key, before, updated, record);
    DoesOne(key, Deed({record}, Fresh), store.maxResources, before, store.Contents());
  }

  /** What `Set` left under the key. */
  lemma ValueShown(store: RS.ResourceStore, key: string, before: RS.Picture, updated: bool, record: RS.Record)
    requires store.Valid() && HasVersion({record}, record.version)
    requires updated ==>
               store.At(key) == RS.View(Some(record), Some(RS.Snapshot(Some(record.value), RS.Ready, None, false)),
                                        false)
    requires !updated ==>
               && RS.See(before, key) == store.At(key) && key in store.records
                   && store.records[key].version == record.version
               && key !in store.staleKeys && store.State(key).status == RS.Ready && store.State(key).error == None
    ensures Shows(Deed({record}, Fresh), true, RS.See(before, key), RS.See(store.Contents(), key))
  {
    assert store.Shown(key);
  }

  method SetError(store: RS.ResourceStore, key: string, error: RS.ErrorDetail)
    requires store.Valid()
    modifies store
    ensures store.Valid()
    ensures Does(key, Deed({}, Marked(RS.Error, Some(error))), store.maxResources, old(store.Contents()),
                 store.Contents())
  {
    ghost var before := store.Contents();
    store.SetResourceError(key, error);
    DoesOne(key, Deed({}, Marked(RS.Error, Some(error))), store.maxResources, before, store.Contents());
  }

  method SetLoading(store: RS.ResourceStore, key: string)
    requires store.Valid()
    modifies store
    ensures store.Valid()
    ensures Does(key, Deed({}, Marked(RS.Loading, None)), store.maxResources, old(store.Contents()), store.Contents())
  {
    ghost var before := store.Contents();
    store.Mark(key, RS.Loading, None);
    DoesOne(key, Deed({}, Marked(RS.Loading, None)), store.maxResources, before, store.Contents());
  }

  method SetPending(store: RS.ResourceStore, key: string)
    requires store.Valid()
    modifies store
    ensures store.Valid()
    ensures Does(key, Deed({}, Marked(RS.Pending, None)), store.maxResources, old(store.Contents()), store.Contents())
  {
    ghost var before := store.Contents();
    store.MarkOnePending(key);
    assert store.Waits(key) && store.State(key) != RS.MissingState;
    DoesOne(key, Deed({}, Marked(RS.Pending, None)), store.maxResources, before, store.Contents());
  }

  /** A write to a key that is held leaves the others alone. */
  lemma OthersUnchanged(before: RS.Picture, after: RS.Picture, key: string, max: nat)
    requires max >= 1 && RS.Sound(before, max) && RS.Sound(after, max)
    requires after == before ||
             (key in before.order && RS.OthersLikeBefore(before, after, key) && RS.Relisted(before, after, key, max))
    ensures forall k :: k != key ==> RS.See(after, k) == RS.See(before, k)
  {
    if after != before {
      forall k | k != key ensures RS.See(after, k) == RS.See(before, k) {
        RS.KeySpared(before, after, key, max, k);
      }
    }
  }

  method SetStale(store: RS.ResourceStore, key: string)
    requires store.Valid()
    modifies store
    ensures store.Valid() && (key in store.records ==> key in store.staleKeys)
    ensures forall k :: RS.See(store.Contents(), k) ==
                        if k == key then Obsoleted(true, old(RS.See(store.Contents(), k)))
                            else old(RS.See(store.Contents(), k))
  {
    ghost var before := store.Contents();
    assert key in store.records ==> key in store.lruOrder && store.Shown(key);
    store.MarkStale(key);
    assert key in store.records ==> store.Shown(key);
    assert RS.See(before, key) == old(store.At(key)) && RS.See(store.Contents(), key) == store.At(key);
    OthersUnchanged(before, store.Contents(), key, store.maxResources);
  }

  method SetPatched(store: RS.ResourceStore, change: Change) returns (patched: bool)
    requires store.Valid()
    modifies store
    ensures store.Valid() && patched == (change.key in old(store.records))
    ensures forall k :: RS.See(store.Contents(), k) ==
                        if k == change.key then Changed(change, false, old(RS.See(store.Contents(), k)))
                        else old(RS.See(store.Contents(), k))
  {
    ghost var before := store.Contents();
    assert change.key in store.records ==> change.key in store.lruOrder;
    patched := store.Patch(change.key, change.apply, change.suffix);
    assert RS.See(before, change.key) == old(store.At(change.key));
    assert RS.See(store.Contents(), change.key) == store.At(change.key);
    OthersUnchanged(before, store.Contents(), change.key, store.maxResources);
  }
}
