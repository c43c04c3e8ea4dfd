/** The client router: navigations, loads, prefetches, mutations and live events race, and
    resource epochs decide which response may still write. One method per stretch of code
    between two awaits; responses arrive as arguments, in any order or never. */
module Router {
  import opened Json
  import opened ResourceEpochs
  import opened RouterProtocol
  import opened Recency
  import opened StoreEffects
  import opened PageEffects
  import opened SweepEffects
  import opened StoreWrites
  import RS = ResourceStore

  class FluxRouter {
    const resourceStore: RS.ResourceStore
    const resourceEpochs: ResourceEpochMap
    var page: Page
    var currentVisitId: Option<nat>
    var activeDeferred: Option<Deferred>
    var deferredCounter: nat
    var visitCounter: nat
    var lifecycleGeneration: nat
    var resourceLoadCounter: nat
    var resourceEpochCounter: nat
    var liveStarted: bool
    var activeLiveLoadEpochs: map<nat, map<string, nat>>
    ghost var log: seq<Write>
    /** The epochs captured by the load of the deferred batch in progress. */
    ghost var deferredCaptured: map<string, nat>
    /** The loads that have ended. */
    ghost var ended: set<nat>

    constructor (store: RS.ResourceStore, page: Page)
      requires store.Valid()
      ensures Valid() && fresh(resourceEpochs) && resourceStore == store && this.page == page && log == []
              && ended == {}
    {
      resourceStore, this.page := store, page;
      resourceEpochs := new ResourceEpochMap();
      currentVisitId, activeDeferred, activeLiveLoadEpochs := None, None, map[];
      visitCounter, lifecycleGeneration, resourceLoadCounter, resourceEpochCounter := 0, 0, 0, 0;
      liveStarted, deferredCounter := false, 0;
      log, deferredCaptured, ended := [], map[], {};
    }

    /** The epochs, with the unbounded history they stand for. */
    ghost function Epochs(): Ledger
      reads this, resourceEpochs
    {
      resourceEpochs.ledger
    }

    ghost function Registered(): Registry
      reads this
    {
      Registry(activeLiveLoadEpochs, if activeDeferred.Some? then activeDeferred.value.load else None, deferredCaptured)
    }

    ghost predicate Valid()
      reads this, resourceStore, resourceEpochs
    {
      && resourceStore.Valid() && resourceEpochs.Valid()
      && Epochs().counter == resourceEpochCounter
      && (currentVisitId.Some? ==> currentVisitId.value <= visitCounter)
      && Consistent(log, activeLiveLoadEpochs, resourceLoadCounter, activeDeferred, deferredCaptured, Epochs())
    }

    ghost function Now(): Moment
      reads this, resourceEpochs
    {
      Moment(visitCounter, currentVisitId, lifecycleGeneration, resourceLoadCounter, ended, log, Registered(), Epochs())
    }

    twostate predicate Advanced()
      reads this, resourceStore, resourceEpochs
    {
      Valid() && Forward(old(Now()), Now())
    }

    // ----- Epochs -----

    method BumpResourceEpoch(key: string, speculative: bool) returns (epoch: nat)
      requires Valid()
      modifies this`resourceEpochCounter, resourceEpochs
      ensures Valid() && Epochs() == Step(old(Epochs()), Bumped(key, speculative))
      ensures BumpedTo(old(Epochs()), Epochs(), key, epoch)
      ensures !speculative ==> RuledBy(old(Epochs()), Epochs(), key, epoch)
    {
      epoch := resourceEpochCounter + 1;
      BumpFacts(Epochs(), Bumped(key, speculative));
      BumpKeeps(log, activeLiveLoadEpochs, resourceLoadCounter, activeDeferred, deferredCaptured,
                Epochs(), Bumped(key, speculative));
      resourceEpochs.Advance(key, epoch, speculative);
      resourceEpochCounter := epoch;
    }

    method EpochNow(key: string) returns (epoch: nat)
      requires Valid()
      ensures epoch == EpochOf(Epochs().table, key)
    {
      var e := resourceEpochs.Lookup(key);
      return if e.Some? then e.value.epoch else 0;
    }

    method AuthorityNow(key: string) returns (epoch: nat)
      requires Valid()
      ensures epoch == AuthorityOf(Epochs().table, key)
    {
      var e := resourceEpochs.Lookup(key);
      return if e.Some? then e.value.authoritative else 0;
    }

    // ----- Writes to the store -----

    /** Notes a write in the name of the operation that gave `key` this epoch; it must be the last
        to have done so. */
    ghost method Record(key: string, epoch: nat, kind: WriteKind)
      requires Valid() && Due(key, epoch, Epochs())
      modifies this`log
      ensures Valid() && log == old(log) + [Write(key, epoch, kind)]
    {
      AppendWrite(log, Epochs(), key, epoch, kind);
      log := log + [Write(key, epoch, kind)];
    }

    ghost function Seen(): RS.Picture
      reads resourceStore
    {
      resourceStore.Contents()
    }

    /** The store has room for that many more keys. */
    ghost predicate RoomFor(n: nat)
      reads resourceStore
    {
      |resourceStore.lruOrder| + n <= resourceStore.maxResources
    }

    method WriteValue(key: string, record: RS.Record, ghost epoch: nat)
      requires Valid() && Due(key, epoch, Epochs())
      modifies this`log, resourceStore
      ensures Valid() && log == old(log) + [Write(key, epoch, ValueWrite(record.version))]
      ensures Does(key, Deed({record}, Fresh), resourceStore.maxResources, old(Seen()), Seen())
    {
      SetValue(resourceStore, key, record);
      Record(key, epoch, ValueWrite(record.version));
    }

    method WriteError(key: string, error: RS.ErrorDetail, ghost epoch: nat)
      requires Valid() && Due(key, epoch, Epochs())
      modifies this`log, resourceStore
      ensures Valid() && log == old(log) + [Write(key, epoch, ErrorWrite(error))]
      ensures Does(key, Deed({}, Marked(RS.Error, Some(error))), resourceStore.maxResources, old(Seen()), Seen())
    {
      SetError(resourceStore, key, error);
      Record(key, epoch, ErrorWrite(error));
    }

    method WriteStale(key: string, ghost epoch: nat)
      requires Valid() && Due(key, epoch, Epochs())
      modifies this`log, resourceStore
      ensures Valid() && log == old(log) + [Write(key, epoch, InvalidationWrite)]
      ensures key in resourceStore.records ==> key in resourceStore.staleKeys
      ensures forall k :: RS.See(Seen(), k) == if k == key then Obsoleted(true, old(RS.See(Seen(), k)))
                                               else old(RS.See(Seen(), k))
    {
      SetStale(resourceStore, key);
      Record(key, epoch, InvalidationWrite);
    }

    method WriteMissing(key: string, ghost epoch: nat)
      requires Valid() && Due(key, epoch, Epochs())
      modifies this`log, resourceStore
      ensures Valid() && log == old(log) + [Write(key, epoch, InvalidationWrite)] && resourceStore.OthersKept(key)
      ensures RS.See(Seen(), key) == RS.Empty && |Seen().order| <= |old(Seen()).order|
      ensures forall k :: k != key ==> RS.See(Seen(), k) == old(RS.See(Seen(), k))
    {
      resourceStore.Invalidate(key);
      Record(key, epoch, InvalidationWrite);
    }

    method WritePatch(key: string, apply: Value -> Value, suffix: string, ghost epoch: nat) returns (patched: bool)
      requires Valid() && Due(key, epoch, Epochs())
      modifies this`log, resourceStore
      ensures Valid() && (!patched ==> log == old(log))
      ensures patched == (key in old(resourceStore.records))
      ensures patched ==>
                log == old(log) + [Write(key, epoch, ValueWrite(old(resourceStore.records)[key].version + suffix))]
      ensures forall k :: RS.See(Seen(), k) == if k == key
                                               then Changed(Change(key, apply, suffix), false, old(RS.See(Seen(), k)))
                                               else old(RS.See(Seen(), k))
    {
      ghost var was := resourceStore.records;
      patched := SetPatched(resourceStore, Change(key, apply, suffix));
      if patched {
        Record(key, epoch, ValueWrite(was[key].version + suffix));
      }
    }

    /** Puts a key back to what the store holds: the same record again, or nothing. */
    method Restore(key: string, stale: bool, ghost epoch: nat)
      requires Valid() && Due(key, epoch, Epochs())
      modifies this`log, resourceStore
      ensures Valid() && |log| == |old(log)| + 1 && log[..|log| - 1] == old(log)
      ensures log[|log| - 1].key == key && log[|log| - 1].epoch == epoch && !log[|log| - 1].kind.ErrorWrite?
      ensures resourceStore.At(key).record == old(resourceStore.At(key)).record
      ensures resourceStore.At(key).stale == (stale && key in old(resourceStore.records))
      ensures forall k :: k != key ==> RS.See(Seen(), k) == old(RS.See(Seen(), k))
      ensures !stale ==> Does(key, AsHeld, resourceStore.maxResources, old(Seen()), Seen())
    {
      TouchedSize(resourceStore.lruOrder, key);
      WithoutUnique(resourceStore.lruOrder, key);
      var record := resourceStore.GetRecord(key);
      if record.Some? {
        RestoreRecord(key, record.value, stale, epoch, old(Seen()));
      } else {
        WriteMissing(key, epoch);
      }
    }

    method RestoreRecord(key: string, record: RS.Record, stale: bool, ghost epoch: nat, ghost before: RS.Picture)
      requires Valid() && Due(key, epoch, Epochs())
      requires before.(order := Seen().order) == Seen() && |before.order| == |Seen().order|
      requires key in before.order && key in resourceStore.lruOrder
      requires key in before.records && before.records[key] == record
      modifies this`log, resourceStore
      ensures Valid() && |log| == |old(log)| + 1 && log[..|log| - 1] == old(log)
      ensures log[|log| - 1].key == key && log[|log| - 1].epoch == epoch && log[|log| - 1].kind.ValueWrite?
      ensures resourceStore.At(key).record == Some(record) && resourceStore.At(key).stale == stale
      ensures forall k :: k != key ==> RS.See(Seen(), k) == RS.See(before, k)
      ensures !stale ==> Does(key, AsHeld, resourceStore.maxResources, before, Seen())
    {
      ghost var read := Seen();
      WriteValue(key, record, epoch);
      DoesAgain(key, record, resourceStore.maxResources, before, read, Seen());
      if stale {
        SetStale(resourceStore, key);
      }
    }

    // ----- Operations that have been overtaken -----

    /** A load that this router has started. */
    ghost predicate Issued(load: Load)
      reads this, resourceEpochs
    {
      load.generation <= lifecycleGeneration &&
      (load.generation == lifecycleGeneration ==> Known(load.captured, Epochs()))
    }

    /** A load whose response can no longer write anything. */
    ghost predicate Superseded(load: Load)
      reads this, resourceEpochs
    {
      load.generation < lifecycleGeneration || Outdated(load.captured, Epochs())
    }

    /** A live or deferred load has ended, is superseded, or can still be called off. */
    ghost predicate Accounted(load: Load)
      reads this, resourceEpochs
    {
      match load.reason
      case Asked => true
      case FromLive =>
        (load.id in ended || Superseded(load) ||
         (load.id in activeLiveLoadEpochs && activeLiveLoadEpochs[load.id] == load.captured))
      case ForDeferred =>
        (load.id in ended || Superseded(load) ||
         (activeDeferred.Some? && activeDeferred.value.load == Some(load.id) && deferredCaptured == load.captured))
    }

    /** No later step revives a load, disowns it or loses track of it. */
    twostate lemma LoadsAge(load: Load)
      requires old(Issued(load)) && Advanced()
      ensures Issued(load)
      ensures old(Superseded(load)) ==> Superseded(load)
      ensures old(Accounted(load)) ==> Accounted(load)
    {
      if load.generation == lifecycleGeneration {
        KnownForGood(load.captured, old(Epochs()), Epochs());
        if old(Superseded(load)) {
          OutdatedForGood(load.captured, old(Epochs()), Epochs());
        }
      }
    }

    /** A visit that is no longer the current one never becomes it again. */
    twostate lemma VisitsAge(visit: Visit)
      requires old(visit.id <= visitCounter && currentVisitId != Some(visit.id)) && Advanced()
      ensures visit.id <= visitCounter && currentVisitId != Some(visit.id)
    {
    }

    // ----- Loads -----

    /** Gives `key` its next epoch and adds it to the captured ones. */
    method Capture(key: string, speculative: bool, captured: map<string, nat>,
                   ghost start: Ledger) returns (more: map<string, nat>)
      requires Valid() && Current(captured, start.counter, speculative, Epochs()) && Bumps(start, Epochs(), speculative)
      modifies this`resourceEpochCounter, resourceEpochs
      ensures Valid() && Bumps(start, Epochs(), speculative)
      ensures Current(more, start.counter, speculative, Epochs()) && more.Keys == captured.Keys + {key}
    {
      var epoch := BumpResourceEpoch(key, speculative);
      CapturesOne(captured, start, old(Epochs()), Epochs(), Bumped(key, speculative));
      more := captured[key := epoch];
    }

    /** Gives each key its next epoch, in order. */
    method BumpAll(keys: seq<string>, speculative: bool) returns (captured: map<string, nat>)
      requires Valid()
      modifies this`resourceEpochCounter, resourceEpochs
      ensures Valid() && Bumps(old(Epochs()), Epochs(), speculative)
      ensures Covers(captured, keys) && Current(captured, old(Epochs()).counter, speculative, Epochs())
    {
      captured := map[];
      BumpsNone(Epochs(), speculative);
      var i := 0;
      while i < |keys|
        invariant i <= |keys| && Valid() && Bumps(old(Epochs()), Epochs(), speculative)
        invariant Covers(captured, keys[..i]) && Current(captured, old(Epochs()).counter, speculative, Epochs())
      {
        var more := Capture(keys[i], speculative, captured, old(Epochs()));
        CoversMore(captured, more, keys, i);
        captured := more;
        i := i + 1;
      }
      CoversAll(captured, keys);
    }

    method MarkLoading(keys: seq<string>)
      requires Valid()
      modifies resourceStore
      ensures Valid() && Waiting(keys, RS.Loading, old(RoomFor(|keys|)), old(Seen()), Seen())
    {
      ghost var room, before := RoomFor(|keys|), Seen();
      WaitingNone(RS.Loading, room, before);
      assert keys[..0] == [];
      for i := 0 to |keys|
        invariant resourceStore.Valid() && Waiting(keys[..i], RS.Loading, room, before, Seen())
      {
        ghost var seen := Seen();
        SetLoading(resourceStore, keys[i]);
        WaitingMore(keys, i, RS.Loading, room, resourceStore.maxResources, before, seen, Seen());
      }
      assert keys[..|keys|] == keys;
    }

    /** A load just started for these keys. */
    ghost predicate Started(load: Load, keys: seq<string>, reason: Reason)
      reads this, resourceEpochs
    {
      && load.generation == lifecycleGeneration && load.reason == reason && load.keys == keys
      && Covers(load.captured, keys) && Current(load.captured, 0, false, Epochs())
    }

    method StartLoad(requested: seq<string>, reason: Reason) returns (load: Load)
      requires Valid()
      modifies this`resourceEpochCounter, this`resourceLoadCounter, this`activeLiveLoadEpochs, resourceEpochs
      ensures Advanced()
      ensures Started(load, requested, reason) && load.id == resourceLoadCounter == old(resourceLoadCounter) + 1
      ensures reason.FromLive? ==> load.id in activeLiveLoadEpochs && activeLiveLoadEpochs[load.id] == load.captured
    {
      var captured := BumpAll(requested, false);
      ForwardWrites(old(Now()), Now());
      Register(old(Now()), captured, reason);
      return Load(resourceLoadCounter, lifecycleGeneration, requested, captured, reason);
    }

    method Register(ghost before: Moment, captured: map<string, nat>, reason: Reason)
      requires Valid() && Current(captured, 0, false, Epochs()) && Forward(before, Now())
      modifies this`resourceLoadCounter, this`activeLiveLoadEpochs
      ensures Valid() && Forward(before, Now())
      ensures Epochs() == old(Epochs()) && resourceLoadCounter == old(resourceLoadCounter) + 1
      ensures reason.FromLive? ==>
                resourceLoadCounter in activeLiveLoadEpochs && activeLiveLoadEpochs[resourceLoadCounter] == captured
    {
      CurrentIsKnown(captured, 0, false, Epochs());
      resourceLoadCounter := resourceLoadCounter + 1;
      if reason.FromLive? {
        HandedMore(Registered(), resourceLoadCounter, captured, ended, Epochs());
        activeLiveLoadEpochs := activeLiveLoadEpochs[resourceLoadCounter := captured];
      } else {
        HandedSame(Registered(), ended, Epochs());
      }
      LaterSame(Epochs());
      ForwardChain(before, old(Now()), Now());
    }

    /** The part of a load before its request is answered. */
    method BeginLoad(keys: seq<string>, reason: Reason) returns (load: Option<Load>)
      requires Valid()
      modifies this`resourceEpochCounter, this`resourceLoadCounter, this`activeLiveLoadEpochs, resourceEpochs,
               resourceStore
      ensures Advanced()
      ensures load.None? <==> Requested(keys) == []
      ensures load.None? ==> Epochs() == old(Epochs())
      ensures load.Some? ==> Started(load.value, Requested(keys), reason)
      ensures Waiting(Requested(keys), RS.Loading, old(RoomFor(|Requested(keys)|)), old(Seen()), Seen())
      ensures load.Some? ==> load.value.id == resourceLoadCounter == old(resourceLoadCounter) + 1
      ensures load.Some? && reason.FromLive? ==>
                load.value.id in activeLiveLoadEpochs && activeLiveLoadEpochs[load.value.id] == load.value.captured
    {
      var requested := Requested(keys);
      if requested == [] {
        ForwardSame(Now());
        WaitingNone(RS.Loading, RoomFor(0), Seen());
        return None;
      }
      var started := StartLoad(requested, reason);
      MarkLoading(requested);
      return Some(started);
    }

    /** The part of a load after its request ended: it writes a key only if nothing has given
        the key another epoch since, and nothing at all once it is superseded. */
    method SettleLoad(load: Load, end: LoadEnd)
      requires Valid() && Issued(load)
      modifies this`log, this`activeLiveLoadEpochs, this`ended, resourceStore
      ensures Advanced() && Epochs() == old(Epochs()) && ended == old(ended) + {load.id}
      ensures old(Superseded(load)) ==> log == old(log) && unchanged(resourceStore)
      ensures Stamped(log, |old(log)|, load.captured, Epochs())
      ensures load.generation == lifecycleGeneration ==>
                && Answered(load.keys, load.captured, Epochs(), Wrote(log, |old(log)|)) && Fitting(log, |old(log)|, end)
                && Settling(load.keys, load.captured, Epochs(), end, old(RoomFor(|load.keys|)), old(Seen()), Seen())
    {
      LaterSame(Epochs());
      if load.generation == lifecycleGeneration {
        SettleKeys(load, end);
      }
      ForwardWrites(old(Now()), Now());
      Release(old(Now()), load);
    }

    method Release(ghost before: Moment, load: Load)
      requires Valid() && Forward(before, Now())
      modifies this`activeLiveLoadEpochs, this`ended
      ensures Valid() && Forward(before, Now()) && ended == old(ended) + {load.id}
    {
      ended := ended + {load.id};
      activeLiveLoadEpochs := activeLiveLoadEpochs - {load.id};
      LaterSame(Epochs());
      HandedLess(old(Registered()), load.id, ended, Epochs());
      ForwardChain(before, old(Now()), Now());
    }

    method SettleKeys(load: Load, end: LoadEnd)
      requires Valid() && Known(load.captured, Epochs())
      modifies this`log, resourceStore
      ensures Valid() && old(log) <= log && Stamped(log, |old(log)|, load.captured, Epochs())
      ensures Outdated(load.captured, Epochs()) ==> log == old(log) && unchanged(resourceStore)
      ensures Answered(load.keys, load.captured, Epochs(), Wrote(log, |old(log)|)) && Fitting(log, |old(log)|, end)
      ensures Settling(load.keys, load.captured, Epochs(), end, old(RoomFor(|load.keys|)), old(Seen()), Seen())
    {
      ghost var room, before := RoomFor(|load.keys|), Seen();
      SettlingNone(load.captured, Epochs(), end, room, before);
      assert load.keys[..0] == [];
      for i := 0 to |load.keys|
        invariant Valid() && old(log) <= log && Stamped(log, |old(log)|, load.captured, Epochs())
        invariant Outdated(load.captured, Epochs()) ==> log == old(log) && unchanged(resourceStore)
        invariant Answered(load.keys[..i], load.captured, Epochs(), Wrote(log, |old(log)|))
                && Fitting(log, |old(log)|, end)
        invariant Settling(load.keys[..i], load.captured, Epochs(), end, room, before, Seen())
      {
        SettleNext(load, i, end, |old(log)|, room, before);
      }
      assert load.keys[..|load.keys|] == load.keys;
    }

    method SettleNext(load: Load, i: nat, end: LoadEnd, ghost from: nat, ghost room: bool, ghost before: RS.Picture)
      requires Valid() && Known(load.captured, Epochs()) && i < |load.keys| && from <= |log|
      requires Stamped(log, from, load.captured, Epochs()) && Fitting(log, from, end)
      requires Answered(load.keys[..i], load.captured, Epochs(), Wrote(log, from))
      requires Settling(load.keys[..i], load.captured, Epochs(), end, room, before, Seen())
      requires room ==> |before.order| + |load.keys| <= resourceStore.maxResources
      modifies this`log, resourceStore
      ensures Valid() && old(log) <= log && Stamped(log, from, load.captured, Epochs()) && Fitting(log, from, end)
      ensures Outdated(load.captured, Epochs()) ==> log == old(log) && unchanged(resourceStore)
      ensures Answered(load.keys[..i + 1], load.captured, Epochs(), Wrote(log, from))
      ensures Settling(load.keys[..i + 1], load.captured, Epochs(), end, room, before, Seen())
    {
      ghost var written := log;
      var now := SettleShown(load, i, end, room, before);
      AnsweredMore(load.keys, i, load.captured, Epochs(), Wrote(written, from), Wrote(log, from));
    }

    method SettleShown(load: Load, i: nat, end: LoadEnd, ghost room: bool, ghost before: RS.Picture)
      returns (current: bool)
      requires Valid() && Known(load.captured, Epochs()) && i < |load.keys|
      requires Settling(load.keys[..i], load.captured, Epochs(), end, room, before, Seen())
      requires room ==> |before.order| + |load.keys| <= resourceStore.maxResources
      modifies this`log, resourceStore
      ensures Valid() && current == (load.keys[i] in load.captured
                                     && EpochOf(Epochs().table, load.keys[i]) == load.captured[load.keys[i]])
      ensures !current ==> log == old(log) && unchanged(resourceStore)
      ensures current ==> |log| > 0 && log == old(log) + [log[|log| - 1]] && log[|log| - 1].key == load.keys[i]
                          && log[|log| - 1].epoch == load.captured[load.keys[i]]
                          && Due(load.keys[i], load.captured[load.keys[i]], Epochs())
      ensures current ==> Fits(end, load.keys[i], log[|log| - 1].kind)
      ensures Settling(load.keys[..i + 1], load.captured, Epochs(), end, room, before, Seen())
    {
      ghost var seen := Seen();
      current := SettleIfCurrent(load.captured, load.keys[i], end);
      SettlingMore(load.keys, i, load.captured, Epochs(), end, room, resourceStore.maxResources, before, seen, Seen());
    }

    /** Settles a key in the name of the load that captured it, if it still holds the key. */
    method SettleIfCurrent(captured: map<string, nat>, key: string, end: LoadEnd) returns (current: bool)
      requires Valid() && Known(captured, Epochs())
      modifies this`log, resourceStore
      ensures Valid() && current == (key in captured && EpochOf(Epochs().table, key) == captured[key])
      ensures !current ==> log == old(log) && unchanged(resourceStore)
      ensures current ==> |log| > 0 && log == old(log) + [log[|log| - 1]] && log[|log| - 1].key == key
                          && log[|log| - 1].epoch == captured[key] && Due(key, captured[key], Epochs())
      ensures current ==> Fits(end, key, log[|log| - 1].kind)
      ensures current ==>
                && Does(key, DeedFor(end, key), resourceStore.maxResources, old(Seen()), Seen())
                && (DeedFor(end, key) == AsHeld ==> forall k :: k != key ==> RS.See(Seen(),
                                                                                    k) == old(RS.See(Seen(), k)))
    {
      var epoch := EpochNow(key);
      current := key in captured && epoch == captured[key];
      if current {
        StillCurrent(captured, Epochs(), key);
        SettleKey(key, end, captured[key]);
      }
    }

    method SettleKey(key: string, end: LoadEnd, ghost epoch: nat)
      requires Valid() && Due(key, epoch, Epochs())
      modifies this`log, resourceStore
      ensures Valid() && |log| == |old(log)| + 1 && log[..|log| - 1] == old(log)
      ensures log[|log| - 1].key == key && log[|log| - 1].epoch == epoch
      ensures Fits(end, key, log[|log| - 1].kind)
      ensures Does(key, DeedFor(end, key), resourceStore.maxResources, old(Seen()), Seen())
      ensures DeedFor(end, key) == AsHeld ==> forall k :: k != key ==> RS.See(Seen(), k) == old(RS.See(Seen(), k))
    {
      match end
      case Answer(resources, errors) =>
        if key in resources {
          WriteValue(key, resources[key], epoch);
        } else if key in errors {
          WriteError(key, errors[key], epoch);
        } else {
          Restore(key, false, epoch);
        }
      case Aborted =>
        Restore(key, false, epoch);
      case Broken(error) =>
        WriteError(key, error, epoch);
    }

    // ----- Superseding work -----

    ghost function Shelved(): Shelf
      reads resourceStore
    {
      Shelf(resourceStore.records, resourceStore.staleKeys)
    }

    /** Puts a record back as stale, for an operation that gives up the key. */
    method PutBack(key: string, ghost epoch: nat)
      requires Valid() && Due(key, epoch, Epochs())
      modifies this`log, resourceStore
      ensures Valid() && |log| == |old(log)| + 1 && log[..|old(log)|] == old(log)
      ensures log[|old(log)|].key == key && log[|old(log)|].epoch == epoch
      ensures Faded(old(Shelved()), Shelved()) && (key in Shelved().records ==> key in Shelved().stale)
    {
      Restore(key, true, epoch);
      forall k | k in Shelved().records
        ensures k in old(Shelved()).records && Shelved().records[k] == old(Shelved()).records[k]
        ensures k in old(Shelved()).stale ==> k in Shelved().stale
      {
        assert k != key ==> RS.See(Seen(), k) == old(RS.See(Seen(), k));
        assert k == key ==> resourceStore.At(k).record == old(resourceStore.At(k)).record;
      }
    }

    /** Takes a key away from the operation that holds it and puts its record back as stale. */
    method Retire(key: string)
      requires Valid()
      modifies this`resourceEpochCounter, this`log, resourceEpochs, resourceStore
      ensures Valid() && TakenBack(old(Now()), old(Shelved()), Now(), Shelved())
      ensures RuledBy(old(Epochs()), Epochs(), key, Epochs().counter)
    {
      var epoch := BumpResourceEpoch(key, false);
      PutBackAfter(key, epoch, old(Now()), old(Shelved()));
    }

    method PutBackAfter(key: string, ghost epoch: nat, ghost before: Moment, ghost shelf: Shelf)
      requires Valid() && RuledBy(before.ledger, Epochs(), key, epoch) && Now() == before.(ledger := Epochs())
      requires Shelved() == shelf
      modifies this`log, resourceStore
      ensures Valid() && TakenBack(before, shelf, Now(), Shelved())
    {
      PutBack(key, epoch);
      TakesBack(before, shelf, Now(), Shelved(), key);
    }

    /** Retires a key that still reads this epoch. */
    method RetireIf(key: string, epoch: nat)
      requires Valid()
      modifies this`resourceEpochCounter, this`log, resourceEpochs, resourceStore
      ensures Valid() && TakenBack(old(Now()), old(Shelved()), Now(), Shelved())
      ensures 1 <= epoch <= EpochOf(old(Epochs()).table, key) ==> EpochOf(Epochs().table, key) > epoch
    {
      TakenBackNone(Now(), Shelved());
      var now := resourceEpochs.Lookup(key);
      if now.Some? && now.value.epoch == epoch {
        RefinesMeans(Epochs().table, Epochs().history, Epochs().counter, key);
        Retire(key);
      }
    }

    /** Takes the keys of the deferred batch back from its load. */
    method AbortActiveDeferred(ghost before: Moment)
      requires Valid() && Forward(before, Now())
      modifies this`resourceEpochCounter, this`log, this`activeDeferred, resourceEpochs, resourceStore
      ensures Valid() && Forward(before, Now()) && activeDeferred.None?
      ensures TakenBack(old(Now()).(registry := Registered()), old(Shelved()), Now(), Shelved())
    {
      TakenBackNone(Now(), Shelved());
      if activeDeferred.Some? {
        RetireBatch(activeDeferred.value);
        TakenBackForward(old(Now()), old(Shelved()), Now(), Shelved());
        ForwardChain(before, old(Now()), Now());
        DropDeferred(before);
      }
    }

    method DropDeferred(ghost before: Moment)
      requires Valid() && Forward(before, Now())
      requires activeDeferred.Some? && activeDeferred.value.load.Some? && activeDeferred.value.load.value !in ended ==>
                 Outdated(deferredCaptured, Epochs())
      modifies this`activeDeferred
      ensures Valid() && Forward(before, Now()) && activeDeferred.None?
    {
      HandedDropped(Registered(), ended, Epochs());
      activeDeferred := None;
      ForwardReleases(old(Now()), Now());
      ForwardChain(before, old(Now()), Now());
    }

    method RetireBatch(batch: Deferred)
      requires Valid() && activeDeferred == Some(batch)
      modifies this`resourceEpochCounter, this`log, resourceEpochs, resourceStore
      ensures Valid() && TakenBack(old(Now()), old(Shelved()), Now(), Shelved()) && Outdated(deferredCaptured, Epochs())
    {
      TakenBackNone(Now(), Shelved());
      ghost var rest := deferredCaptured.Keys;
      for i := 0 to |batch.keys|
        invariant Valid() && TakenBack(old(Now()), old(Shelved()), Now(), Shelved())
        invariant forall k :: k in rest ==> k in batch.keys[i..]
        invariant OutdatedBut(deferredCaptured, rest, Epochs())
      {
        var key := batch.keys[i];
        assert batch.keys[i..] == [key] + batch.keys[i + 1..];
        RetireBatchKey(batch, key, rest, old(Now()), old(Shelved()));
        rest := rest - {key};
      }
      assert rest == {};
    }

    method RetireBatchKey(batch: Deferred, key: string, ghost rest: set<string>, ghost before: Moment,
                          ghost shelf: Shelf)
      requires Valid() && activeDeferred == Some(batch) && TakenBack(before, shelf, Now(), Shelved())
      requires OutdatedBut(deferredCaptured, rest, Epochs())
      modifies this`resourceEpochCounter, this`log, resourceEpochs, resourceStore
      ensures Valid() && TakenBack(before, shelf, Now(), Shelved())
              && OutdatedBut(deferredCaptured, rest - {key}, Epochs())
    {
      if key in batch.epochs {
        RetireIf(key, batch.epochs[key]);
        TakenBackChain(before, shelf, old(Now()), old(Shelved()), Now(), Shelved());
      } else {
        LaterSame(Epochs());
      }
      OutdatedButStep(deferredCaptured, rest, key, old(Epochs()), Epochs());
    }

    method RetireLoad(captured: map<string, nat>)
      requires Valid() && Known(captured, Epochs())
      modifies this`resourceEpochCounter, this`log, resourceEpochs, resourceStore
      ensures Valid() && TakenBack(old(Now()), old(Shelved()), Now(), Shelved()) && Outdated(captured, Epochs())
    {
      TakenBackNone(Now(), Shelved());
      var rest := captured.Keys;
      while rest != {}
        invariant Valid() && TakenBack(old(Now()), old(Shelved()), Now(), Shelved())
        invariant rest <= captured.Keys && Known(captured, Epochs()) && OutdatedBut(captured, rest, Epochs())
        decreases |rest|
      {
        var key :| key in rest;
        RetireLoadKey(captured, key, rest, old(Now()), old(Shelved()));
        rest := rest - {key};
      }
    }

    method RetireLoadKey(captured: map<string, nat>, key: string, ghost rest: set<string>, ghost before: Moment,
                         ghost shelf: Shelf)
      requires Valid() && Known(captured, Epochs()) && key in captured && TakenBack(before, shelf, Now(), Shelved())
      requires OutdatedBut(captured, rest, Epochs())
      modifies this`resourceEpochCounter, this`log, resourceEpochs, resourceStore
      ensures Valid() && Known(captured, Epochs()) && TakenBack(before, shelf, Now(), Shelved())
      ensures OutdatedBut(captured, rest - {key}, Epochs())
    {
      StillCurrent(captured, Epochs(), key);
      RetireIf(key, captured[key]);
      TakenBackChain(before, shelf, old(Now()), old(Shelved()), Now(), Shelved());
      KnownForGood(captured, old(Epochs()), Epochs());
      OutdatedButStep(captured, rest, key, old(Epochs()), Epochs());
    }

    /** Takes the keys of all live loads back. */
    method SupersedeLiveWork(ghost before: Moment)
      requires Valid() && Forward(before, Now())
      modifies this`resourceEpochCounter, this`log, this`activeLiveLoadEpochs, resourceEpochs, resourceStore
      ensures Valid() && Forward(before, Now()) && activeLiveLoadEpochs == map[]
      ensures TakenBack(old(Now()).(registry := Registered()), old(Shelved()), Now(), Shelved())
    {
      RetireLiveLoads();
      TakenBackForward(old(Now()), old(Shelved()), Now(), Shelved());
      ForwardChain(before, old(Now()), Now());
      DropLive(before);
    }

    method DropLive(ghost before: Moment)
      requires Valid() && Forward(before, Now()) && LostBut(activeLiveLoadEpochs, {}, Epochs())
      modifies this`activeLiveLoadEpochs
      ensures Valid() && Forward(before, Now()) && activeLiveLoadEpochs == map[]
    {
      HandedLost(Registered(), ended, Epochs());
      activeLiveLoadEpochs := map[];
      ForwardReleases(old(Now()), Now());
      ForwardChain(before, old(Now()), Now());
    }

    method RetireLiveLoads()
      requires Valid()
      modifies this`resourceEpochCounter, this`log, resourceEpochs, resourceStore
      ensures Valid() && TakenBack(old(Now()), old(Shelved()), Now(), Shelved())
      ensures LostBut(activeLiveLoadEpochs, {}, Epochs())
    {
      TakenBackNone(Now(), Shelved());
      var rest := activeLiveLoadEpochs.Keys;
      while rest != {}
        invariant Valid() && TakenBack(old(Now()), old(Shelved()), Now(), Shelved())
        invariant rest <= activeLiveLoadEpochs.Keys && LostBut(activeLiveLoadEpochs, rest, Epochs())
        decreases |rest|
      {
        ghost var before, shelf := Now(), Shelved();
        var id :| id in rest;
        RetireLoad(activeLiveLoadEpochs[id]);
        TakenBackChain(old(Now()), old(Shelved()), before, shelf, Now(), Shelved());
        LostButStep(activeLiveLoadEpochs, rest, id, before.ledger, Epochs());
        rest := rest - {id};
      }
    }

    // ----- Deferred batches -----

    method ReadEpochs(keys: seq<string>) returns (epochs: map<string, nat>)
      requires Valid()
      ensures forall k :: k in epochs <==> k in keys
      ensures forall k :: k in epochs ==> epochs[k] == EpochOf(Epochs().table, k)
    {
      epochs := map[];
      for i := 0 to |keys|
        invariant forall k :: k in epochs <==> k in keys[..i]
        invariant forall k :: k in epochs ==> epochs[k] == EpochOf(Epochs().table, k)
      {
        assert keys[..i + 1] == keys[..i] + [keys[i]];
        var epoch := EpochNow(keys[i]);
        epochs := epochs[keys[i] := epoch];
      }
      assert keys[..|keys|] == keys;
    }

    /** Replaces the deferred batch by a new one, whose load starts at once. */
    method StartDeferredBatch(keys: seq<string>) returns (controller: nat, load: Option<Load>)
      requires Valid()
      modifies this`resourceEpochCounter, this`resourceLoadCounter, this`activeLiveLoadEpochs, this`activeDeferred,
               this`deferredCounter, this`deferredCaptured, this`log, resourceEpochs, resourceStore
      ensures Advanced() && activeDeferred.Some? && activeDeferred.value.controller == controller
      ensures load.None? <==> Requested(keys) == []
      ensures load.Some? ==> Started(load.value, Requested(keys), ForDeferred) && Accounted(load.value)
      ensures InStatus(Requested(keys), RS.Loading, Seen())
      ensures activeDeferred.value.load == if load.Some? then Some(load.value.id) else None
    {
      ForwardSame(Now());
      AbortActiveDeferred(old(Now()));
      load := LoadBatch(old(Now()), keys);
      controller := deferredCounter + 1;
      Install(old(Now()), controller, keys, load);
    }

    method LoadBatch(ghost before: Moment, keys: seq<string>) returns (load: Option<Load>)
      requires Valid() && Forward(before, Now()) && activeDeferred.None?
      modifies this`resourceEpochCounter, this`resourceLoadCounter, this`activeLiveLoadEpochs, resourceEpochs,
               resourceStore
      ensures Valid() && Forward(before, Now()) && activeDeferred.None?
      ensures load.None? <==> Requested(keys) == []
      ensures load.Some? ==> Started(load.value, Requested(keys), ForDeferred)
      ensures InStatus(Requested(keys), RS.Loading, Seen())
    {
      load := BeginLoad(keys, ForDeferred);
      ForwardChain(before, old(Now()), Now());
    }

    method Install(ghost before: Moment, controller: nat, keys: seq<string>, load: Option<Load>)
      requires Valid() && Forward(before, Now()) && activeDeferred.None?
      requires load.Some? ==> Started(load.value, Requested(keys), ForDeferred)
      modifies this`activeDeferred, this`deferredCounter, this`deferredCaptured
      ensures Valid() && Forward(before, Now()) && Epochs() == old(Epochs())
      ensures activeDeferred.Some? && activeDeferred.value.controller == controller
      ensures activeDeferred.value.load == if load.Some? then Some(load.value.id) else None
      ensures load.Some? ==> deferredCaptured == load.value.captured
    {
      var epochs := ReadEpochs(keys);
      deferredCounter := controller;
      deferredCaptured := if load.Some? then load.value.captured else map[];
      activeDeferred := Some(Deferred(controller, if load.Some? then Some(load.value.id) else None, keys, epochs));
      BatchedAtFirst(activeDeferred.value, deferredCaptured, Epochs());
      HandedBatch(old(Registered()), activeDeferred.value.load, deferredCaptured, ended, Epochs());
      ForwardReleases(old(Now()), Now());
      ForwardChain(before, old(Now()), Now());
    }

    /** Forgets the batch once its load has ended, unless another batch took its place. */
    method FinishDeferred(controller: nat)
      requires Valid()
      requires activeDeferred.Some? && activeDeferred.value.controller == controller ==>
                 activeDeferred.value.load.Some? ==> activeDeferred.value.load.value in ended
      modifies this`activeDeferred
      ensures Advanced()
      ensures activeDeferred == if old(activeDeferred.Some? && activeDeferred.value.controller == controller) then None
                                else old(activeDeferred)
    {
      ForwardSame(Now());
      if activeDeferred.Some? && activeDeferred.value.controller == controller {
        DropDeferred(old(Now()));
      }
    }

    // ----- Visits -----

    method AbortActiveVisit(ghost before: Moment)
      requires Valid() && Forward(before, Now())
      modifies this`currentVisitId
      ensures Valid() && Forward(before, Now()) && currentVisitId.None?
    {
      currentVisitId := None;
      ForwardNavigates(old(Now()), Now());
      ForwardChain(before, old(Now()), Now());
    }

    method CountVisit()
      requires Valid()
      modifies this`visitCounter
      ensures Advanced() && visitCounter == old(visitCounter) + 1
    {
      visitCounter := visitCounter + 1;
      ForwardNavigates(old(Now()), Now());
    }

    /** Calls off the deferred batch and the current visit, and live loads where live is on. */
    method CallOff(ghost before: Moment)
      requires Valid() && Forward(before, Now())
      modifies this`resourceEpochCounter, this`log, this`activeDeferred, this`activeLiveLoadEpochs, this`currentVisitId,
               resourceEpochs, resourceStore
      ensures Valid() && Forward(before, Now())
      ensures activeDeferred.None? && currentVisitId.None? && (liveStarted ==> activeLiveLoadEpochs == map[])
    {
      AbortActiveDeferred(before);
      AbortActiveVisit(before);
      if liveStarted {
        SupersedeLiveWork(before);
      }
    }

    /** The part of a visit before its envelope arrives. */
    method BeginVisit() returns (visit: Visit)
      requires Valid()
      modifies this`resourceEpochCounter, this`log, this`activeDeferred, this`activeLiveLoadEpochs, this`currentVisitId,
               this`visitCounter, resourceEpochs, resourceStore
      ensures Advanced() && visit == Visit(visitCounter, Epochs().counter) && visitCounter == old(visitCounter) + 1
      ensures currentVisitId == Some(visit.id) && activeDeferred.None?
              && (liveStarted ==> activeLiveLoadEpochs == map[])
    {
      CountVisit();
      CallOff(old(Now()));
      currentVisitId := Some(visitCounter);
      visit := Visit(visitCounter, resourceEpochCounter);
    }

    /** The keys whose last known authority is not later than `startedAt`. */
    method EligibleKeys(keys: seq<string>, startedAt: nat) returns (eligible: seq<string>)
      requires Valid()
      ensures forall k :: k in eligible <==> k in keys && AuthorityOf(Epochs().table, k) <= startedAt
    {
      eligible := [];
      for i := 0 to |keys|
        invariant forall k :: k in eligible <==> k in keys[..i] && AuthorityOf(Epochs().table, k) <= startedAt
      {
        assert keys[..i + 1] == keys[..i] + [keys[i]];
        var authority := AuthorityNow(keys[i]);
        if authority <= startedAt {
          eligible := eligible + [keys[i]];
        }
      }
      assert keys[..|keys|] == keys;
    }

    /** Writes the values of the captured keys. */
    method WriteResources(resources: seq<Resource>, captured: map<string, nat>, ghost since: nat, ghost from: nat,
                          ghost room: bool, ghost seen: RS.Picture)
      requires Valid() && Current(captured, since, true, Epochs()) && from <= |log|
              && Stamped(log, from, captured, Epochs())
      requires seen == Seen() && (room ==> |seen.order| + |resources| <= resourceStore.maxResources)
      modifies this`log, resourceStore
      ensures Valid() && old(log) <= log && Stamped(log, from, captured, Epochs())
      ensures Delivered(ResourceNotes(resources), captured, Noted(log, from))
      ensures Displays(resources, [], [], captured.Keys, room, seen, Seen())
    {
      DisplaysNone(captured.Keys, room, seen);
      assert resources[..0] == [];
      for i := 0 to |resources|
        invariant Valid() && old(log) <= log && Stamped(log, from, captured, Epochs())
        invariant Delivered(ResourceNotes(resources)[..i], captured, Noted(log, from))
        invariant Displays(resources[..i], [], [], captured.Keys, room, seen, Seen())
      {
        ghost var before := log;
        WriteResource(resources, i, captured, room, seen);
        DeliveredMore(ResourceNotes(resources), i, captured, Noted(before, from), Noted(log, from));
      }
      assert ResourceNotes(resources)[..|resources|] == ResourceNotes(resources)
              && resources[..|resources|] == resources;
    }

    /** Writes one value if its key was captured. */
    method WriteResource(resources: seq<Resource>, i: nat, captured: map<string, nat>, ghost room: bool,
                         ghost seen: RS.Picture)
      requires Valid() && i < |resources| && Displays(resources[..i], [], [], captured.Keys, room, seen, Seen())
      requires resources[i].key in captured ==> Due(resources[i].key, captured[resources[i].key], Epochs())
      requires room ==> |seen.order| + |resources| <= resourceStore.maxResources
      modifies this`log, resourceStore
      ensures Valid() && Displays(resources[..i + 1], [], [], captured.Keys, room, seen, Seen())
      ensures log == if resources[i].key in captured
                     then old(log) + [Write(resources[i].key, captured[resources[i].key],
                                            ValueWrite(resources[i].record.version))]
                     else old(log)
    {
      ghost var before := Seen();
      if resources[i].key in captured {
        WriteValue(resources[i].key, resources[i].record, captured[resources[i].key]);
      }
      DisplaysResource(resources, i, captured.Keys, room, resourceStore.maxResources, seen, before, Seen());
    }

    method WriteErrors(errors: seq<Failure>, captured: map<string, nat>, ghost since: nat, ghost from: nat,
                       ghost resources: seq<Resource>, ghost room: bool, ghost seen: RS.Picture)
      requires Valid() && Current(captured, since, true, Epochs()) && from <= |log|
              && Stamped(log, from, captured, Epochs())
      requires Displays(resources, [], [], captured.Keys, room, seen, Seen())
      requires room ==> |seen.order| + |resources| + |errors| <= resourceStore.maxResources
      modifies this`log, resourceStore
      ensures Valid() && old(log) <= log && Stamped(log, from, captured, Epochs())
      ensures Delivered(FailureNotes(errors), captured, Noted(log, from))
      ensures Displays(resources, errors, [], captured.Keys, room, seen, Seen())
    {
      assert errors[..0] == [];
      for i := 0 to |errors|
        invariant Valid() && old(log) <= log && Stamped(log, from, captured, Epochs())
        invariant Delivered(FailureNotes(errors)[..i], captured, Noted(log, from))
        invariant Displays(resources, errors[..i], [], captured.Keys, room, seen, Seen())
      {
        ghost var before := log;
        WriteFailure(errors, i, captured, resources, room, seen);
        DeliveredMore(FailureNotes(errors), i, captured, Noted(before, from), Noted(log, from));
      }
      assert FailureNotes(errors)[..|errors|] == FailureNotes(errors) && errors[..|errors|] == errors;
    }

    /** Writes one error if its key was captured. */
    method WriteFailure(errors: seq<Failure>, i: nat, captured: map<string, nat>, ghost resources: seq<Resource>,
                        ghost room: bool, ghost seen: RS.Picture)
      requires Valid() && i < |errors| && Displays(resources, errors[..i], [], captured.Keys, room, seen, Seen())
      requires errors[i].key in captured ==> Due(errors[i].key, captured[errors[i].key], Epochs())
      requires room ==> |seen.order| + |resources| + |errors| <= resourceStore.maxResources
      modifies this`log, resourceStore
      ensures Valid() && Displays(resources, errors[..i + 1], [], captured.Keys, room, seen, Seen())
      ensures log == if errors[i].key in captured
                     then old(log) + [Write(errors[i].key, captured[errors[i].key], ErrorWrite(errors[i].error))]
                     else old(log)
    {
      ghost var before := Seen();
      if errors[i].key in captured {
        WriteError(errors[i].key, errors[i].error, captured[errors[i].key]);
      }
      DisplaysError(resources, errors, i, captured.Keys, room, resourceStore.maxResources, seen, before, Seen());
    }

    method MarkDeferred(keys: seq<string>, captured: map<string, nat>, ghost resources: seq<Resource>,
                        ghost errors: seq<Failure>, ghost room: bool, ghost seen: RS.Picture)
      returns (deferred: seq<string>)
      requires Valid() && Displays(resources, errors, [], captured.Keys, room, seen, Seen())
      requires room ==> |seen.order| + |resources| + |errors| + |keys| <= resourceStore.maxResources
      modifies resourceStore
      ensures Valid() && forall k :: k in deferred <==> k in keys && k in captured
      ensures Displays(resources, errors, keys, captured.Keys, room, seen, Seen())
    {
      deferred := [];
      assert keys[..0] == [];
      for i := 0 to |keys|
        invariant resourceStore.Valid() && forall k :: k in deferred <==> k in keys[..i] && k in captured
        invariant Displays(resources, errors, keys[..i], captured.Keys, room, seen, Seen())
      {
        assert keys[..i + 1] == keys[..i] + [keys[i]];
        ghost var before := Seen();
        if keys[i] in captured {
          SetPending(resourceStore, keys[i]);
          deferred := deferred + [keys[i]];
        }
        DisplaysDeferred(resources, errors, keys, i, captured.Keys, room, resourceStore.maxResources, seen, before,
                         Seen());
      }
      assert keys[..|keys|] == keys;
    }

    /** Writes values, then errors, then the deferred state of the captured keys. */
    method WriteEnvelope(envelope: PageEnvelope, captured: map<string, nat>, ghost since: nat)
      returns (deferred: seq<string>)
      requires Valid() && Current(captured, since, true, Epochs())
      modifies this`log, resourceStore
      ensures Advanced() && Stamped(log, |old(log)|, captured, Epochs())
      ensures Delivered(ResourceNotes(envelope.resources), captured, Noted(log, |old(log)|))
      ensures Delivered(FailureNotes(envelope.errors), captured, Noted(log, |old(log)|))
      ensures forall k :: k in deferred <==> k in envelope.deferred && k in captured
      ensures Displays(envelope.resources, envelope.errors, envelope.deferred, captured.Keys,
                       old(RoomFor(EnvelopeSize(envelope))), old(Seen()), Seen())
    {
      ghost var room, seen := RoomFor(EnvelopeSize(envelope)), Seen();
      WriteResources(envelope.resources, captured, since, |old(log)|, room, seen);
      ghost var written := log;
      WriteErrors(envelope.errors, captured, since, |old(log)|, envelope.resources, room, seen);
      NotedMore(written, log, |old(log)|);
      deferred := MarkDeferred(envelope.deferred, captured, envelope.resources, envelope.errors, room, seen);
      LaterSame(Epochs());
      ForwardWrites(old(Now()), Now());
    }

    method CaptureEligible(envelope: PageEnvelope, startedAt: nat) returns (captured: map<string, nat>)
      requires Valid()
      modifies this`resourceEpochCounter, resourceEpochs
      ensures Advanced() && Current(captured, old(Epochs()).counter, false, Epochs())
      ensures Eligible(captured, EnvelopeKeys(envelope), startedAt, old(Epochs()))
    {
      var eligible := EligibleKeys(Distinct(EnvelopeKeys(envelope)), startedAt);
      captured := BumpAll(eligible, false);
      ForwardWrites(old(Now()), Now());
    }

    /** Gives the eligible keys their next epoch, then writes what the envelope holds for them. */
    method ApplyPageEnvelope(envelope: PageEnvelope, startedAt: nat) returns (deferred: seq<string>)
      requires Valid()
      modifies this`resourceEpochCounter, this`log, this`page, resourceEpochs, resourceStore
      ensures Advanced() && page == envelope.page
      ensures Applied(envelope, startedAt, old(Epochs()), log, |old(log)|, deferred)
      ensures Displays(envelope.resources, envelope.errors, envelope.deferred,
                       EligibleOf(EnvelopeKeys(envelope), startedAt, old(Epochs())),
                       old(RoomFor(EnvelopeSize(envelope))), old(Seen()), Seen())
    {
      var captured := CaptureEligible(envelope, startedAt);
      assert captured.Keys == EligibleOf(EnvelopeKeys(envelope), startedAt, old(Epochs()));
      deferred := ShowPage(envelope, startedAt, captured, old(Now()));
    }

    method ShowPage(envelope: PageEnvelope, startedAt: nat, captured: map<string, nat>, ghost before: Moment)
      returns (deferred: seq<string>)
      requires Valid() && Forward(before, Now()) && log == before.log && Sound(before.ledger)
      requires Eligible(captured, EnvelopeKeys(envelope), startedAt, before.ledger)
      requires Current(captured, before.ledger.counter, false, Epochs())
      modifies this`log, this`page, resourceStore
      ensures Valid() && Forward(before, Now()) && page == envelope.page
      ensures Applied(envelope, startedAt, before.ledger, log, |before.log|, deferred)
      ensures Displays(envelope.resources, envelope.errors, envelope.deferred, captured.Keys,
                       old(RoomFor(EnvelopeSize(envelope))), old(Seen()), Seen())
    {
      CurrentIsKnown(captured, before.ledger.counter, false, Epochs());
      deferred := WriteEnvelope(envelope, captured, before.ledger.counter);
      page := envelope.page;
      EnvelopeApplied(envelope, startedAt, captured, before.ledger, Epochs(), log, |before.log|, deferred);
      ForwardChain(before, old(Now()), Now());
    }

    /** The part of a visit after its envelope arrived: it writes only keys without later
        authority and all of those, and nothing at all once another visit has taken over. */
    method SettleVisit(visit: Visit, envelope: PageEnvelope) returns (applied: bool, deferred: seq<string>)
      requires Valid()
      modifies this`resourceEpochCounter, this`log, this`page, resourceEpochs, resourceStore
      ensures Advanced() && applied == (old(currentVisitId) == Some(visit.id))
      ensures !applied ==> Now() == old(Now()) && page == old(page) && unchanged(resourceStore)
      ensures applied ==> page == envelope.page
      ensures applied ==> Applied(envelope, visit.startedAt, old(Epochs()), log, |old(log)|, deferred)
      ensures applied ==>
                Displays(envelope.resources, envelope.errors, envelope.deferred,
                         EligibleOf(EnvelopeKeys(envelope), visit.startedAt, old(Epochs())),
                         old(RoomFor(EnvelopeSize(envelope))), old(Seen()), Seen())
    {
      if currentVisitId == Some(visit.id) {
        deferred := ApplyPageEnvelope(envelope, visit.startedAt);
        return true, deferred;
      }
      ForwardSame(Now());
      return false, [];
    }

    // ----- Prefetches -----

    method BeginPrefetch() returns (prefetch: Prefetch)
      requires Valid()
      ensures prefetch.generation == lifecycleGeneration && prefetch.startedAt == Epochs().counter
      ensures forall k :: k in prefetch.known <==>
                && k in Recent(resourceStore.lruOrder, 100)
                && k in resourceStore.records && resourceStore.records[k].version != "" && k !in resourceStore.staleKeys
    {
      var known := resourceStore.ExportKnownVersions(100);
      return Prefetch(lifecycleGeneration, resourceEpochCounter, known.Keys);
    }

    /** The keys that read no epoch later than `startedAt`. */
    method QuietKeys(keys: seq<string>, startedAt: nat) returns (quiet: seq<string>)
      requires Valid()
      ensures forall k :: k in quiet <==> k in keys && EpochOf(Epochs().table, k) <= startedAt
    {
      quiet := [];
      for i := 0 to |keys|
        invariant forall k :: k in quiet <==> k in keys[..i] && EpochOf(Epochs().table, k) <= startedAt
      {
        assert keys[..i + 1] == keys[..i] + [keys[i]];
        var epoch := EpochNow(keys[i]);
        if epoch <= startedAt {
          quiet := quiet + [keys[i]];
        }
      }
      assert keys[..|keys|] == keys;
    }

    method CaptureQuiet(keys: seq<string>, startedAt: nat) returns (captured: map<string, nat>)
      requires Valid()
      modifies this`resourceEpochCounter, resourceEpochs
      ensures Advanced() && Current(captured, old(Epochs()).counter, true, Epochs())
              && Speculated(old(Epochs()), Epochs())
      ensures Quiet(captured, keys, startedAt, old(Epochs()))
    {
      var quiet := QuietKeys(keys, startedAt);
      captured := BumpAll(quiet, true);
      ForwardWrites(old(Now()), Now());
    }

    /** Whether some key of the page was touched since `startedAt`. Without a list of the page's
        keys these are the ones known at the start and the ones returned. */
    method HasRace(prefetch: Prefetch, envelope: PageEnvelope) returns (race: bool)
      requires Valid()
      ensures race <==> exists k :: k in PageKeys(prefetch, envelope) && EpochOf(Epochs().table, k) > prefetch.startedAt
    {
      var rest := PageKeys(prefetch, envelope);
      while rest != {}
        invariant rest <= PageKeys(prefetch, envelope)
        invariant forall k :: k in PageKeys(prefetch, envelope) && k !in rest ==>
                  EpochOf(Epochs().table, k) <= prefetch.startedAt
        decreases |rest|
      {
        var key :| key in rest;
        var epoch := EpochNow(key);
        if epoch > prefetch.startedAt {
          return true;
        }
        rest := rest - {key};
      }
      return false;
    }

    static function PageKeys(prefetch: Prefetch, envelope: PageEnvelope): set<string> {
      if envelope.resourceKeys.Some? then (set k | k in envelope.resourceKeys.value)
      else prefetch.known + (set k | k in ResourceKeys(envelope.resources))
    }

    /** The part of a prefetch after its envelope arrived. Its epochs are speculative. */
    method SettlePrefetch(prefetch: Prefetch, envelope: PageEnvelope) returns (cacheable: bool)
      requires Valid()
      modifies this`resourceEpochCounter, this`log, resourceEpochs, resourceStore
      ensures Advanced()
      ensures prefetch.generation != lifecycleGeneration ==>
                !cacheable && Now() == old(Now()) && unchanged(resourceStore)
      ensures prefetch.generation == lifecycleGeneration ==>
                && Prefetched(envelope.resources, prefetch.startedAt, old(Epochs()), log, |old(log)|)
                && Speculated(old(Epochs()), Epochs())
                && Displays(envelope.resources, [], [],
                            QuietOf(ResourceKeys(envelope.resources), prefetch.startedAt, old(Epochs())),
                            old(RoomFor(|envelope.resources|)), old(Seen()), Seen())
                && (cacheable <==> forall k :: k in PageKeys(prefetch, envelope) ==>
                                                 EpochOf(old(Epochs()).table, k) <= prefetch.startedAt)
    {
      ForwardSame(Now());
      if prefetch.generation != lifecycleGeneration {
        return false;
      }
      var race := HasRace(prefetch, envelope);
      ApplyPrefetch(envelope.resources, prefetch.startedAt);
      return !race;
    }

    method WriteValues(resources: seq<Resource>, captured: map<string, nat>, ghost since: nat)
      requires Valid() && Current(captured, since, true, Epochs())
      modifies this`log, resourceStore
      ensures Advanced() && Stamped(log, |old(log)|, captured, Epochs())
      ensures Delivered(ResourceNotes(resources), captured, Noted(log, |old(log)|))
      ensures Displays(resources, [], [], captured.Keys, old(RoomFor(|resources|)), old(Seen()), Seen())
    {
      WriteResources(resources, captured, since, |old(log)|, RoomFor(|resources|), Seen());
      LaterSame(Epochs());
      ForwardWrites(old(Now()), Now());
    }

    method ApplyPrefetch(resources: seq<Resource>, startedAt: nat)
      requires Valid()
      modifies this`resourceEpochCounter, this`log, resourceEpochs, resourceStore
      ensures Advanced() && Prefetched(resources, startedAt, old(Epochs()), log, |old(log)|)
      ensures Speculated(old(Epochs()), Epochs())
      ensures Displays(resources, [], [], QuietOf(ResourceKeys(resources), startedAt, old(Epochs())),
                       old(RoomFor(|resources|)), old(Seen()), Seen())
    {
      var captured := CaptureQuiet(ResourceKeys(resources), startedAt);
      assert captured.Keys == QuietOf(ResourceKeys(resources), startedAt, old(Epochs()));
      ghost var bumped := Now();
      WriteValues(resources, captured, old(Epochs()).counter);
      PrefetchApplied(resources, startedAt, captured, old(Epochs()), Epochs(), log, |old(log)|);
      ForwardChain(old(Now()), bumped, Now());
    }

    // ----- Mutations -----

    method BeginMutation() returns (mutation: Mutation)
      ensures mutation == Mutation(lifecycleGeneration, visitCounter)
    {
      return Mutation(lifecycleGeneration, visitCounter);
    }

    /** Changes a held value; a missing one is dropped where `drop` asks for that. */
    method ApplyChange(change: Change, drop: bool)
      requires Valid()
      modifies this`resourceEpochCounter, this`log, resourceEpochs, resourceStore
      ensures Valid() && RuledBy(old(Epochs()), Epochs(), change.key, Epochs().counter)
      ensures change.key in old(resourceStore.records) ==>
                log == old(log) + [Write(change.key, Epochs().counter,
                                         ValueWrite(old(resourceStore.records)[change.key].version + change.suffix))]
      ensures change.key !in old(resourceStore.records) ==>
                log == old(log) + if drop then [Write(change.key, Epochs().counter, InvalidationWrite)] else []
      ensures forall k :: RS.See(Seen(), k) == if k == change.key then Changed(change, drop, old(RS.See(Seen(), k)))
                                               else old(RS.See(Seen(), k))
    {
      var epoch := BumpResourceEpoch(change.key, false);
      var patched := WritePatch(change.key, change.apply, change.suffix, epoch);
      if !patched && drop {
        WriteMissing(change.key, epoch);
      }
    }

    method ApplyNext(changes: seq<Change>, i: nat, drop: bool, ghost first: RS.Picture)
      requires Valid() && i < |changes| && ShowsChanges(changes[..i], drop, first, Seen())
      modifies this`resourceEpochCounter, this`log, resourceEpochs, resourceStore
      ensures Valid() && RuledBy(old(Epochs()), Epochs(), changes[i].key, Epochs().counter)
      ensures Changing(changes[i], drop, old(resourceStore.records), Epochs().counter, old(log), log)
      ensures ShowsChanges(changes[..i + 1], drop, first, Seen())
    {
      ghost var seen := Seen();
      ApplyChange(changes[i], drop);
      ChangesMore(changes, i, drop, first, seen, Seen());
    }

    /** The writes of one change. */
    ghost predicate Changing(change: Change, drop: bool, held: map<string, RS.Record>, epoch: nat, before: seq<Write>,
                             after: seq<Write>) {
      after == before + if change.key in held
                        then [Write(change.key, epoch, ValueWrite(held[change.key].version + change.suffix))]
                        else if drop then [Write(change.key, epoch, InvalidationWrite)] else []
    }

    method ApplyChanges(changes: seq<Change>, drop: bool)
      requires Valid()
      modifies this`resourceEpochCounter, this`log, resourceEpochs, resourceStore
      ensures Advanced()
      ensures Swept(ChangedKeys(changes), if drop then PatchingOrDropping else Patching, old(Now()), Now())
      ensures ShowsChanges(changes, drop, old(Seen()), Seen())
    {
      assert changes[..0] == [];
      ghost var manner := if drop then PatchingOrDropping else Patching;
      ghost var keys := ChangedKeys(changes);
      SweptNone(manner, Now());
      for i := 0 to |changes|
        invariant Valid() && Swept(keys[..i], manner, old(Now()), Now())
        invariant ShowsChanges(changes[..i], drop, old(Seen()), Seen())
      {
        ghost var before := Now();
        ApplyNext(changes, i, drop, old(Seen()));
        SweptMore(keys, i, manner, old(Now()), before, Now());
      }
      assert changes[..|changes|] == changes;
      SweptAll(keys, manner, old(Now()), Now());
    }

    /** Declares a value obsolete: kept and marked where it is in use, dropped otherwise. */
    method Obsolete(key: string, inUse: bool)
      requires Valid()
      modifies this`resourceEpochCounter, this`log, resourceEpochs, resourceStore
      ensures Valid() && RuledBy(old(Epochs()), Epochs(), key, Epochs().counter)
      ensures log == old(log) + [Write(key, Epochs().counter, InvalidationWrite)]
      ensures if inUse then key in resourceStore.records ==> key in resourceStore.staleKeys
              else key !in resourceStore.records
      ensures forall k :: RS.See(Seen(), k) == if k == key then Obsoleted(inUse, old(RS.See(Seen(), k)))
                                               else old(RS.See(Seen(), k))
    {
      var epoch := BumpResourceEpoch(key, false);
      if inUse {
        WriteStale(key, epoch);
      } else {
        WriteMissing(key, epoch);
      }
    }

    method ObsoleteAll(keys: seq<string>, inUse: set<string>)
      requires Valid()
      modifies this`resourceEpochCounter, this`log, resourceEpochs, resourceStore
      ensures Advanced() && Swept(keys, Invalidating, old(Now()), Now())
      ensures ShowsObsolete(keys, inUse, old(Seen()), Seen())
    {
      SweptNone(Invalidating, Now());
      assert keys[..0] == [];
      for i := 0 to |keys|
        invariant Valid() && Swept(keys[..i], Invalidating, old(Now()), Now())
        invariant ShowsObsolete(keys[..i], inUse, old(Seen()), Seen())
      {
        ghost var before, seen := Now(), Seen();
        Obsolete(keys[i], keys[i] in inUse);
        SweptMore(keys, i, Invalidating, old(Now()), before, Now());
        ObsoleteMore(keys, i, inUse, old(Seen()), seen, Seen());
      }
      assert keys[..|keys|] == keys;
      SweptAll(keys, Invalidating, old(Now()), Now());
    }

    /** The part of a mutation after its answer arrived: every key it names moves, with authority,
        beyond whatever is in flight, and it may redirect only if no navigation started since. */
    method SettleMutation(mutation: Mutation, changes: seq<Change>, invalidated: seq<string>, subscribed: set<string>)
      returns (canRedirect: bool, active: seq<string>)
      requires Valid()
      modifies this`resourceEpochCounter, this`log, resourceEpochs, resourceStore
      ensures Advanced()
      ensures mutation.generation != lifecycleGeneration ==>
                !canRedirect && active == [] && Now() == old(Now()) && unchanged(resourceStore)
      ensures mutation.generation == lifecycleGeneration ==>
                && Swept(ChangedKeys(changes) + invalidated, PatchingOrDropping, old(Now()), Now())
                && ShowsMutation(changes, invalidated, subscribed, old(Seen()), Seen())
                && (canRedirect <==> mutation.visitCounter == visitCounter)
                && forall k :: k in active <==> k in invalidated && k in subscribed
    {
      ForwardSame(Now());
      if mutation.generation != lifecycleGeneration {
        return false, [];
      }
      ApplyMutation(changes, invalidated, subscribed);
      return mutation.visitCounter == visitCounter, KeysIn(invalidated, subscribed);
    }

    method ApplyMutation(changes: seq<Change>, invalidated: seq<string>, subscribed: set<string>)
      requires Valid()
      modifies this`resourceEpochCounter, this`log, resourceEpochs, resourceStore
      ensures Advanced() && Swept(ChangedKeys(changes) + invalidated, PatchingOrDropping, old(Now()), Now())
      ensures ShowsMutation(changes, invalidated, subscribed, old(Seen()), Seen())
    {
      ApplyChanges(changes, true);
      ghost var patched := Now();
      ObsoleteAll(invalidated, subscribed);
      SweptTwice(ChangedKeys(changes), invalidated, old(Now()), patched, Now());
    }

    // ----- Live events -----

    /** Events caused by this client are already applied; others act on the keys of the manifest.
        A patch leaves keys alone that are not held. Returns the keys to load again. */
    method HandleLiveEvent(event: LiveEvent, manifest: set<string>) returns (refresh: seq<string>)
      requires Valid()
      modifies this`resourceEpochCounter, this`log, resourceEpochs, resourceStore
      ensures Advanced()
      ensures Ignored(event) ==> refresh == [] && Now() == old(Now()) && unchanged(resourceStore)
      ensures !Ignored(event) ==> forall k :: k in refresh <==> k in EventKeys(event) && k in manifest
      ensures Swept(refresh, if event.LivePatch? then Patching else Invalidating, old(Now()), Now())
      ensures !Ignored(event) ==>
                if event.LivePatch? then ShowsChanges(ChangesIn(event.changes, manifest), false, old(Seen()), Seen())
                else ShowsObsolete(KeysIn(EventKeys(event), manifest), manifest, old(Seen()), Seen())
    {
      ForwardSame(Now());
      SweptNone(Patching, Now());
      SweptNone(Invalidating, Now());
      match event
      case LivePatch(own, changes) =>
        if own {
          return [];
        }
        refresh := ChangeHeld(changes, manifest);
      case LiveInvalidation(own, keys) =>
        if own {
          return [];
        }
        refresh := MarkAllStale(keys, manifest);
      case LiveResync(keys) =>
        refresh := MarkAllStale(keys, manifest);
      case LiveOther =>
        return [];
    }

    method ChangeHeld(changes: seq<Change>, manifest: set<string>) returns (refresh: seq<string>)
      requires Valid()
      modifies this`resourceEpochCounter, this`log, resourceEpochs, resourceStore
      ensures Advanced() && Swept(refresh, Patching, old(Now()), Now())
      ensures forall k :: k in refresh <==> k in ChangedKeys(changes) && k in manifest
      ensures ShowsChanges(ChangesIn(changes, manifest), false, old(Seen()), Seen())
    {
      var kept := ChangesIn(changes, manifest);
      ApplyChanges(kept, false);
      refresh := ChangedKeys(kept);
      forall k ensures k in refresh <==> k in ChangedKeys(changes) && k in manifest {
        ChangesInKeys(changes, manifest, k);
      }
    }

    method MarkAllStale(keys: seq<string>, manifest: set<string>) returns (refresh: seq<string>)
      requires Valid()
      modifies this`resourceEpochCounter, this`log, resourceEpochs, resourceStore
      ensures Advanced() && Swept(refresh, Invalidating, old(Now()), Now())
      ensures refresh == KeysIn(keys, manifest) && ShowsObsolete(refresh, manifest, old(Seen()), Seen())
    {
      refresh := KeysIn(keys, manifest);
      ObsoleteAll(refresh, manifest);
    }

    // ----- History, live and lifecycle -----

    /** Calls off live loads first, then the deferred batch and the current visit. */
    method CallOffLiveFirst(ghost before: Moment)
      requires Valid() && Forward(before, Now())
      modifies this`resourceEpochCounter, this`log, this`activeDeferred, this`activeLiveLoadEpochs, this`currentVisitId,
               resourceEpochs, resourceStore
      ensures Valid() && Forward(before, Now())
      ensures activeDeferred.None? && currentVisitId.None? && (liveStarted ==> activeLiveLoadEpochs == map[])
    {
      if liveStarted {
        SupersedeLiveWork(before);
      }
      AbortActiveDeferred(before);
      AbortActiveVisit(before);
    }

    /** Restores a cached page: a newer navigation than any in flight. */
    method RestoreCached(cached: Page, pending: seq<string>)
      requires Valid()
      modifies this`resourceEpochCounter, this`log, this`activeDeferred, this`activeLiveLoadEpochs, this`currentVisitId,
               this`visitCounter, this`page, resourceEpochs, resourceStore
      ensures Advanced() && page == cached && visitCounter == old(visitCounter) + 1
      ensures currentVisitId.None? && activeDeferred.None? && (liveStarted ==> activeLiveLoadEpochs == map[])
      ensures InStatus(pending, RS.Pending, Seen())
    {
      CountVisit();
      CallOffLiveFirst(old(Now()));
      ShowCached(cached, pending, old(Now()));
    }

    method ShowCached(cached: Page, pending: seq<string>, ghost before: Moment)
      requires Valid() && Forward(before, Now())
      modifies this`page, resourceStore
      ensures Valid() && Now() == old(Now()) && Forward(before, Now()) && page == cached
      ensures Waiting(pending, RS.Pending, old(RoomFor(|pending|)), old(Seen()), Seen())
    {
      MarkAllWaiting(pending);
      page := cached;
    }

    method MarkAllWaiting(keys: seq<string>)
      requires Valid()
      modifies resourceStore
      ensures Valid() && Waiting(keys, RS.Pending, old(RoomFor(|keys|)), old(Seen()), Seen())
    {
      ghost var room, before := RoomFor(|keys|), Seen();
      WaitingNone(RS.Pending, room, before);
      assert keys[..0] == [];
      for i := 0 to |keys|
        invariant resourceStore.Valid() && Waiting(keys[..i], RS.Pending, room, before, Seen())
      {
        ghost var seen := Seen();
        SetPending(resourceStore, keys[i]);
        WaitingMore(keys, i, RS.Pending, room, resourceStore.maxResources, before, seen, Seen());
      }
      assert keys[..|keys|] == keys;
    }

    method StartLive()
      requires Valid()
      modifies this`liveStarted
      ensures Advanced() && liveStarted
    {
      ForwardSame(Now());
      liveStarted := true;
    }

    method StopLive()
      requires Valid()
      modifies this`liveStarted, this`resourceEpochCounter, this`log, this`activeLiveLoadEpochs, resourceEpochs,
               resourceStore
      ensures Advanced() && !liveStarted && activeLiveLoadEpochs == map[]
    {
      ForwardSame(Now());
      liveStarted := false;
      SupersedeLiveWork(old(Now()));
    }

    /** Ends the session: a new generation starts with nothing in flight and no epochs. */
    method EndGeneration()
      requires Valid()
      modifies this`lifecycleGeneration, this`liveStarted, this`resourceEpochCounter, this`log, this`activeDeferred,
               this`activeLiveLoadEpochs, this`currentVisitId, resourceEpochs, resourceStore
      ensures Advanced() && lifecycleGeneration == old(lifecycleGeneration) + 1
      ensures currentVisitId.None? && activeDeferred.None? && activeLiveLoadEpochs == map[] && !liveStarted
      ensures Epochs().table == NoEpochs
    {
      lifecycleGeneration := lifecycleGeneration + 1;
      ForwardRestarts(old(Now()), Now());
      AbortAll(old(Now()));
      ForgetEpochs(old(Now()));
    }

    method AbortAll(ghost before: Moment)
      requires Valid() && Forward(before, Now())
      modifies this`liveStarted, this`resourceEpochCounter, this`log, this`activeDeferred,
               this`activeLiveLoadEpochs, this`currentVisitId, resourceEpochs, resourceStore
      ensures Valid() && Forward(before, Now())
      ensures currentVisitId.None? && activeDeferred.None? && activeLiveLoadEpochs == map[] && !liveStarted
    {
      CallOff(before);
      liveStarted := false;
      SupersedeLiveWork(before);
    }

    method ForgetEpochs(ghost before: Moment)
      requires Valid() && Forward(before, Now()) && before.generation < lifecycleGeneration
      requires currentVisitId.None? && activeDeferred.None? && activeLiveLoadEpochs == map[]
      modifies resourceEpochs
      ensures Valid() && Forward(before, Now()) && Epochs().table == NoEpochs
    {
      resourceEpochs.Clear();
    }

    method Clear(blank: Page)
      requires Valid()
      modifies this`lifecycleGeneration, this`liveStarted, this`resourceEpochCounter, this`log, this`activeDeferred,
               this`activeLiveLoadEpochs, this`currentVisitId, this`page, resourceEpochs, resourceStore
      ensures Advanced() && lifecycleGeneration == old(lifecycleGeneration) + 1
      ensures currentVisitId.None? && activeDeferred.None? && activeLiveLoadEpochs == map[] && !liveStarted
      ensures Epochs().table == NoEpochs && page == blank && forall k :: resourceStore.At(k) == RS.Empty
    {
      EndGeneration();
      resourceStore.Clear();
      page := blank;
    }

    method Destroy()
      requires Valid()
      modifies this`lifecycleGeneration, this`liveStarted, this`resourceEpochCounter, this`log, this`activeDeferred,
               this`activeLiveLoadEpochs, this`currentVisitId, resourceEpochs, resourceStore
      ensures Advanced() && lifecycleGeneration == old(lifecycleGeneration) + 1
      ensures currentVisitId.None? && activeDeferred.None? && activeLiveLoadEpochs == map[] && !liveStarted
      ensures Epochs().table == NoEpochs
    {
      EndGeneration();
    }
  }
}
