/** Bounded store of resource records and their loading state, kept in order of recent use. */
module ResourceStore {
  import opened Json
  import opened Recency

  datatype Record = Record(version: string, value: Value)

  datatype Status = Missing | Pending | Loading | Ready | Error

  datatype ErrorDetail = ErrorDetail(kind: string, message: string)

  datatype Snapshot = Snapshot(data: Option<Value>, status: Status, error: Option<ErrorDetail>, stale: bool)

  const MissingState := Snapshot(None, Missing, None, false)

  /** All that is held under one key. */
  datatype View = View(record: Option<Record>, state: Option<Snapshot>, stale: bool)

  const Empty := View(None, None, false)

  /** All that the store holds. */
  datatype Picture = Picture(
    records: map<string, Record>, stale: set<string>, states: map<string, Snapshot>, order: seq<string>)

  function See(p: Picture, key: string): View {
    View(if key in p.records then Some(p.records[key]) else None,
         if key in p.states then Some(p.states[key]) else None,
         key in p.stale)
  }

  /** What a consistent store looks like. */
  ghost predicate Sound(p: Picture, max: nat) {
    && NoDuplicates(p.order) && |p.order| <= max
    && (forall k :: k in p.order <==> k in p.states)
    && p.stale <= p.records.Keys <= p.states.Keys
  }

  /** Other keys that are still listed were listed before and hold what they held. */
  ghost predicate OthersLikeBefore(p: Picture, q: Picture, key: string) {
    forall k :: k != key && k in q.order ==> k in p.order && See(q, k) == See(p, k)
  }

  /** What becomes of the recency list when a key is used, dropped or left alone. */
  predicate Relisted(p: Picture, q: Picture, key: string, max: nat) {
    q.order == p.order || q.order == Without(p.order, key) || q.order == Recent(Touched(p.order, key), max)
  }

  /** One write leaves every other key as it was, except one that had to make room in a full store. */
  lemma KeySpared(p: Picture, q: Picture, key: string, max: nat, k: string)
    requires max >= 1 && Sound(p, max) && Sound(q, max) && OthersLikeBefore(p, q, key) && Relisted(p, q, key, max)
    requires k != key
    ensures See(q, k) == See(p, k) || (See(q, k) == Empty && key !in p.order && |p.order| >= max)
  {
    if k !in q.order && k in p.order && q.order == Recent(Touched(p.order, key), max) {
      DropsOldest(p.order, key, max, k);
    }
  }

  lemma OrderGrows(p: Picture, q: Picture, key: string, max: nat)
    requires Sound(p, max) && Relisted(p, q, key, max)
    ensures |q.order| <= |p.order| + 1
  {
    TouchedSize(p.order, key);
    WithoutUnique(p.order, key);
  }

  class ResourceStore {
    const maxResources: nat
    var records: map<string, Record>
    var lruOrder: seq<string>
    var staleKeys: set<string>
    var stateSnapshots: map<string, Snapshot>

    constructor (maxResources: nat)
      requires maxResources >= 1
      ensures Valid() && this.maxResources == maxResources && lruOrder == []
    {
      this.maxResources := maxResources;
      records, lruOrder, staleKeys, stateSnapshots := map[], [], {}, map[];
    }

    ghost function At(key: string): View
      reads this
    {
      View(if key in records then Some(records[key]) else None,
           if key in stateSnapshots then Some(stateSnapshots[key]) else None,
           key in staleKeys)
    }

    ghost function Contents(): Picture
      reads this
    {
      Picture(records, staleKeys, stateSnapshots, lruOrder)
    }

    function Data(key: string): Option<Value>
      reads this
    {
      if key in records then Some(records[key].value) else None
    }

    function State(key: string): Snapshot
      reads this
    {
      if key in stateSnapshots then stateSnapshots[key] else MissingState
    }

    /** Recency list and snapshots name the same keys. */
    ghost predicate Listed()
      reads this
    {
      && maxResources >= 1
      && NoDuplicates(lruOrder)
      && (forall k :: k in lruOrder <==> k in stateSnapshots)
    }

    /** The snapshot of `key` shows its record and its staleness. */
    ghost predicate Shown(key: string)
      requires key in stateSnapshots
      reads this
    {
      stateSnapshots[key].data == Data(key) && stateSnapshots[key].stale == (key in staleKeys)
    }

    /** Consistent, except that the snapshot of `key` may lag behind. */
    ghost predicate CoherentBut(key: string)
      reads this
    {
      && Listed()
      && staleKeys <= records.Keys <= stateSnapshots.Keys + {key}
      && (forall k :: k in stateSnapshots ==> stateSnapshots[k] != MissingState && (k != key ==> Shown(k)))
    }

    ghost predicate Coherent()
      reads this
    {
      && Listed()
      && staleKeys <= records.Keys <= stateSnapshots.Keys
      && (forall k :: k in stateSnapshots ==> stateSnapshots[k] != MissingState && Shown(k))
    }

    ghost predicate Valid()
      reads this
    {
      Coherent() && |lruOrder| <= maxResources
    }

    /** The bounds on both maps follow from the one on the recency list. */
    lemma Sizes()
      requires Coherent()
      ensures |stateSnapshots| == |lruOrder| && |records| <= |lruOrder|
    {
      UniqueSize(lruOrder, stateSnapshots.Keys);
      SubsetSize(records.Keys, stateSnapshots.Keys);
    }

    /** Keys other than `key` that are still listed were listed before and hold what they held. */
    twostate predicate OthersKept(key: string)
      reads this
    {
      forall k :: k != key && k in lruOrder ==> k in old(lruOrder) && At(k) == old(At(k))
    }

    // ----- Recency -----

    method RemoveFromLru(key: string)
      requires NoDuplicates(lruOrder)
      modifies this`lruOrder
      ensures lruOrder == Without(old(lruOrder), key)
    {
      var at := 0;
      while at < |lruOrder| && lruOrder[at] != key
        invariant at <= |lruOrder| && key !in lruOrder[..at]
        invariant lruOrder == old(lruOrder)
      {
        at := at + 1;
      }
      if at < |lruOrder| {
        SplitAt(lruOrder, key, at);
        lruOrder := lruOrder[..at] + lruOrder[at + 1..];
      } else {
        assert lruOrder[..at] == lruOrder;
      }
    }

    method TouchLru(key: string)
      requires NoDuplicates(lruOrder)
      modifies this`lruOrder
      ensures lruOrder == Touched(old(lruOrder), key)
    {
      RemoveFromLru(key);
      lruOrder := lruOrder + [key];
    }

    method Invalidate(key: string)
      requires CoherentBut(key)
      modifies this
      ensures Coherent() && At(key) == Empty
      ensures lruOrder == Without(old(lruOrder), key) && OthersKept(key)
      ensures |lruOrder| <= |old(lruOrder)| && forall k :: k != key ==> At(k) == old(At(k))
    {
      records, staleKeys := records - {key}, staleKeys - {key};
      stateSnapshots := stateSnapshots - {key};
      WithoutUnique(lruOrder, key);
      RemoveFromLru(key);
    }

    method EvictOldest()
      requires Coherent() && lruOrder != []
      modifies this
      ensures Coherent() && lruOrder == old(lruOrder)[1..]
      ensures forall k :: k in lruOrder ==> k in old(lruOrder) && At(k) == old(At(k))
    {
      Invalidate(lruOrder[0]);
    }

    method EvictIfNeeded()
      requires Coherent()
      modifies this
      ensures Valid()
      ensures lruOrder == Recent(old(lruOrder), maxResources)
      ensures forall k :: k in lruOrder ==> k in old(lruOrder) && At(k) == old(At(k))
    {
      Sizes();
      while |records| > maxResources || |stateSnapshots| > maxResources
        invariant Coherent() && |stateSnapshots| == |lruOrder| && |records| <= |lruOrder|
        invariant Recent(lruOrder, maxResources) == Recent(old(lruOrder), maxResources)
        invariant forall k :: k in lruOrder ==> k in old(lruOrder) && At(k) == old(At(k))
        decreases |lruOrder|
      {
        EvictOldest();
        Sizes();
      }
    }

    method AddState(key: string, next: Snapshot)
      requires CoherentBut(key)
      requires next != MissingState && next.data == Data(key) && next.stale == (key in staleKeys)
      modifies this`stateSnapshots, this`lruOrder
      ensures Coherent() && lruOrder == Touched(old(lruOrder), key)
      ensures At(key) == old(At(key)).(state := Some(next))
      ensures forall k :: k != key ==> At(k) == old(At(k))
    {
      TouchedUnique(lruOrder, key);
      TouchLru(key);
      AddListed(key, next);
    }

    method AddListed(key: string, next: Snapshot)
      requires maxResources >= 1 && NoDuplicates(lruOrder)
      requires forall k :: k in lruOrder <==> k in stateSnapshots || k == key
      requires staleKeys <= records.Keys <= stateSnapshots.Keys + {key}
      requires forall k :: k in stateSnapshots && k != key ==> stateSnapshots[k] != MissingState && Shown(k)
      requires next != MissingState && next.data == Data(key) && next.stale == (key in staleKeys)
      modifies this`stateSnapshots
      ensures Coherent() && stateSnapshots == old(stateSnapshots)[key := next]
    {
      stateSnapshots := stateSnapshots[key := next];
    }

    method PutState(key: string, next: Snapshot)
      requires CoherentBut(key)
      requires next != MissingState && next.data == Data(key) && next.stale == (key in staleKeys)
      modifies this
      ensures Valid() && OthersKept(key)
      ensures At(key) == old(At(key)).(state := Some(next))
      ensures lruOrder == Recent(Touched(old(lruOrder), key), maxResources)
    {
      AddState(key, next);
      RecentKeepsLast(Without(old(lruOrder), key), key, maxResources);
      EvictIfNeeded();
    }

    /** Replaces the snapshot of `key` after its record or staleness changed. */
    method UpdateState(key: string, status: Status, error: Option<ErrorDetail>, stale: bool) returns (changed: bool)
      requires CoherentBut(key) && |lruOrder| <= maxResources && stale == (key in staleKeys)
      modifies this
      ensures Valid() && OthersKept(key)
      ensures changed <==> old(State(key)) != Snapshot(old(Data(key)), status, error, stale)
      ensures State(key) == Snapshot(old(Data(key)), status, error, stale)
      ensures At(key).record == old(At(key)).record && At(key).stale == old(At(key)).stale
      ensures lruOrder == if !changed then old(lruOrder)
                          else if State(key) == MissingState then Without(old(lruOrder), key)
                          else Recent(Touched(old(lruOrder), key), maxResources)
    {
      var next := Snapshot(Data(key), status, error, stale);
      changed := State(key) != next;
      if changed && next == MissingState {
        stateSnapshots := stateSnapshots - {key};
        WithoutUnique(lruOrder, key);
        RemoveFromLru(key);
      } else if changed {
        PutState(key, next);
      }
    }

    method TouchHeld(key: string)
      requires Valid() && key in stateSnapshots
      modifies this`lruOrder
      ensures Valid() && lruOrder == Touched(old(lruOrder), key)
    {
      TouchedUnique(lruOrder, key);
      TouchedSize(lruOrder, key);
      TouchLru(key);
    }

    // ----- Reading -----

    /** Reading a key that is held makes it the most recent one. */
    method GetStateSnapshot(key: string) returns (state: Snapshot)
      requires Valid()
      modifies this`lruOrder
      ensures Valid() && state == State(key)
      ensures lruOrder == if key in stateSnapshots then Touched(old(lruOrder), key) else old(lruOrder)
    {
      if key in records || key in stateSnapshots {
        TouchHeld(key);
      }
      return State(key);
    }

    method GetRecord(key: string) returns (record: Option<Record>)
      requires Valid()
      modifies this`lruOrder
      ensures Valid() && record == At(key).record
      ensures lruOrder == if key in records then Touched(old(lruOrder), key) else old(lruOrder)
    {
      if key !in records {
        return None;
      }
      TouchHeld(key);
      return Some(records[key]);
    }

    /** The versions of the fresh records among the `limit` most recent keys, at most 100. */
    method ExportKnownVersions(limit: nat) returns (versions: map<string, string>)
      requires Valid()
      ensures forall k :: k in versions <==>
                && k in Recent(lruOrder, if limit < 100 then limit else 100)
                && k in records && records[k].version != "" && k !in staleKeys
      ensures forall k :: k in versions ==> versions[k] == records[k].version
    {
      var keys := Recent(lruOrder, if limit < 100 then limit else 100);
      versions := map[];
      for i := |keys| downto 0
        invariant forall k :: k in versions <==>
                    k in keys[i..] && k in records && records[k].version != "" && k !in staleKeys
        invariant forall k :: k in versions ==> versions[k] == records[k].version
      {
        assert keys[i..] == [keys[i]] + keys[i + 1..];
        if keys[i] in records && records[keys[i]].version != "" && keys[i] !in staleKeys {
          versions := versions[keys[i] := records[keys[i]].version];
        }
      }
      assert keys[0..] == keys;
    }

    // ----- Writing -----

    method ReplaceRecord(key: string, record: Record, stale: bool)
      requires Valid()
      modifies this`records, this`staleKeys
      ensures CoherentBut(key) && Data(key) == Some(record.value)
      ensures At(key) == old(At(key)).(record := Some(record), stale := stale)
      ensures forall k :: k != key ==> At(k) == old(At(k))
    {
      records := records[key := record];
      staleKeys := if stale then staleKeys + {key} else staleKeys - {key};
    }

    /** Makes a key just written the most recent one, whether or not its state changed. */
    method TouchWritten(key: string, ghost before: seq<string>, changed: bool)
      requires Valid() && key in stateSnapshots && NoDuplicates(before) && |before| <= maxResources
      requires lruOrder == if changed then Recent(Touched(before, key), maxResources) else before
      modifies this`lruOrder
      ensures Valid() && lruOrder == Recent(Touched(before, key), maxResources)
    {
      TouchedAgain(before, key, maxResources);
      TouchHeld(key);
    }

    /** Stores a record with the given staleness, in state ready. */
    method WriteRecord(key: string, record: Record, stale: bool)
      requires Valid()
      modifies this
      ensures Valid() && OthersKept(key)
      ensures At(key) == View(Some(record), Some(Snapshot(Some(record.value), Ready, None, stale)), stale)
      ensures lruOrder == Recent(Touched(old(lruOrder), key), maxResources)
    {
      ReplaceRecord(key, record, stale);
      var changed := UpdateState(key, Ready, None, stale);
      TouchWritten(key, old(lruOrder), changed);
    }

    /** Stores a record unless the same version is already there, fresh and without error. */
    method Set(key: string, version: string, value: Value) returns (updated: bool)
      requires Valid()
      modifies this
      ensures Valid() && OthersKept(key)
      ensures updated <==> !old(key in records && records[key].version == version && key !in staleKeys
                                && State(key).status == Ready && State(key).error == None)
      ensures !updated ==> At(key) == old(At(key))
      ensures updated ==>
                At(key) == View(Some(Record(version, value)), Some(Snapshot(Some(value), Ready, None, false)), false)
      ensures lruOrder == Recent(Touched(old(lruOrder), key), maxResources)
    {
      var current := GetStateSnapshot(key);
      TouchedTwice(old(lruOrder), key);
      TouchedSize(old(lruOrder), key);
      if key in records && records[key].version == version && key !in staleKeys
         && current.status == Ready && current.error == None {
        return false;
      }
      WriteRecord(key, Record(version, value), false);
      return true;
    }

    /** Applies a patch to a held record; the result counts as stale until it is loaded again. */
    method Patch(key: string, apply: Value -> Value, suffix: string) returns (patched: bool)
      requires Valid()
      modifies this
      ensures Valid() && OthersKept(key)
      ensures patched == old(key in records)
      ensures !patched ==> Contents() == old(Contents())
      ensures patched ==>
                var was := old(records)[key];
                && At(key) == View(Some(Record(was.version + suffix, apply(was.value))),
                                   Some(Snapshot(Some(apply(was.value)), Ready, None, true)), true)
                && lruOrder == Recent(Touched(old(lruOrder), key), maxResources)
    {
      if key !in records {
        return false;
      }
      var was := records[key];
      WriteRecord(key, Record(was.version + suffix, apply(was.value)), true);
      return true;
    }

    /** Sets the loading state of a key; data that is held becomes stale. */
    method Mark(key: string, status: Status, error: Option<ErrorDetail>)
      requires Valid() && status != Missing
      modifies this
      ensures Valid() && OthersKept(key)
      ensures At(key).record == old(At(key)).record && At(key).stale == (key in old(records))
      ensures State(key) == Snapshot(old(Data(key)), status, error, key in old(records)) && key in lruOrder
      ensures lruOrder == if State(key) == old(State(key)) then old(lruOrder)
                          else Recent(Touched(old(lruOrder), key), maxResources)
    {
      if key in records {
        staleKeys := staleKeys + {key};
      }
      var _ := UpdateState(key, status, error, key in records);
    }

    /** Every listed key that survives is pending with the data it had; no other key changes. */
    method MarkPending(keys: seq<string>)
      requires Valid()
      modifies this
      ensures Valid()
      ensures forall k :: k in lruOrder && k !in keys ==> k in old(lruOrder) && At(k) == old(At(k))
      ensures forall k :: k in lruOrder && k in keys ==> Waits(k)
      ensures keys != [] ==> keys[|keys| - 1] in lruOrder
    {
      for i := 0 to |keys|
        invariant Valid()
        invariant forall k :: k in lruOrder && k !in keys[..i] ==> k in old(lruOrder) && At(k) == old(At(k))
        invariant forall k :: k in lruOrder && k in keys[..i] ==> Waits(k)
        invariant i > 0 ==> keys[i - 1] in lruOrder
      {
        assert keys[..i + 1] == keys[..i] + [keys[i]];
        MarkOnePending(keys[i]);
      }
      assert keys[..|keys|] == keys;
    }

    method MarkOnePending(key: string)
      requires Valid()
      modifies this
      ensures Valid() && OthersKept(key) && key in lruOrder && Waits(key)
      ensures At(key).record == old(At(key)).record
      ensures lruOrder == if State(key) == old(State(key)) then old(lruOrder)
                          else Recent(Touched(old(lruOrder), key), maxResources)
    {
      Mark(key, Pending, None);
      assert State(key) != MissingState;
    }

    /** A pending key shows the data that is held, if any, as stale and without error. */
    ghost predicate Waits(key: string)
      reads this
    {
      State(key) == Snapshot(Data(key), Pending, None, key in records) && (key in staleKeys <==> key in records)
    }

    method SetResourceError(key: string, error: ErrorDetail)
      requires Valid()
      modifies this
      ensures Valid() && OthersKept(key)
      ensures At(key).record == old(At(key)).record && At(key).stale == (key in old(records))
      ensures State(key) == Snapshot(old(Data(key)), Error, Some(error), key in old(records)) && key in lruOrder
      ensures lruOrder == if State(key) == old(State(key)) then old(lruOrder)
                          else Recent(Touched(old(lruOrder), key), maxResources)
    {
      Mark(key, Error, Some(error));
    }

    method ClearResourceError(key: string)
      requires Valid()
      modifies this
      ensures Valid() && OthersKept(key) && State(key).error == None
      ensures At(key).record == old(At(key)).record && At(key).stale == old(At(key)).stale
      ensures old(State(key)).error != None ==> State(key).status == if key in old(records) then Ready else Missing
      ensures lruOrder == if key !in old(lruOrder) then old(lruOrder)
                          else if State(key) == MissingState then Without(old(lruOrder), key)
                          else Touched(old(lruOrder), key)
    {
      if key in lruOrder {
        TouchedHeld(lruOrder, key, maxResources);
      }
      var current := GetStateSnapshot(key);
      if current.error == None {
        return;
      }
      var _ := UpdateState(key, if key in records then Ready else Missing, None, key in staleKeys);
    }

    /** Keeps the value visible while excluding its version from revalidation. */
    method MarkStale(key: string)
      requires Valid()
      modifies this
      ensures Valid() && OthersKept(key)
      ensures At(key).record == old(At(key)).record && At(key).stale == (key in old(records))
      ensures State(key).status == old(State(key)).status && State(key).error == old(State(key)).error
      ensures if old(key in records && key !in staleKeys) then lruOrder == Touched(old(lruOrder), key)
              else Contents() == old(Contents())
    {
      if key !in records || key in staleKeys {
        return;
      }
      TouchedHeld(lruOrder, key, maxResources);
      var current := GetStateSnapshot(key);
      FlagStale(key);
      var _ := UpdateState(key, current.status, current.error, true);
    }

    method FlagStale(key: string)
      requires Valid() && key in records
      modifies this`staleKeys
      ensures CoherentBut(key) && At(key) == old(At(key)).(stale := true)
      ensures forall k :: k != key ==> At(k) == old(At(k))
    {
      staleKeys := staleKeys + {key};
    }

    method Clear()
      requires Valid()
      modifies this
      ensures Valid() && lruOrder == [] && forall k :: At(k) == Empty
    {
      records, staleKeys, stateSnapshots, lruOrder := map[], {}, map[], [];
    }
  }
}
