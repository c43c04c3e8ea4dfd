/** What patches and invalidations make of each key of the store. They add no key, so nothing has to
    make room. */
module SweepEffects {
  import opened Json
  import opened RouterProtocol
  import RS = ResourceStore

  /** A held value is replaced and counts as stale; a missing one is dropped where `drop` asks for it. */
  function Changed(c: Change, drop: bool, v: RS.View): RS.View {
    if v.record.Some? then
      var value := c.apply(v.record.value.value);
      RS.View(Some(RS.Record(v.record.value.version + c.suffix, value)),
              Some(RS.Snapshot(Some(value), RS.Ready, None, true)),
              true)
    else if drop then RS.Empty else v
  }

  /** All changes to one key, in order. */
  function ChangedBy(changes: seq<Change>, drop: bool, key: string, v: RS.View): RS.View {
    if changes == [] then v
    else
      var last := changes[|changes| - 1];
      var before := ChangedBy(changes[..|changes| - 1], drop, key, v);
      if last.key == key then Changed(last, drop, before) else before
  }

  /** A value in use stays, as stale; any other is dropped. */
  function Obsoleted(inUse: bool, v: RS.View): RS.View {
    if !inUse then RS.Empty
    else if v.record.Some? && v.state.Some? then v.(state := Some(v.state.value.(stale := true)), stale := true)
    else v
  }

  function ObsoletedBy(keys: seq<string>, inUse: set<string>, key: string, v: RS.View): RS.View {
    if keys == [] then v
    else
      var before := ObsoletedBy(keys[..|keys| - 1], inUse, key, v);
      if keys[|keys| - 1] == key then Obsoleted(key in inUse, before) else before
  }

  /** The store after these changes. */
  ghost predicate ShowsChanges(changes: seq<Change>, drop: bool, p: RS.Picture, q: RS.Picture) {
    forall k :: RS.See(q, k) == ChangedBy(changes, drop, k, RS.See(p, k))
  }

  /** The store after these keys became obsolete. */
  ghost predicate ShowsObsolete(keys: seq<string>, inUse: set<string>, p: RS.Picture, q: RS.Picture) {
    forall k :: RS.See(q, k) == ObsoletedBy(keys, inUse, k, RS.See(p, k))
  }

  lemma ChangesMore(changes: seq<Change>, i: nat, drop: bool, p: RS.Picture, q: RS.Picture, r: RS.Picture)
    requires i < |changes| && ShowsChanges(changes[..i], drop, p, q)
    requires forall k :: RS.See(r, k) == if k == changes[i].key then Changed(changes[i], drop, RS.See(q, k))
              else RS.See(q, k)
    ensures ShowsChanges(changes[..i + 1], drop, p, r)
  {
    assert changes[..i + 1][..i] == changes[..i];
  }

  lemma ObsoleteMore(keys: seq<string>, i: nat, inUse: set<string>, p: RS.Picture, q: RS.Picture, r: RS.Picture)
    requires i < |keys| && ShowsObsolete(keys[..i], inUse, p, q)
    requires forall k :: RS.See(r, k) == if k == keys[i] then Obsoleted(k in inUse, RS.See(q, k)) else RS.See(q, k)
    ensures ShowsObsolete(keys[..i + 1], inUse, p, r)
  {
    assert keys[..i + 1][..i] == keys[..i];
  }

  /** The store after a mutation: its patches, then its invalidations. */
  ghost predicate ShowsMutation(changes: seq<Change>, invalidated: seq<string>, inUse: set<string>, p: RS.Picture,
                                q: RS.Picture) {
    forall k :: RS.See(q, k) == ObsoletedBy(invalidated, inUse, k, ChangedBy(changes, true, k, RS.See(p, k)))
  }
}
