/** What the router's operations leave in the store, key by key. */
module StoreEffects {
  import opened Json
  import RS = ResourceStore

  /** How a key shows after it was written: ready and fresh, or in another state beside data that
      counts as stale. */
  datatype Face = Fresh | Marked(status: RS.Status, error: Option<RS.ErrorDetail>)

  /** What an operation does to a key: the records it may store, none where it keeps the one that is
      held, and the state in which it leaves the key. */
  datatype Deed = Deed(records: set<RS.Record>, face: Face)

  const AsHeld := Deed({}, Fresh)

  predicate HasVersion(records: set<RS.Record>, version: string) {
    exists r :: r in records && r.version == version
  }

  /** One of the records given, or the one held before if it has their version or none was given.
      With room in the store, a record is not lost. */
  ghost predicate RecordShown(d: Deed, room: bool, before: Option<RS.Record>, after: Option<RS.Record>) {
    match after
    case None => d.face.Marked? && (room ==> before.None? && d.records == {})
    case Some(r) => r in d.records || (before == after && (d.records == {} || HasVersion(d.records, r.version)))
  }

  ghost predicate FaceShown(face: Face, v: RS.View) {
    && v.stale == (face.Marked? && v.record.Some?)
    && v.state == Some(RS.Snapshot(if v.record.Some? then Some(v.record.value.value) else None,
                                   if face.Marked? then face.status else RS.Ready,
                                   if face.Marked? then face.error else None, v.stale))
  }

  /** The key shows what was done to it; a key put back without a record is not held at all. */
  ghost predicate Shows(d: Deed, room: bool, before: RS.View, after: RS.View) {
    || (RecordShown(d, room, before.record, after.record) && FaceShown(d.face, after))
    || (after == RS.Empty && d == AsHeld && (room ==> before.record.None?))
  }

  /** Between two pictures of the store: each key shows what was done to it and any other key is as
      it was, except for keys that had to make room. */
  ghost predicate Brought(deeds: map<string, Deed>, room: bool, before: RS.Picture, after: RS.Picture) {
    forall k :: (!room && RS.See(after, k) == RS.Empty) ||
                (if k in deeds then Shows(deeds[k], room, RS.See(before, k), RS.See(after, k))
                 else RS.See(after, k) == RS.See(before, k))
  }

  /** A single write: at most one other key makes room, and only in a full store. */
  ghost predicate Does(key: string, d: Deed, max: nat, before: RS.Picture, after: RS.Picture) {
    && Shows(d, true, RS.See(before, key), RS.See(after, key))
    && |after.order| <= |before.order| + 1
    && (forall k :: k != key ==>
          || RS.See(after, k) == RS.See(before, k)
          || (RS.See(after, k) == RS.Empty && key !in before.order && |before.order| >= max))
  }

  lemma DoesOne(key: string, d: Deed, max: nat, before: RS.Picture, after: RS.Picture)
    requires max >= 1 && RS.Sound(before, max) && RS.Sound(after, max)
    requires RS.OthersLikeBefore(before, after, key) && RS.Relisted(before, after, key, max)
    requires Shows(d, true, RS.See(before, key), RS.See(after, key))
    ensures Does(key, d, max, before, after)
  {
    RS.OrderGrows(before, after, key, max);
    forall k | k != key
      ensures || RS.See(after, k) == RS.See(before, k)
              || (RS.See(after, k) == RS.Empty && key !in before.order && |before.order| >= max)
    {
      RS.KeySpared(before, after, key, max, k);
    }
  }

  /** Storing the record that is held puts the key back, and reading it before makes no difference. */
  lemma DoesAgain(key: string, r: RS.Record, max: nat, before: RS.Picture, read: RS.Picture, after: RS.Picture)
    requires Does(key, Deed({r}, Fresh), max, read, after)
    requires before.(order := read.order) == read && |read.order| == |before.order|
    requires key in read.order && key in before.order && key in before.records && before.records[key] == r
    ensures Does(key, AsHeld, max, before, after)
    ensures forall k :: k != key ==> RS.See(after, k) == RS.See(before, k)
  {
    assert forall k :: RS.See(read, k) == RS.See(before, k);
  }

  function More(deeds: map<string, Deed>, key: string, d: Deed): map<string, Deed> {
    deeds[key := if key in deeds then Deed(deeds[key].records + d.records, d.face) else d]
  }

  /** The second of two deeds to one key settles its face, and either may have given its record. */
  lemma ShowsTwice(c: Deed, d: Deed, room: bool, u: RS.View, v: RS.View, w: RS.View)
    requires Shows(c, room, u, v) && Shows(d, true, v, w)
    ensures Shows(Deed(c.records + d.records, d.face), room, u, w) || (!room && w == RS.Empty)
  {
    var e := Deed(c.records + d.records, d.face);
    if w != RS.Empty && w.record.Some? && w.record.value !in e.records && c.records != {} {
      var r :| r in c.records + d.records && r.version == w.record.value.version;
      assert HasVersion(e.records, w.record.value.version);
    } else if w != RS.Empty && w.record.Some? && d.records != {} && w.record.value !in e.records {
      var r :| r in d.records && r.version == w.record.value.version;
      assert r in e.records;
    }
  }

  /** One write more. With room for it, no other key is lost. */
  lemma BroughtMore(deeds: map<string, Deed>, room: bool, max: nat, p: RS.Picture, q: RS.Picture, r: RS.Picture,
                    key: string, d: Deed)
    requires Brought(deeds, room, p, q) && Does(key, d, max, q, r)
    requires room ==> |q.order| < max || key in q.order
    ensures Brought(More(deeds, key, d), room, p, r)
  {
    forall k
      ensures (!room && RS.See(r, k) == RS.Empty) ||
              (if k in More(deeds, key, d) then Shows(More(deeds, key, d)[k], room, RS.See(p, k), RS.See(r, k))
               else RS.See(r, k) == RS.See(p, k))
    {
      if k == key {
        KeyBrought(deeds, room, p, q, r, key, d);
      }
    }
  }

  lemma KeyBrought(deeds: map<string, Deed>, room: bool, p: RS.Picture, q: RS.Picture, r: RS.Picture, key: string,
                   d: Deed)
    requires Brought(deeds, room, p, q) && Shows(d, true, RS.See(q, key), RS.See(r, key))
    ensures (!room && RS.See(r, key) == RS.Empty) ||
            Shows(More(deeds, key, d)[key], room, RS.See(p, key), RS.See(r, key))
  {
    if key in deeds && Shows(deeds[key], room, RS.See(p, key), RS.See(q, key)) {
      ShowsTwice(deeds[key], d, room, RS.See(p, key), RS.See(q, key), RS.See(r, key));
    } else if RS.See(q, key) == RS.Empty {
      assert RS.See(r, key) != RS.Empty ==> RecordShown(d, room, RS.See(p, key).record, RS.See(r, key).record);
    }
  }
}
