/** What the router's operations owe each other: the order of writes, the epochs that loads
    captured, and which work may still be called off. */
module RouterProtocol {
  import opened Json
  import opened ResourceEpochs
  import opened StoreEffects
  import RS = ResourceStore

  // ----- Writes -----

  datatype WriteKind = ValueWrite(version: string) | ErrorWrite(error: RS.ErrorDetail) | InvalidationWrite

  /** A write to a resource, stamped with the epoch of the operation that issued it. */
  datatype Write = Write(key: string, epoch: nat, kind: WriteKind)

  /** For each key, writes happen in the order in which their operations were issued. */
  ghost predicate InOrder(log: seq<Write>) {
    forall i, j :: 0 <= i < j < |log| && log[i].key == log[j].key ==> log[i].epoch <= log[j].epoch
  }

  /** No write is ahead of the current epoch of its key. */
  ghost predicate Behind(log: seq<Write>, l: Ledger) {
    match l
    case Ledger(_, history, counter) =>
      forall i :: 0 <= i < |log| ==>
        && log[i].epoch <= counter
        && (log[i].key in history ==> log[i].epoch <= history[log[i].key].epoch)
  }

  lemma BehindStep(log: seq<Write>, l: Ledger, b: Bumped)
    requires Sound(l) && Behind(log, l)
    ensures Behind(log, Step(l, b))
  {
  }

  /** The operation that gave `key` this epoch is the last to have touched it. */
  ghost predicate Due(key: string, epoch: nat, l: Ledger) {
    match l
    case Ledger(_, history, _) => key in history && history[key].epoch == epoch
  }

  /** A write in the name of an operation keeps the writes in order if the operation is the last
      to have touched the key. */
  lemma AppendWrite(log: seq<Write>, l: Ledger, key: string, epoch: nat, kind: WriteKind)
    requires Sound(l) && InOrder(log) && Behind(log, l) && Due(key, epoch, l)
    ensures InOrder(log + [Write(key, epoch, kind)])
    ensures Behind(log + [Write(key, epoch, kind)], l)
  {
  }

  /** The writes from position `from` on were issued by the load that captured these epochs,
      and no other operation had touched their keys. */
  ghost predicate Stamped(log: seq<Write>, from: nat, captured: map<string, nat>, l: Ledger) {
    match l
    case Ledger(_, history, _) =>
      forall i :: from <= i < |log| ==>
        && log[i].key in captured && log[i].epoch == captured[log[i].key]
        && log[i].key in history && history[log[i].key].epoch == log[i].epoch
  }

  /** The keys written from position `from` on. */
  ghost function Wrote(log: seq<Write>, from: nat): set<string>
    requires from <= |log|
  {
    if |log| == from then {} else Wrote(log[..|log| - 1], from) + {log[|log| - 1].key}
  }

  lemma {:induction false} WroteSplit(log: seq<Write>, more: seq<Write>, from: nat)
    requires from <= |log| && log <= more
    ensures Wrote(more, from) == Wrote(log, from) + Wrote(more, |log|)
    decreases |more|
  {
    if |log| == |more| {
      assert log == more;
    } else {
      WroteSplit(log, more[..|more| - 1], from);
    }
  }

  /** What became of a key, whoever wrote it. */
  datatype Note = Note(key: string, kind: WriteKind)

  /** The notes written from position `from` on. */
  ghost function Noted(log: seq<Write>, from: nat): set<Note>
    requires from <= |log|
  {
    if |log| == from then {}
    else Noted(log[..|log| - 1], from) + {Note(log[|log| - 1].key, log[|log| - 1].kind)}
  }

  lemma {:induction false} NotedMore(log: seq<Write>, more: seq<Write>, from: nat)
    requires from <= |log| && log <= more
    ensures Noted(log, from) <= Noted(more, from)
    decreases |more|
  {
    if |log| == |more| {
      assert log == more;
    } else {
      NotedMore(log, more[..|more| - 1], from);
    }
  }

  /** The writes from position `from` on went to keys without authority later than `startedAt`. */
  ghost predicate Admitted(log: seq<Write>, from: nat, startedAt: nat, l: Ledger) {
    match l
    case Ledger(_, history, counter) =>
      forall i :: from <= i < |log| ==>
        ExactOf(history, log[i].key).authoritative <= startedAt && log[i].epoch > counter
  }

  /** The writes from position `from` on went to keys that nothing had touched since `startedAt`. */
  ghost predicate Undisturbed(log: seq<Write>, from: nat, startedAt: nat, l: Ledger) {
    match l
    case Ledger(_, history, counter) =>
      forall i :: from <= i < |log| ==>
        ExactOf(history, log[i].key).epoch <= startedAt && log[i].epoch > counter
  }

  /** Writes stamped with the epochs given to admitted keys are admitted. */
  lemma StampedIsAdmitted(log: seq<Write>, from: nat, captured: map<string, nat>, startedAt: nat,
                                             l: Ledger, m: Ledger)
    requires Sound(l) && Stamped(log, from, captured, m)
    requires forall k :: k in captured ==> captured[k] > l.counter && AuthorityOf(l.table, k) <= startedAt
    ensures Admitted(log, from, startedAt, l)
  {
    forall i | from <= i < |log|
      ensures ExactOf(l.history, log[i].key).authoritative <= startedAt && log[i].epoch > l.counter
    {
      RefinesMeans(l.table, l.history, l.counter, log[i].key);
    }
  }

  lemma StampedIsUndisturbed(log: seq<Write>, from: nat, captured: map<string, nat>,
                                                startedAt: nat, l: Ledger, m: Ledger)
    requires Sound(l) && Stamped(log, from, captured, m)
    requires forall k :: k in captured ==> captured[k] > l.counter && EpochOf(l.table, k) <= startedAt
    ensures Undisturbed(log, from, startedAt, l)
  {
    forall i | from <= i < |log| ensures ExactOf(l.history, log[i].key).epoch <= startedAt && log[i].epoch > l.counter {
      RefinesMeans(l.table, l.history, l.counter, log[i].key);
    }
  }

  // ----- Operations in flight -----

  /** Why a load runs: asked for, caused by live events, or filling the deferred part of a page. */
  datatype Reason = Asked | FromLive | ForDeferred

  /** A resource load: its keys with the epochs it gave them. */
  datatype Load = Load(id: nat, generation: nat, keys: seq<string>, captured: map<string, nat>, reason: Reason)

  datatype Visit = Visit(id: nat, startedAt: nat)

  datatype Prefetch = Prefetch(generation: nat, startedAt: nat, known: set<string>)

  datatype Mutation = Mutation(generation: nat, visitCounter: nat)

  datatype Page = Page(component: string, url: string)

  datatype Resource = Resource(key: string, record: RS.Record)

  datatype Failure = Failure(key: string, error: RS.ErrorDetail)

  datatype PageEnvelope = PageEnvelope(
    page: Page, resources: seq<Resource>, errors: seq<Failure>, deferred: seq<string>,
    resourceKeys: Option<seq<string>>)

  /** All keys that an envelope names. */
  function EnvelopeKeys(e: PageEnvelope): seq<string> {
    ResourceKeys(e.resources) + FailureKeys(e.errors) + e.deferred
    + if e.resourceKeys.Some? then e.resourceKeys.value else []
  }

  function ResourceKeys(resources: seq<Resource>): (keys: seq<string>)
    ensures |keys| == |resources| && forall i :: 0 <= i < |keys| ==> keys[i] == resources[i].key
  {
    seq(|resources|, i requires 0 <= i < |resources| => resources[i].key)
  }

  function FailureKeys(errors: seq<Failure>): (keys: seq<string>)
    ensures |keys| == |errors| && forall i :: 0 <= i < |keys| ==> keys[i] == errors[i].key
  {
    seq(|errors|, i requires 0 <= i < |errors| => errors[i].key)
  }

  /** The notes that an envelope asks for. */
  function ResourceNotes(resources: seq<Resource>): (notes: seq<Note>)
    ensures |notes| == |resources|
    ensures forall i :: 0 <= i < |notes| ==> notes[i] == Note(resources[i].key, ValueWrite(resources[i].record.version))
  {
    seq(|resources|, i requires 0 <= i < |resources| => Note(resources[i].key, ValueWrite(resources[i].record.version)))
  }

  function FailureNotes(errors: seq<Failure>): (notes: seq<Note>)
    ensures |notes| == |errors|
    ensures forall i :: 0 <= i < |notes| ==> notes[i] == Note(errors[i].key, ErrorWrite(errors[i].error))
  {
    seq(|errors|, i requires 0 <= i < |errors| => Note(errors[i].key, ErrorWrite(errors[i].error)))
  }

  /** A change to the value of a resource, with the suffix that tells its version apart. */
  datatype Change = Change(key: string, apply: Value -> Value, suffix: string)

  datatype LiveEvent =
    | LivePatch(own: bool, changes: seq<Change>)
    | LiveInvalidation(own: bool, keys: seq<string>)
    | LiveResync(keys: seq<string>)
    | LiveOther

  /** How a load ends: with a response, by an abort or by another error. */
  datatype LoadEnd =
    | Answer(resources: map<string, RS.Record>, errors: map<string, RS.ErrorDetail>)
    | Aborted
    | Broken(error: RS.ErrorDetail)

  /** What the end of a load makes of a key: the answer's value, else its error, else what was
      there before; an abort puts the key back and any other failure becomes its error. */
  ghost predicate Fits(end: LoadEnd, key: string, kind: WriteKind) {
    match end
    case Answer(resources, errors) =>
      if key in resources then kind == ValueWrite(resources[key].version)
      else if key in errors then kind == ErrorWrite(errors[key])
      else !kind.ErrorWrite?
    case Aborted => !kind.ErrorWrite?
    case Broken(error) => kind == ErrorWrite(error)
  }

  ghost predicate Fitting(log: seq<Write>, from: nat, end: LoadEnd) {
    forall i :: from <= i < |log| ==> Fits(end, log[i].key, log[i].kind)
  }

  /** The deferred batch in progress: its abort controller, its load if any key was asked
      for, its keys and the epochs read once that load had started. */
  datatype Deferred = Deferred(controller: nat, load: Option<nat>, keys: seq<string>, epochs: map<string, nat>)

  // ----- Epochs captured by loads -----

  /** Each key was given its captured epoch since the last clear. */
  ghost predicate Known(captured: map<string, nat>, l: Ledger) {
    match l
    case Ledger(_, history, _) =>
      forall k :: k in captured ==> k in history && 1 <= captured[k] <= history[k].epoch
  }

  /** Each key has moved on since, in the table as the code reads it. */
  ghost predicate Outdated(captured: map<string, nat>, l: Ledger) {
    match l
    case Ledger(table, _, _) => forall k :: k in captured ==> captured[k] < EpochOf(table, k)
  }

  /** Each key was last touched by the operation that captured it, after epoch `since`, and with
      authority unless that was speculation. */
  ghost predicate Current(captured: map<string, nat>, since: nat, speculative: bool, l: Ledger) {
    match l
    case Ledger(_, history, _) =>
      forall k :: k in captured ==>
        && k in history && since < captured[k] == history[k].epoch
        && (speculative || history[k].authoritative == captured[k])
  }

  lemma CurrentIsKnown(captured: map<string, nat>, since: nat, speculative: bool, l: Ledger)
    requires Current(captured, since, speculative, l)
    ensures Known(captured, l) && Current(captured, since, true, l)
  {
  }

  lemma CurrentStep(captured: map<string, nat>, since: nat, l: Ledger, b: Bumped)
    requires Sound(l) && Current(captured, since, b.speculative, l) && since <= l.counter
    ensures Current(captured[b.key := l.counter + 1], since, b.speculative, Step(l, b))
  {
  }

  lemma OutdatedForGood(captured: map<string, nat>, l: Ledger, m: Ledger)
    requires Outdated(captured, l) && Later(l, m)
    ensures Outdated(captured, m)
  {
    forall k | k in captured ensures captured[k] < EpochOf(m.table, k) {
      LaterReadsMore(l, m, k);
    }
  }

  lemma KnownForGood(captured: map<string, nat>, l: Ledger, m: Ledger)
    requires Known(captured, l) && Later(l, m)
    ensures Known(captured, m)
  {
    forall k | k in captured ensures k in m.history && 1 <= captured[k] <= m.history[k].epoch {
      LaterKnowsMore(l, m, k);
    }
  }

  /** A key that still reads its captured epoch was left alone by every other operation. */
  lemma StillCurrent(captured: map<string, nat>, l: Ledger, key: string)
    requires Sound(l) && Known(captured, l) && key in captured
    ensures captured[key] <= EpochOf(l.table, key)
    ensures EpochOf(l.table, key) == captured[key] ==> l.history[key].epoch == captured[key]
  {
    RefinesMeans(l.table, l.history, l.counter, key);
  }

  /** Every one of these keys that still reads its captured epoch is among those written. */
  ghost predicate Answered(keys: seq<string>, captured: map<string, nat>, l: Ledger, written: set<string>) {
    match l
    case Ledger(table, _, _) =>
      forall k :: k in keys && k in captured && EpochOf(table, k) == captured[k] ==> k in written
  }

  lemma AnsweredMore(keys: seq<string>, i: nat, captured: map<string, nat>, l: Ledger, before: set<string>,
                     after: set<string>)
    requires i < |keys| && Answered(keys[..i], captured, l, before) && before <= after
    requires keys[i] in captured && EpochOf(l.table, keys[i]) == captured[keys[i]] ==> keys[i] in after
    ensures Answered(keys[..i + 1], captured, l, after)
  {
    assert keys[..i + 1] == keys[..i] + [keys[i]];
  }

  // ----- What a load leaves in the store -----

  /** What the end of a load does to a key that the load still holds. */
  function DeedFor(end: LoadEnd, key: string): Deed {
    match end
    case Answer(resources, errors) =>
      if key in resources then Deed({resources[key]}, Fresh)
      else if key in errors then Deed({}, Marked(RS.Error, Some(errors[key])))
      else AsHeld
    case Aborted => AsHeld
    case Broken(error) => Deed({}, Marked(RS.Error, Some(error)))
  }

  function DeedsFor(end: LoadEnd, held: set<string>): map<string, Deed> {
    map k | k in held :: DeedFor(end, k)
  }

  /** The keys that still read the epoch captured for them. */
  ghost function HeldBy(keys: seq<string>, captured: map<string, nat>, l: Ledger): set<string> {
    match l
    case Ledger(table, _, _) => set k | k in keys && k in captured && EpochOf(table, k) == captured[k]
  }

  /** The last of the keys held that is given a value or an error. */
  function LastGiven(keys: seq<string>, held: set<string>, end: LoadEnd): Option<string> {
    if keys == [] then None
    else
      var last := keys[|keys| - 1];
      if last in held && DeedFor(end, last) != AsHeld then Some(last) else LastGiven(keys[..|keys| - 1], held, end)
  }

  /** What holds of the store while a load settles its keys. */
  ghost predicate Settling(keys: seq<string>, captured: map<string, nat>, l: Ledger, end: LoadEnd, room: bool,
                           before: RS.Picture, after: RS.Picture) {
    var held := HeldBy(keys, captured, l);
    && Brought(DeedsFor(end, held), room, before, after)
    && |after.order| <= |before.order| + |keys|
    && (LastGiven(keys, held, end).Some? ==> RS.See(after, LastGiven(keys, held, end).value) != RS.Empty)
  }

  lemma SettlingNone(captured: map<string, nat>, l: Ledger, end: LoadEnd, room: bool, p: RS.Picture)
    ensures Settling([], captured, l, end, room, p, p)
  {
    assert HeldBy([], captured, l) == {};
  }

  /** A key that is not held is passed over; another one is settled. */
  lemma SettlingMore(keys: seq<string>, i: nat, captured: map<string, nat>, l: Ledger, end: LoadEnd, room: bool,
                     max: nat,
                     p: RS.Picture, q: RS.Picture, r: RS.Picture)
    requires i < |keys| && Settling(keys[..i], captured, l, end, room, p, q)
    requires room ==> |p.order| + |keys| <= max
    requires if keys[i] in HeldBy(keys, captured, l) then
               && Does(keys[i], DeedFor(end, keys[i]), max, q, r)
               && (DeedFor(end, keys[i]) == AsHeld ==> forall k :: k != keys[i] ==> RS.See(r, k) == RS.See(q, k))
             else r == q
    ensures Settling(keys[..i + 1], captured, l, end, room, p, r)
  {
    var key, before, now := keys[i], HeldBy(keys[..i], captured, l), HeldBy(keys[..i + 1], captured, l);
    assert keys[..i + 1] == keys[..i] + [key] && keys[..i + 1][..i] == keys[..i];
    LastGivenSame(keys[..i], before, now, end);
    if key in HeldBy(keys, captured, l) {
      assert now == before + {key};
      BroughtMore(DeedsFor(end, before), room, max, p, q, r, key, DeedFor(end, key));
      DeedsMore(end, before, key);
      GivenMore(keys[..i], before, now, end, key, q, r);
    } else {
      assert now == before;
    }
  }

  lemma DeedsMore(end: LoadEnd, held: set<string>, key: string)
    ensures More(DeedsFor(end, held), key, DeedFor(end, key)) == DeedsFor(end, held + {key})
  {
    var d := DeedFor(end, key);
    assert d.records + d.records == d.records;
  }

  lemma GivenMore(keys: seq<string>, before: set<string>, now: set<string>, end: LoadEnd, key: string, q: RS.Picture,
                  r: RS.Picture)
    requires LastGiven(keys, before, end) == LastGiven(keys, now, end)
    requires LastGiven(keys, before, end).Some? ==> RS.See(q, LastGiven(keys, before, end).value) != RS.Empty
    requires key in now && Shows(DeedFor(end, key), true, RS.See(q, key), RS.See(r, key))
    requires DeedFor(end, key) == AsHeld ==> forall k :: k != key ==> RS.See(r, k) == RS.See(q, k)
    ensures LastGiven(keys + [key], now, end).Some? ==> RS.See(r, LastGiven(keys + [key], now, end).value) != RS.Empty
  {
    assert (keys + [key])[..|keys|] == keys;
    LastGivenHeld(keys, now, end);
  }

  lemma {:induction false} LastGivenHeld(keys: seq<string>, held: set<string>, end: LoadEnd)
    ensures LastGiven(keys, held, end).Some? ==>
              LastGiven(keys, held, end).value in held && DeedFor(end, LastGiven(keys, held, end).value) != AsHeld
  {
    if keys != [] {
      LastGivenHeld(keys[..|keys| - 1], held, end);
    }
  }

  lemma {:induction false} LastGivenSame(keys: seq<string>, held: set<string>, more: set<string>, end: LoadEnd)
    requires forall k :: k in keys ==> (k in held <==> k in more)
    ensures LastGiven(keys, held, end) == LastGiven(keys, more, end)
    ensures LastGiven(keys, held, end).Some? ==> LastGiven(keys, held, end).value in keys
  {
    if keys != [] {
      LastGivenSame(keys[..|keys| - 1], held, more, end);
    }
  }

  /** Each key has moved on, except possibly those in `rest`. */
  ghost predicate OutdatedBut(captured: map<string, nat>, rest: set<string>, l: Ledger) {
    match l
    case Ledger(table, _, _) => forall k :: k in captured && k !in rest ==> captured[k] < EpochOf(table, k)
  }

  lemma OutdatedButStep(captured: map<string, nat>, rest: set<string>, key: string, l: Ledger, m: Ledger)
    requires OutdatedBut(captured, rest, l) && Later(l, m)
    requires key in captured ==> captured[key] < EpochOf(m.table, key)
    ensures OutdatedBut(captured, rest - {key}, m)
  {
    forall k | k in captured && k !in rest - {key} ensures captured[k] < EpochOf(m.table, k) {
      LaterReadsMore(l, m, k);
    }
  }

  ghost predicate Tracked(loads: map<nat, map<string, nat>>, last: nat, l: Ledger) {
    match l
    case Ledger(_, _, _) => forall id :: id in loads ==> id <= last && Known(loads[id], l)
  }

  lemma TrackedForGood(loads: map<nat, map<string, nat>>, last: nat, l: Ledger, m: Ledger)
    requires Tracked(loads, last, l) && Later(l, m)
    ensures Tracked(loads, last, m)
  {
    forall id | id in loads ensures Known(loads[id], m) {
      KnownForGood(loads[id], l, m);
    }
  }

  /** The epochs noted for a deferred batch lie between those of its load and the present. */
  ghost predicate Batched(d: Option<Deferred>, captured: map<string, nat>, l: Ledger) {
    match d
    case None => true
    case Some(batch) =>
      && (forall k :: k in captured ==> k in batch.keys && k in batch.epochs && 1 <= captured[k] <= batch.epochs[k])
      && (forall k :: k in batch.epochs ==> batch.epochs[k] <= EpochOf(l.table, k))
  }

  lemma BatchedForGood(d: Option<Deferred>, captured: map<string, nat>, l: Ledger, m: Ledger)
    requires Batched(d, captured, l) && Later(l, m)
    ensures Batched(d, captured, m)
  {
    if d.Some? {
      forall k | k in d.value.epochs ensures d.value.epochs[k] <= EpochOf(m.table, k) {
        LaterReadsMore(l, m, k);
      }
    }
  }

  lemma BatchedAtFirst(batch: Deferred, captured: map<string, nat>, l: Ledger)
    requires Sound(l) && Current(captured, 0, false, l) && forall k :: k in captured ==> k in batch.keys
    requires forall k :: k in batch.epochs <==> k in batch.keys
    requires forall k :: k in batch.epochs ==> batch.epochs[k] == EpochOf(l.table, k)
    ensures Batched(Some(batch), captured, l)
  {
    CurrentIsKnown(captured, 0, false, l);
    forall k | k in captured ensures 1 <= captured[k] <= batch.epochs[k] {
      StillCurrent(captured, l, k);
    }
  }

  /** What a bump of `key` leaves behind. */
  ghost predicate BumpedTo(l: Ledger, m: Ledger, key: string, epoch: nat) {
    match m
    case Ledger(table, history, counter) =>
      && Later(l, m) && epoch == counter == l.counter + 1
      && key in history && history[key].epoch == epoch && EpochOf(table, key) == epoch
  }

  /** The same for a bump with authority. */
  ghost predicate RuledBy(l: Ledger, m: Ledger, key: string, epoch: nat) {
    match m
    case Ledger(table, history, counter) =>
      && Later(l, m) && epoch == counter == l.counter + 1
      && key in history && history[key] == Exact(epoch, epoch) && EpochOf(table, key) == epoch
  }

  lemma BumpFacts(l: Ledger, b: Bumped)
    requires Sound(l)
    ensures BumpedTo(l, Step(l, b), b.key, l.counter + 1)
    ensures !b.speculative ==> RuledBy(l, Step(l, b), b.key, l.counter + 1)
  {
    StepFacts(l, b, b.key);
    LaterSame(l);
    LaterStep(l, l, b);
  }

  /** The writes and the loads in flight agree with the epochs. */
  ghost predicate Consistent(log: seq<Write>, loads: map<nat, map<string, nat>>, last: nat, d: Option<Deferred>,
                             captured: map<string, nat>, l: Ledger) {
    match l
    case Ledger(_, _, _) => InOrder(log) && Behind(log, l) && Tracked(loads, last, l) && Batched(d, captured, l)
  }

  lemma BumpKeeps(log: seq<Write>, loads: map<nat, map<string, nat>>, last: nat, d: Option<Deferred>,
                                     captured: map<string, nat>, l: Ledger, b: Bumped)
    requires Sound(l) && Consistent(log, loads, last, d, captured, l)
    ensures Consistent(log, loads, last, d, captured, Step(l, b))
  {
    BumpFacts(l, b);
    BehindStep(log, l, b);
    TrackedForGood(loads, last, l, Step(l, b));
    BatchedForGood(d, captured, l, Step(l, b));
  }

  /** A stretch of bumps, speculative ones only where `speculative`. */
  ghost predicate Bumps(l: Ledger, m: Ledger, speculative: bool) {
    match m
    case Ledger(_, _, counter) => Later(l, m) && l.counter <= counter && (speculative ==> Speculated(l, m))
  }

  lemma BumpsNone(l: Ledger, speculative: bool)
    requires Sound(l)
    ensures Bumps(l, l, speculative)
  {
    LaterSame(l);
    SpeculatedSame(l);
  }

  lemma CapturesOne(captured: map<string, nat>, l: Ledger, m: Ledger, n: Ledger, b: Bumped)
    requires Current(captured, l.counter, b.speculative, m) && Bumps(l, m, b.speculative) && Sound(m) && n == Step(m, b)
    ensures Current(captured[b.key := n.counter], l.counter, b.speculative, n) && Bumps(l, n, b.speculative)
  {
    CurrentStep(captured, l.counter, m, b);
    BumpsStep(l, m, b);
  }

  lemma BumpsStep(l: Ledger, m: Ledger, b: Bumped)
    requires Bumps(l, m, b.speculative)
    ensures Sound(m) && Bumps(l, Step(m, b), b.speculative)
  {
    LaterStep(l, m, b);
    if b.speculative {
      SpeculatedStep(l, m, b.key);
    }
  }

  /** All these keys have moved beyond every epoch up to `counter`, and with authority. */
  ghost predicate Moved(keys: seq<string>, counter: nat, l: Ledger) {
    match l
    case Ledger(table, history, _) =>
      forall k :: k in keys ==> EpochOf(table, k) > counter && k in history && history[k].authoritative > counter
  }

  lemma MovedOn(keys: seq<string>, counter: nat, l: Ledger, m: Ledger)
    requires Moved(keys, counter, l) && Later(l, m)
    ensures Moved(keys, counter, m)
  {
    forall k | k in keys
      ensures EpochOf(m.table, k) > counter && k in m.history && m.history[k].authoritative > counter
    {
      LaterReadsMore(l, m, k);
      LaterKnowsMore(l, m, k);
    }
  }

  lemma MovedMore(keys: seq<string>, i: nat, counter: nat, l: Ledger, m: Ledger)
    requires i < |keys| && Moved(keys[..i], counter, l) && counter <= l.counter && RuledBy(l, m, keys[i], m.counter)
    ensures Moved(keys[..i + 1], counter, m)
  {
    MovedOn(keys[..i], counter, l, m);
    assert keys[..i + 1] == keys[..i] + [keys[i]];
  }

  // ----- Navigation envelopes -----

  /** The keys of an envelope that were captured are those without authority later than `startedAt`. */
  ghost predicate Eligible(captured: map<string, nat>, keys: seq<string>, startedAt: nat, l: Ledger) {
    match l
    case Ledger(table, _, _) => forall k :: k in captured <==> k in keys && AuthorityOf(table, k) <= startedAt
  }

  ghost predicate Delivered(notes: seq<Note>, captured: map<string, nat>, written: set<Note>) {
    forall n :: n in notes && n.key in captured ==> n in written
  }

  lemma DeliveredMore(notes: seq<Note>, i: nat, captured: map<string, nat>, before: set<Note>, after: set<Note>)
    requires i < |notes| && Delivered(notes[..i], captured, before) && before <= after
    requires notes[i].key in captured ==> notes[i] in after
    ensures Delivered(notes[..i + 1], captured, after)
  {
    assert notes[..i + 1] == notes[..i] + [notes[i]];
  }

  /** What a navigation does with its envelope: every write goes to a key that nothing but
      speculation has touched since `startedAt`, and every value, error and deferred key of the
      envelope that the epochs show to be such a key is applied. */
  ghost predicate Applied(e: PageEnvelope, startedAt: nat, l: Ledger, log: seq<Write>, from: nat,
                          deferred: seq<string>) {
    match l
    case Ledger(table, _, _) =>
      && from <= |log| && Admitted(log, from, startedAt, l)
      && (forall n :: n in ResourceNotes(e.resources) && AuthorityOf(table, n.key) <= startedAt ==>
                        n in Noted(log, from))
      && (forall n :: n in FailureNotes(e.errors) && AuthorityOf(table, n.key) <= startedAt ==> n in Noted(log, from))
      && (forall k :: k in deferred <==> k in e.deferred && AuthorityOf(table, k) <= startedAt)
  }

  lemma EnvelopeApplied(e: PageEnvelope, startedAt: nat, captured: map<string, nat>, l: Ledger, m: Ledger,
                                           log: seq<Write>, from: nat, deferred: seq<string>)
    requires Sound(l) && from <= |log|
    requires Eligible(captured, EnvelopeKeys(e), startedAt, l) && Current(captured, l.counter, true, m)
    requires Stamped(log, from, captured, m)
    requires Delivered(ResourceNotes(e.resources), captured, Noted(log, from))
    requires Delivered(FailureNotes(e.errors), captured, Noted(log, from))
    requires forall k :: k in deferred <==> k in e.deferred && k in captured
    ensures Applied(e, startedAt, l, log, from, deferred)
  {
    StampedIsAdmitted(log, from, captured, startedAt, l, m);
    forall n | n in ResourceNotes(e.resources) ensures n.key in EnvelopeKeys(e) {
      assert n.key in ResourceKeys(e.resources);
    }
    forall n | n in FailureNotes(e.errors) ensures n.key in EnvelopeKeys(e) {
      assert n.key in FailureKeys(e.errors);
    }
  }

  /** Prefetches that completed during a navigation, in any number and with any evictions, leave
      every key of its envelope eligible. */
  lemma PrefetchesBlockNothing(e: PageEnvelope, l: Ledger, m: Ledger, log: seq<Write>, from: nat,
                                                  deferred: seq<string>, n: Note)
    requires Speculated(l, m) && Applied(e, l.counter, m, log, from, deferred)
    ensures n in ResourceNotes(e.resources) + FailureNotes(e.errors) ==> n in Noted(log, from)
    ensures n.key in deferred <==> n.key in e.deferred
  {
    var run :| AllSpeculative(run) && m == Run(l, run);
    SpeculationNeverVetoes(l, run, n.key);
  }

  /** The captured keys are those of the list that read no epoch later than `startedAt`. */
  ghost predicate Quiet(captured: map<string, nat>, keys: seq<string>, startedAt: nat, l: Ledger) {
    match l
    case Ledger(table, _, _) => forall k :: k in captured <==> k in keys && EpochOf(table, k) <= startedAt
  }

  /** What a prefetch does with its envelope: every write goes to a key that nothing has touched
      since `startedAt`, and every value for a key that reads no later epoch is applied. */
  ghost predicate Prefetched(resources: seq<Resource>, startedAt: nat, l: Ledger, log: seq<Write>, from: nat) {
    match l
    case Ledger(table, _, _) =>
      && from <= |log| && Undisturbed(log, from, startedAt, l)
      && (forall n :: n in ResourceNotes(resources) && EpochOf(table, n.key) <= startedAt ==> n in Noted(log, from))
  }

  lemma PrefetchApplied(resources: seq<Resource>, startedAt: nat, captured: map<string, nat>, l: Ledger,
                                           m: Ledger, log: seq<Write>, from: nat)
    requires Sound(l) && from <= |log|
    requires Quiet(captured, ResourceKeys(resources), startedAt, l) && Current(captured, l.counter, true, m)
    requires Stamped(log, from, captured, m) && Delivered(ResourceNotes(resources), captured, Noted(log, from))
    ensures Prefetched(resources, startedAt, l, log, from)
  {
    StampedIsUndisturbed(log, from, captured, startedAt, l, m);
    forall n | n in ResourceNotes(resources) ensures n.key in ResourceKeys(resources) {
    }
  }

  // ----- Work that can be called off -----

  /** The loads that the router can still take back: the live ones by id, and the one of the
      deferred batch. */
  datatype Registry = Registry(live: map<nat, map<string, nat>>, batch: Option<nat>, captured: map<string, nat>)

  /** A load leaves the registry only by ending or by losing its keys. */
  ghost predicate Handed(before: Registry, after: Registry, ended: set<nat>, l: Ledger) {
    match before
    case Registry(live, batch, captured) =>
      && (forall id :: id in live && id !in ended ==>
            (id in after.live && after.live[id] == live[id]) || Outdated(live[id], l))
      && (batch.Some? && batch.value !in ended ==>
            (after.batch == batch && after.captured == captured) || Outdated(captured, l))
  }

  lemma HandedOn(r: Registry, s: Registry, t: Registry, ended: set<nat>, more: set<nat>, l: Ledger, m: Ledger)
    requires Handed(r, s, ended, l) && Later(l, m) && Handed(s, t, more, m) && ended <= more
    ensures Handed(r, t, more, m)
  {
    forall id | id in r.live && id !in more && Outdated(r.live[id], l) ensures Outdated(r.live[id], m) {
      OutdatedForGood(r.live[id], l, m);
    }
    if Outdated(r.captured, l) {
      OutdatedForGood(r.captured, l, m);
    }
  }

  lemma HandedSame(r: Registry, ended: set<nat>, l: Ledger)
    ensures Handed(r, r, ended, l)
  {
  }

  /** All these loads have lost their keys, except possibly those in `rest`. */
  ghost predicate LostBut(live: map<nat, map<string, nat>>, rest: set<nat>, l: Ledger) {
    match l
    case Ledger(_, _, _) => forall id :: id in live && id !in rest ==> Outdated(live[id], l)
  }

  lemma LostButStep(live: map<nat, map<string, nat>>, rest: set<nat>, id: nat, l: Ledger, m: Ledger)
    requires LostBut(live, rest, l) && Later(l, m)
    requires id in live ==> Outdated(live[id], m)
    ensures LostBut(live, rest - {id}, m)
  {
    forall other | other in live && other !in rest ensures Outdated(live[other], m) {
      OutdatedForGood(live[other], l, m);
    }
  }

  lemma HandedMore(r: Registry, id: nat, captured: map<string, nat>, ended: set<nat>, l: Ledger)
    requires id !in r.live
    ensures Handed(r, r.(live := r.live[id := captured]), ended, l)
  {
  }

  lemma HandedLess(r: Registry, id: nat, ended: set<nat>, l: Ledger)
    requires id in ended
    ensures Handed(r, r.(live := r.live - {id}), ended, l)
  {
  }

  lemma HandedLost(r: Registry, ended: set<nat>, l: Ledger)
    requires LostBut(r.live, {}, l)
    ensures Handed(r, r.(live := map[]), ended, l)
  {
  }

  lemma HandedBatch(r: Registry, batch: Option<nat>, captured: map<string, nat>, ended: set<nat>, l: Ledger)
    requires r.batch.None?
    ensures Handed(r, r.(batch := batch, captured := captured), ended, l)
  {
  }

  lemma HandedDropped(r: Registry, ended: set<nat>, l: Ledger)
    requires r.batch.Some? && r.batch.value !in ended ==> Outdated(r.captured, l)
    ensures Handed(r, r.(batch := None), ended, l)
  {
  }

  // ----- Steps -----

  /** What the protocol depends on at one moment. */
  datatype Moment = Moment(
    visits: nat, current: Option<nat>, generation: nat, loads: nat, ended: set<nat>,
    log: seq<Write>, registry: Registry, ledger: Ledger)

  /** What every step guarantees: identifiers and generations only grow, writes are only
      added, and within one generation the epochs move by bumps alone and no load that could
      be called off is forgotten. */
  ghost predicate Forward(a: Moment, b: Moment) {
    match a
    case Moment(visits, current, generation, loads, ended, log, registry, ledger) =>
      && visits <= b.visits && generation <= b.generation && loads <= b.loads
      && (b.current == current || b.current.None? || b.current.value > visits)
      && ended <= b.ended && log <= b.log
      && (generation == b.generation ==> Later(ledger, b.ledger) && Handed(registry, b.registry, b.ended, b.ledger))
  }

  lemma ForwardSame(a: Moment)
    requires Sound(a.ledger)
    ensures Forward(a, a)
  {
    LaterSame(a.ledger);
  }

  lemma ForwardChain(a: Moment, b: Moment, c: Moment)
    requires Forward(a, b) && Forward(b, c)
    ensures Forward(a, c)
  {
    if a.generation == c.generation {
      LaterChain(a.ledger, b.ledger, c.ledger);
      HandedOn(a.registry, b.registry, c.registry, b.ended, c.ended, b.ledger, c.ledger);
    }
  }

  /** Moving epochs and writing is a step. */
  lemma ForwardWrites(a: Moment, b: Moment)
    requires Later(a.ledger, b.ledger) && a.log <= b.log && b == a.(log := b.log, ledger := b.ledger)
    ensures Forward(a, b)
  {
    HandedSame(a.registry, a.ended, b.ledger);
  }

  /** So is taking loads off the registry when that is allowed. */
  lemma ForwardReleases(a: Moment, b: Moment)
    requires Sound(a.ledger) && b == a.(registry := b.registry) && Handed(a.registry, b.registry, a.ended, a.ledger)
    ensures Forward(a, b)
  {
    LaterSame(a.ledger);
  }

  /** So is starting a visit or giving one up. */
  lemma ForwardNavigates(a: Moment, b: Moment)
    requires Sound(a.ledger) && b == a.(visits := b.visits, current := b.current) && a.visits <= b.visits
    requires b.current == a.current || b.current.None? || b.current.value > a.visits
    ensures Forward(a, b)
  {
    ForwardSame(a);
  }

  /** A new generation owes nothing to the loads of the old one. */
  lemma ForwardRestarts(a: Moment, b: Moment)
    requires a.generation < b.generation && a.visits <= b.visits && a.loads <= b.loads
    requires a.ended <= b.ended && a.log <= b.log && b.current == a.current
    ensures Forward(a, b)
  {
  }

  // ----- Sweeps over keys -----

  /** How a sweep treats its keys: it patches what is held, it also drops what is not, or it
      invalidates. */
  datatype Manner = Patching | PatchingOrDropping | Invalidating

  predicate Allows(manner: Manner, kind: WriteKind) {
    match manner
    case Patching => kind.ValueWrite?
    case PatchingOrDropping => kind.ValueWrite? || kind.InvalidationWrite?
    case Invalidating => kind.InvalidationWrite?
  }

  /** At most one write to `key`, of an allowed kind; none only where patching alone. */
  ghost predicate MarksOne(key: string, manner: Manner, before: seq<Write>, after: seq<Write>) {
    || (after == before && manner == Patching)
    || (|after| == |before| + 1 && before <= after && after[|before|].key == key
        && Allows(manner, after[|before|].kind))
  }

  /** The writes from position `from` on are of an allowed kind and, unless patching alone, reach
      all of these keys. */
  ghost predicate Marks(keys: seq<string>, manner: Manner, log: seq<Write>, from: nat) {
    match manner
    case _ =>
      && from <= |log|
      && (forall i :: from <= i < |log| ==> Allows(manner, log[i].kind))
      && (manner != Patching ==> forall k :: k in keys ==> k in Wrote(log, from))
  }

  lemma MarksMore(keys: seq<string>, i: nat, manner: Manner, log: seq<Write>, more: seq<Write>, from: nat)
    requires i < |keys| && Marks(keys[..i], manner, log, from) && MarksOne(keys[i], manner, log, more)
    ensures Marks(keys[..i + 1], manner, more, from)
  {
    assert keys[..i + 1] == keys[..i] + [keys[i]];
    if more != log {
      assert more[..|more| - 1] == log;
    }
  }

  /** All these keys were given a new epoch with authority and treated in this manner; nothing but
      epochs and writes changed. */
  ghost predicate Swept(keys: seq<string>, manner: Manner, a: Moment, b: Moment) {
    match a
    case Moment(_, _, _, _, _, log, _, ledger) =>
      && Later(ledger, b.ledger) && ledger.counter <= b.ledger.counter
      && log <= b.log && b == a.(log := b.log, ledger := b.ledger)
      && Moved(keys, ledger.counter, b.ledger) && Marks(keys, manner, b.log, |log|)
  }

  lemma SweptNone(manner: Manner, a: Moment)
    requires Sound(a.ledger)
    ensures Swept([], manner, a, a)
  {
    LaterSame(a.ledger);
  }

  lemma SweptMore(keys: seq<string>, i: nat, manner: Manner, a: Moment, b: Moment, c: Moment)
    requires i < |keys| && Swept(keys[..i], manner, a, b) && c == b.(log := c.log, ledger := c.ledger)
    requires RuledBy(b.ledger, c.ledger, keys[i], c.ledger.counter) && MarksOne(keys[i], manner, b.log, c.log)
    ensures Swept(keys[..i + 1], manner, a, c)
  {
    LaterChain(a.ledger, b.ledger, c.ledger);
    MovedMore(keys, i, a.ledger.counter, b.ledger, c.ledger);
    MarksMore(keys, i, manner, b.log, c.log, |a.log|);
  }

  lemma SweptAll(keys: seq<string>, manner: Manner, a: Moment, b: Moment)
    requires Swept(keys[..|keys|], manner, a, b)
    ensures Swept(keys, manner, a, b) && Forward(a, b)
  {
    assert keys[..|keys|] == keys;
    ForwardWrites(a, b);
  }

  lemma SweptTwice(keys: seq<string>, more: seq<string>, a: Moment, b: Moment, c: Moment)
    requires Swept(keys, PatchingOrDropping, a, b) && Swept(more, Invalidating, b, c)
    ensures Swept(keys + more, PatchingOrDropping, a, c) && Forward(a, c)
  {
    LaterChain(a.ledger, b.ledger, c.ledger);
    MovedOn(keys, a.ledger.counter, b.ledger, c.ledger);
    WroteSplit(b.log, c.log, |a.log|);
    forall k | k in keys + more ensures k in Wrote(c.log, |a.log|) && (k in keys || k in more) {
    }
    ForwardWrites(a, c);
  }

  // ----- Taking keys back -----

  /** The records of the store and the keys among them that are stale. */
  datatype Shelf = Shelf(records: map<string, RS.Record>, stale: set<string>)

  /** Records that are still there are as they were, and no fresher. */
  ghost predicate Faded(before: Shelf, after: Shelf) {
    match before
    case Shelf(records, stale) =>
      forall k :: k in after.records ==>
        k in records && after.records[k] == records[k] && (k in stale ==> k in after.stale)
  }

  /** Nothing happened but bumps and writes; the records are as they were, and those of the keys
      written are stale. */
  ghost predicate TakenBack(a: Moment, before: Shelf, b: Moment, after: Shelf) {
    match a
    case Moment(_, _, _, _, _, log, _, ledger) =>
      && Later(ledger, b.ledger) && log <= b.log && b == a.(log := b.log, ledger := b.ledger)
      && Faded(before, after)
      && (forall k :: k in Wrote(b.log, |log|) && k in after.records ==> k in after.stale)
  }

  lemma TakenBackNone(a: Moment, shelf: Shelf)
    requires Sound(a.ledger)
    ensures TakenBack(a, shelf, a, shelf)
  {
    LaterSame(a.ledger);
  }

  lemma TakenBackChain(a: Moment, x: Shelf, b: Moment, y: Shelf, c: Moment, z: Shelf)
    requires TakenBack(a, x, b, y) && TakenBack(b, y, c, z)
    ensures TakenBack(a, x, c, z)
  {
    LaterChain(a.ledger, b.ledger, c.ledger);
    WroteSplit(b.log, c.log, |a.log|);
  }

  lemma TakenBackForward(a: Moment, x: Shelf, b: Moment, y: Shelf)
    requires TakenBack(a, x, b, y)
    ensures Forward(a, b)
  {
    ForwardWrites(a, b);
  }

  /** One key taken back by a bump with authority. */
  lemma TakesBack(a: Moment, x: Shelf, b: Moment, y: Shelf, key: string)
    requires RuledBy(a.ledger, b.ledger, key, b.ledger.counter) && b == a.(log := b.log, ledger := b.ledger)
    requires |b.log| == |a.log| + 1 && b.log[..|a.log|] == a.log && b.log[|a.log|].key == key
    requires Faded(x, y) && (key in y.records ==> key in y.stale)
    ensures TakenBack(a, x, b, y)
  {
  }

  // ----- Keys of a request -----

  function ChangedKeys(changes: seq<Change>): (keys: seq<string>)
    ensures |keys| == |changes| && forall i :: 0 <= i < |keys| ==> keys[i] == changes[i].key
  {
    seq(|changes|, i requires 0 <= i < |changes| => changes[i].key)
  }

  /** Events that leave the resources alone. */
  predicate Ignored(event: LiveEvent) {
    match event
    case LivePatch(own, _) => own
    case LiveInvalidation(own, _) => own
    case LiveResync(_) => false
    case LiveOther => true
  }

  function EventKeys(event: LiveEvent): seq<string> {
    match event
    case LivePatch(_, changes) => ChangedKeys(changes)
    case LiveInvalidation(_, keys) => keys
    case LiveResync(keys) => keys
    case LiveOther => []
  }

  function KeysIn(keys: seq<string>, manifest: set<string>): (r: seq<string>)
    ensures forall k :: k in r <==> k in keys && k in manifest
  {
    if keys == [] then []
    else (if keys[0] in manifest then [keys[0]] else []) + KeysIn(keys[1..], manifest)
  }

  function ChangesIn(changes: seq<Change>, manifest: set<string>): (r: seq<Change>)
    ensures forall c :: c in r <==> c in changes && c.key in manifest
  {
    if changes == [] then []
    else (if changes[0].key in manifest then [changes[0]] else []) + ChangesIn(changes[1..], manifest)
  }

  lemma ChangesInKeys(changes: seq<Change>, manifest: set<string>, key: string)
    ensures key in ChangedKeys(ChangesIn(changes, manifest)) <==> key in ChangedKeys(changes) && key in manifest
  {
    if key in ChangedKeys(changes) && key in manifest {
      var i :| 0 <= i < |changes| && ChangedKeys(changes)[i] == key;
      var j :| 0 <= j < |ChangesIn(changes, manifest)| && ChangesIn(changes, manifest)[j] == changes[i];
      assert ChangedKeys(ChangesIn(changes, manifest))[j] == key;
    }
    if key in ChangedKeys(ChangesIn(changes, manifest)) {
      var j :| 0 <= j < |ChangesIn(changes, manifest)| && ChangedKeys(ChangesIn(changes, manifest))[j] == key;
      var i :| 0 <= i < |changes| && changes[i] == ChangesIn(changes, manifest)[j];
      assert ChangedKeys(changes)[i] == key;
    }
  }

  /** The captured keys are exactly these. */
  ghost predicate Covers(captured: map<string, nat>, keys: seq<string>) {
    forall k :: k in captured <==> k in keys
  }

  lemma CoversMore(captured: map<string, nat>, more: map<string, nat>, keys: seq<string>, i: nat)
    requires i < |keys| && Covers(captured, keys[..i]) && more.Keys == captured.Keys + {keys[i]}
    ensures Covers(more, keys[..i + 1])
  {
    assert keys[..i + 1] == keys[..i] + [keys[i]];
  }

  lemma CoversAll(captured: map<string, nat>, keys: seq<string>)
    requires Covers(captured, keys[..|keys|])
    ensures Covers(captured, keys)
  {
    assert keys[..|keys|] == keys;
  }

  /** The keys of a request, each once. */
  function Distinct(keys: seq<string>): (r: seq<string>)
    ensures forall k :: k in r <==> k in keys
  {
    if keys == [] then []
    else
      var rest := Distinct(keys[..|keys| - 1]);
      var last := keys[|keys| - 1];
      if last in rest then rest else rest + [last]
  }

  function NonEmpty(keys: seq<string>): (r: seq<string>)
    ensures forall k :: k in r <==> k in keys && k != ""
  {
    if keys == [] then []
    else if keys[0] == "" then NonEmpty(keys[1..])
    else [keys[0]] + NonEmpty(keys[1..])
  }

  function Requested(keys: seq<string>): (r: seq<string>)
    ensures forall k :: k in r <==> k in keys && k != ""
  {
    Distinct(NonEmpty(keys))
  }
}
