/** What envelopes, and keys set to wait, leave in the store. */
module PageEffects {
  import opened Json
  import opened ResourceEpochs
  import opened RouterProtocol
  import opened StoreEffects
  import RS = ResourceStore

  // ----- Keys that all get the same state -----

  function SetOf(keys: seq<string>): set<string> {
    set k | k in keys
  }

  function Uniform(keys: set<string>, d: Deed): map<string, Deed> {
    map k | k in keys :: d
  }

  /** All these keys wait in the given status, and the last of them is listed. */
  ghost predicate Waiting(keys: seq<string>, status: RS.Status, room: bool, before: RS.Picture, after: RS.Picture) {
    && Brought(Uniform(SetOf(keys), Deed({}, Marked(status, None))), room, before, after)
    && |after.order| <= |before.order| + |keys|
    && (keys != [] ==> RS.See(after, keys[|keys| - 1]) != RS.Empty)
  }

  /** Those of the keys that are listed have the status, and the last one is. */
  ghost predicate InStatus(keys: seq<string>, status: RS.Status, p: RS.Picture) {
    && (forall k :: k in keys && RS.See(p, k) != RS.Empty ==>
                      RS.See(p, k).state.Some? && RS.See(p, k).state.value.status == status)
    && (keys != [] ==> RS.See(p, keys[|keys| - 1]) != RS.Empty)
  }

  lemma WaitingNone(status: RS.Status, room: bool, p: RS.Picture)
    ensures Waiting([], status, room, p, p)
  {
  }

  lemma WaitingMore(keys: seq<string>, i: nat, status: RS.Status, room: bool, max: nat, p: RS.Picture, q: RS.Picture,
                    r: RS.Picture)
    requires i < |keys| && Waiting(keys[..i], status, room, p, q)
    requires room ==> |p.order| + |keys| <= max
    requires Does(keys[i], Deed({}, Marked(status, None)), max, q, r)
    ensures Waiting(keys[..i + 1], status, room, p, r)
  {
    var key, d := keys[i], Deed({}, Marked(status, None));
    assert keys[..i + 1] == keys[..i] + [key];
    BroughtMore(Uniform(SetOf(keys[..i]), d), room, max, p, q, r, key, d);
    assert d.records + d.records == d.records;
    assert More(Uniform(SetOf(keys[..i]), d), key, d) == Uniform(SetOf(keys[..i + 1]), d);
  }

  // ----- Envelopes -----

  function RecordsFor(resources: seq<Resource>, key: string): set<RS.Record> {
    set r | r in resources && r.key == key :: r.record
  }

  function ErrorFor(errors: seq<Failure>, key: string): RS.ErrorDetail
    requires key in FailureKeys(errors)
  {
    if errors[|errors| - 1].key == key then errors[|errors| - 1].error
    else
      assert forall i :: 0 <= i < |errors| - 1 ==> FailureKeys(errors[..|errors| - 1])[i] == FailureKeys(errors)[i];
      ErrorFor(errors[..|errors| - 1], key)
  }

  /** A deferred key waits, whatever else is said of it; an error shows beside a value. */
  function FaceFor(errors: seq<Failure>, deferred: seq<string>, key: string): Face {
    if key in deferred then Marked(RS.Pending, None)
    else if key in FailureKeys(errors) then Marked(RS.Error, Some(ErrorFor(errors, key)))
    else Fresh
  }

  predicate Mentioned(resources: seq<Resource>, errors: seq<Failure>, deferred: seq<string>, key: string) {
    key in ResourceKeys(resources) || key in FailureKeys(errors) || key in deferred
  }

  function PageDeeds(resources: seq<Resource>, errors: seq<Failure>, deferred: seq<string>, eligible: set<string>)
    : map<string, Deed>
  {
    map k | k in eligible && Mentioned(resources, errors, deferred, k) ::
      Deed(RecordsFor(resources, k), FaceFor(errors, deferred, k))
  }

  /** The store shows the envelope for the eligible keys. */
  ghost predicate Displays(resources: seq<Resource>, errors: seq<Failure>, deferred: seq<string>, eligible: set<string>,
                           room: bool, before: RS.Picture, after: RS.Picture) {
    && Brought(PageDeeds(resources, errors, deferred, eligible), room, before, after)
    && |after.order| <= |before.order| + |resources| + |errors| + |deferred|
  }

  function EnvelopeSize(e: PageEnvelope): nat {
    |e.resources| + |e.errors| + |e.deferred|
  }

  lemma DisplaysNone(eligible: set<string>, room: bool, p: RS.Picture)
    ensures Displays([], [], [], eligible, room, p, p)
  {
    assert PageDeeds([], [], [], eligible) == map[];
  }

  lemma DisplaysResource(resources: seq<Resource>, i: nat, eligible: set<string>, room: bool, max: nat, p: RS.Picture,
                         q: RS.Picture, r: RS.Picture)
    requires i < |resources| && Displays(resources[..i], [], [], eligible, room, p, q)
    requires room ==> |p.order| + |resources| <= max
    requires if resources[i].key in eligible then Does(resources[i].key, Deed({resources[i].record}, Fresh), max, q, r)
             else r == q
    ensures Displays(resources[..i + 1], [], [], eligible, room, p, r)
  {
    var next, was, now := resources[i], resources[..i], resources[..i + 1];
    assert now == was + [next];
    ResourceDeeds(was, next, eligible);
    if next.key in eligible {
      BroughtMore(PageDeeds(was, [], [], eligible), room, max, p, q, r, next.key, Deed({next.record}, Fresh));
    }
  }

  lemma ResourceDeeds(was: seq<Resource>, next: Resource, eligible: set<string>)
    ensures PageDeeds(was + [next], [], [], eligible) ==
            if next.key in eligible then More(PageDeeds(was, [], [], eligible), next.key, Deed({next.record}, Fresh))
            else PageDeeds(was, [], [], eligible)
  {
    var now := was + [next];
    forall k ensures k in ResourceKeys(now) <==> k in ResourceKeys(was) || k == next.key {
      KeysMore(was, next, k);
    }
    forall k
      ensures RecordsFor(now, k) == if k == next.key then RecordsFor(was, k) + {next.record} else RecordsFor(was, k)
    {
    }
    if next.key !in ResourceKeys(was) {
      NoRecords(was, next.key);
      assert RecordsFor(now, next.key) == {next.record};
    }
    assert FailureKeys([]) == [];
  }

  lemma KeysMore(was: seq<Resource>, next: Resource, k: string)
    ensures k in ResourceKeys(was + [next]) <==> k in ResourceKeys(was) || k == next.key
  {
    var now := was + [next];
    assert ResourceKeys(now)[|was|] == next.key;
    assert forall i :: 0 <= i < |was| ==> ResourceKeys(now)[i] == ResourceKeys(was)[i];
  }

  lemma NoRecords(resources: seq<Resource>, k: string)
    requires k !in ResourceKeys(resources)
    ensures RecordsFor(resources, k) == {}
  {
    forall r | r in resources ensures r.key != k {
      var i :| 0 <= i < |resources| && resources[i] == r;
      assert ResourceKeys(resources)[i] == r.key;
    }
  }

  lemma DisplaysError(resources: seq<Resource>, errors: seq<Failure>, i: nat, eligible: set<string>, room: bool,
                      max: nat,
                      p: RS.Picture, q: RS.Picture, r: RS.Picture)
    requires i < |errors| && Displays(resources, errors[..i], [], eligible, room, p, q)
    requires room ==> |p.order| + |resources| + |errors| <= max
    requires if errors[i].key in eligible
             then Does(errors[i].key, Deed({}, Marked(RS.Error, Some(errors[i].error))), max, q, r) else r == q
    ensures Displays(resources, errors[..i + 1], [], eligible, room, p, r)
  {
    var next, was := errors[i], errors[..i];
    assert errors[..i + 1] == was + [next];
    ErrorDeeds(resources, was, next, eligible);
    if next.key in eligible {
      BroughtMore(PageDeeds(resources, was, [], eligible), room, max, p, q, r, next.key,
                  Deed({}, Marked(RS.Error, Some(next.error))));
    }
  }

  lemma ErrorDeeds(resources: seq<Resource>, was: seq<Failure>, next: Failure, eligible: set<string>)
    ensures PageDeeds(resources, was + [next], [], eligible) ==
            if next.key in eligible
            then More(PageDeeds(resources, was, [], eligible), next.key, Deed({}, Marked(RS.Error, Some(next.error))))
            else PageDeeds(resources, was, [], eligible)
  {
    var now := was + [next];
    assert now[..|was|] == was;
    forall k ensures k in FailureKeys(now) <==> k in FailureKeys(was) || k == next.key {
      FailuresMore(was, next, k);
    }
    assert forall k :: RecordsFor(resources, k) + {} == RecordsFor(resources, k);
    if !Mentioned(resources, was, [], next.key) {
      NoRecords(resources, next.key);
    }
  }

  lemma FailuresMore(was: seq<Failure>, next: Failure, k: string)
    ensures k in FailureKeys(was + [next]) <==> k in FailureKeys(was) || k == next.key
  {
    var now := was + [next];
    assert FailureKeys(now)[|was|] == next.key;
    assert forall i :: 0 <= i < |was| ==> FailureKeys(now)[i] == FailureKeys(was)[i];
  }

  lemma DisplaysDeferred(resources: seq<Resource>, errors: seq<Failure>, deferred: seq<string>, i: nat,
                         eligible: set<string>, room: bool, max: nat, p: RS.Picture, q: RS.Picture, r: RS.Picture)
    requires i < |deferred| && Displays(resources, errors, deferred[..i], eligible, room, p, q)
    requires room ==> |p.order| + |resources| + |errors| + |deferred| <= max
    requires if deferred[i] in eligible then Does(deferred[i], Deed({}, Marked(RS.Pending, None)), max, q, r)
              else r == q
    ensures Displays(resources, errors, deferred[..i + 1], eligible, room, p, r)
  {
    var next, was := deferred[i], deferred[..i];
    assert deferred[..i + 1] == was + [next];
    DeferredDeeds(resources, errors, was, next, eligible);
    if next in eligible {
      BroughtMore(PageDeeds(resources, errors, was, eligible), room, max, p, q, r, next,
                  Deed({}, Marked(RS.Pending, None)));
    }
  }

  lemma DeferredDeeds(resources: seq<Resource>, errors: seq<Failure>, was: seq<string>, next: string,
                      eligible: set<string>)
    ensures PageDeeds(resources, errors, was + [next], eligible) ==
            if next in eligible
            then More(PageDeeds(resources, errors, was, eligible), next, Deed({}, Marked(RS.Pending, None)))
            else PageDeeds(resources, errors, was, eligible)
  {
    assert forall k :: RecordsFor(resources, k) + {} == RecordsFor(resources, k);
    if !Mentioned(resources, errors, was, next) {
      NoRecords(resources, next);
    }
  }

  /** The keys of the list without authority later than `startedAt`. */
  ghost function EligibleOf(keys: seq<string>, startedAt: nat, l: Ledger): set<string> {
    match l
    case Ledger(table, _, _) => set k | k in keys && AuthorityOf(table, k) <= startedAt
  }

  /** The keys of the list that read no epoch later than `startedAt`. */
  ghost function QuietOf(keys: seq<string>, startedAt: nat, l: Ledger): set<string> {
    match l
    case Ledger(table, _, _) => set k | k in keys && EpochOf(table, k) <= startedAt
  }
}
