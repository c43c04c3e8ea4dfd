/** The bounded history of resource epochs: it forgets keys, never their authority. */
module ResourceEpochs {
  import opened Json
  import opened Recency

  const MaxEntries: nat := 1024

  datatype Epoch = Epoch(epoch: nat, authoritative: nat, conservative: bool)

  /** The map as a value: its entries in insertion order and the two eviction watermarks. */
  datatype Table = Table(order: seq<string>, entries: map<string, Epoch>, evicted: nat, evictedAuthoritative: nat)

  const NoEpochs := Table([], map[], 0, 0)

  ghost predicate Listed(t: Table) {
    NoDuplicates(t.order) && forall k :: k in t.order <==> k in t.entries
  }

  ghost predicate WellFormed(t: Table) {
    Listed(t) && |t.order| <= MaxEntries
  }

  function Get(t: Table, key: string): Option<Epoch> {
    if key in t.entries then Some(t.entries[key])
    else if t.evicted == 0 then None
    else Some(Epoch(t.evicted, t.evictedAuthoritative, true))
  }

  function EpochOf(t: Table, key: string): nat {
    var e := Get(t, key);
    if e.Some? then e.value.epoch else 0
  }

  function AuthorityOf(t: Table, key: string): nat {
    var e := Get(t, key);
    if e.Some? then e.value.authoritative else 0
  }

  predicate IsConservative(t: Table, key: string) {
    Get(t, key).Some? && Get(t, key).value.conservative
  }

  function Max(a: nat, b: nat): nat {
    if a < b then b else a
  }

  /** Inserts or replaces an entry as the newest one, without evicting. */
  function Insert(t: Table, key: string, e: Epoch): Table {
    t.(order := Touched(t.order, key), entries := t.entries[key := e])
  }

  /** Drops the oldest entry into the watermarks. */
  function EvictOne(t: Table): Table
    requires t.order != [] && t.order[0] in t.entries
  {
    var e := t.entries[t.order[0]];
    Table(t.order[1..], t.entries - {t.order[0]},
          Max(t.evicted, e.epoch), Max(t.evictedAuthoritative, e.authoritative))
  }

  function Put(t: Table, key: string, e: Epoch): Table
    requires WellFormed(t)
  {
    var next := Insert(t, key, e);
    if |next.order| > MaxEntries then EvictOne(next) else next
  }

  /** The next epoch of a key. A speculative one keeps the authority known so far, with its
      uncertainty. */
  function NextEpoch(t: Table, key: string, epoch: nat, speculative: bool): Epoch {
    if speculative then Epoch(epoch, AuthorityOf(t, key), IsConservative(t, key))
    else Epoch(epoch, epoch, false)
  }

  function Bump(t: Table, key: string, epoch: nat, speculative: bool): Table
    requires WellFormed(t)
  {
    Put(t, key, NextEpoch(t, key, epoch, speculative))
  }

  lemma PutWellFormed(t: Table, key: string, e: Epoch)
    requires WellFormed(t)
    ensures WellFormed(Put(t, key, e)) && key in Put(t, key, e).entries && Put(t, key, e).entries[key] == e
    ensures forall k :: k != key && k in Put(t, key, e).entries ==>
              k in t.entries && Put(t, key, e).entries[k] == t.entries[k]
  {
    TouchedUnique(t.order, key);
    TouchedSize(t.order, key);
    var next := Insert(t, key, e);
    if |next.order| > MaxEntries {
      assert next.order[0] != key by {
        assert next.order == Without(t.order, key) + [key];
        assert next.order[0] in Without(t.order, key);
      }
    }
  }

  // ----- The unbounded history -----

  datatype Exact = Exact(epoch: nat, authoritative: nat)

  type History = map<string, Exact>

  function ExactOf(h: History, key: string): Exact {
    if key in h then h[key] else Exact(0, 0)
  }

  function BumpExact(h: History, key: string, epoch: nat, speculative: bool): History {
    h[key := Exact(epoch, if speculative then ExactOf(h, key).authoritative else epoch)]
  }

  /** The bounded table stands for the history `h`; `counter` is the last epoch given out. */
  ghost predicate Refines(t: Table, h: History, counter: nat) {
    Mirrors(t, h, counter) && |t.order| <= MaxEntries
  }

  ghost predicate Mirrors(t: Table, h: History, counter: nat) {
    && Listed(t)
    && t.evictedAuthoritative <= t.evicted <= counter
    && (forall k :: k in h ==> 1 <= h[k].epoch <= counter && h[k].authoritative <= h[k].epoch)
    && (forall k :: k in t.entries ==> k in h && EntryRefines(t.entries[k], h[k]))
    && (forall k :: k in h && k !in t.entries ==>
                      h[k].epoch <= t.evicted && h[k].authoritative <= t.evictedAuthoritative)
  }

  ghost predicate EntryRefines(e: Epoch, x: Exact) {
    && e.epoch == x.epoch
    && x.authoritative <= e.authoritative <= e.epoch
    && (!e.conservative ==> e.authoritative == x.authoritative)
  }

  /** What a reader of the bounded table may conclude about the exact history. */
  lemma RefinesMeans(t: Table, h: History, counter: nat, key: string)
    requires Refines(t, h, counter)
    ensures ExactOf(h, key).epoch <= EpochOf(t, key) <= counter
    ensures ExactOf(h, key).authoritative <= AuthorityOf(t, key)
    ensures !IsConservative(t, key) ==>
              ExactOf(h, key) == Exact(EpochOf(t, key), AuthorityOf(t, key))
  {
  }

  lemma InsertMirrors(t: Table, h: History, counter: nat, key: string, speculative: bool)
    requires Refines(t, h, counter)
    ensures Mirrors(Insert(t, key, NextEpoch(t, key, counter + 1, speculative)),
                    BumpExact(h, key, counter + 1, speculative), counter + 1)
  {
    RefinesMeans(t, h, counter, key);
    TouchedUnique(t.order, key);
  }

  lemma EvictMirrors(t: Table, h: History, counter: nat)
    requires Mirrors(t, h, counter) && t.order != []
    ensures Mirrors(EvictOne(t), h, counter)
  {
  }

  /** One bump keeps the bounded table a refinement of the unbounded history. */
  lemma BumpRefines(t: Table, h: History, counter: nat, key: string, speculative: bool)
    requires Refines(t, h, counter)
    ensures Refines(Bump(t, key, counter + 1, speculative), BumpExact(h, key, counter + 1, speculative), counter + 1)
    ensures Get(Bump(t, key, counter + 1, speculative), key) == Some(NextEpoch(t, key, counter + 1, speculative))
  {
    var e := NextEpoch(t, key, counter + 1, speculative);
    var h' := BumpExact(h, key, counter + 1, speculative);
    InsertMirrors(t, h, counter, key, speculative);
    PutWellFormed(t, key, e);
    if |Insert(t, key, e).order| > MaxEntries {
      EvictMirrors(Insert(t, key, e), h', counter + 1);
    }
  }

  /** Epochs read from the table never go down between two clears, evictions included. */
  lemma BumpMonotone(t: Table, h: History, counter: nat, key: string, speculative: bool, k: string)
    requires Refines(t, h, counter)
    ensures EpochOf(t, k) <= EpochOf(Bump(t, key, counter + 1, speculative), k)
  {
    RefinesMeans(t, h, counter, k);
    if k == key {
      BumpRefines(t, h, counter, key, speculative);
    } else {
      PutMonotone(t, h, counter, key, NextEpoch(t, key, counter + 1, speculative), k);
    }
  }

  lemma PutMonotone(t: Table, h: History, counter: nat, key: string, e: Epoch, k: string)
    requires Refines(t, h, counter) && k != key
    ensures EpochOf(t, k) <= EpochOf(Put(t, key, e), k)
  {
    PutWellFormed(t, key, e);
  }

  // ----- Runs of bumps -----

  datatype Bumped = Bumped(key: string, speculative: bool)

  /** The bounded table, the history it stands for and the last epoch given out. */
  datatype Ledger = Ledger(table: Table, history: History, counter: nat)

  ghost predicate Sound(l: Ledger) {
    match l
    case Ledger(table, history, counter) => Refines(table, history, counter)
  }

  ghost function Step(l: Ledger, b: Bumped): (r: Ledger)
    requires Sound(l)
    ensures Sound(r) && r.counter == l.counter + 1
  {
    BumpRefines(l.table, l.history, l.counter, b.key, b.speculative);
    Ledger(Bump(l.table, b.key, l.counter + 1, b.speculative),
           BumpExact(l.history, b.key, l.counter + 1, b.speculative), l.counter + 1)
  }

  lemma StepTable(l: Ledger, b: Bumped)
    requires Sound(l)
    ensures WellFormed(l.table)
    ensures Step(l, b).table == Put(l.table, b.key, NextEpoch(l.table, b.key, l.counter + 1, b.speculative))
  {
    SoundIsWellFormed(l);
    assert Step(l, b).table == Bump(l.table, b.key, l.counter + 1, b.speculative);
  }

  lemma SoundIsWellFormed(l: Ledger)
    requires Sound(l)
    ensures WellFormed(l.table)
  {
  }

  ghost function Run(l: Ledger, run: seq<Bumped>): (r: Ledger)
    requires Sound(l)
    ensures Sound(r)
    decreases |run|
  {
    if run == [] then l else Run(Step(l, run[0]), run[1..])
  }

  /** Every run from a cleared table: each key reads an epoch and an authority at least as large
      as the unbounded history holds, and exactly those unless the result is flagged. */
  lemma RunsRefine(counter: nat, run: seq<Bumped>, key: string)
    ensures Sound(Ledger(NoEpochs, map[], counter))
    ensures var r := Run(Ledger(NoEpochs, map[], counter), run);
            && ExactOf(r.history, key).epoch <= EpochOf(r.table, key)
            && ExactOf(r.history, key).authoritative <= AuthorityOf(r.table, key)
            && (!IsConservative(r.table, key) ==>
                  ExactOf(r.history, key) == Exact(EpochOf(r.table, key), AuthorityOf(r.table, key)))
  {
    var r := Run(Ledger(NoEpochs, map[], counter), run);
    RefinesMeans(r.table, r.history, r.counter, key);
  }

  lemma StepFacts(l: Ledger, b: Bumped, key: string)
    requires Sound(l)
    ensures EpochOf(l.table, key) <= EpochOf(Step(l, b).table, key)
    ensures b.key == key ==> EpochOf(Step(l, b).table, key) == l.counter + 1
    ensures EpochOf(l.table, key) <= l.counter
    ensures b.key != key ==> ExactOf(Step(l, b).history, key) == ExactOf(l.history, key)
  {
    BumpMonotone(l.table, l.history, l.counter, b.key, b.speculative, key);
    BumpRefines(l.table, l.history, l.counter, b.key, b.speculative);
    RefinesMeans(l.table, l.history, l.counter, key);
  }

  lemma {:induction false} EpochGrows(l: Ledger, run: seq<Bumped>, key: string)
    requires Sound(l)
    ensures EpochOf(l.table, key) <= EpochOf(Run(l, run).table, key)
    decreases |run|
  {
    if run != [] {
      StepFacts(l, run[0], key);
      EpochGrows(Step(l, run[0]), run[1..], key);
    }
  }

  ghost predicate Mentions(run: seq<Bumped>, key: string) {
    run != [] && (run[0].key == key || Mentions(run[1..], key))
  }

  /** A bump of `key` moves its epoch beyond every epoch given out before, for good: whoever
      still reads an old epoch knows that the key was left alone, even when the entry is gone
      and only the watermark was compared. */
  lemma {:induction false} SameEpochMeansUntouched(l: Ledger, run: seq<Bumped>, key: string, epoch: nat)
    requires Sound(l) && epoch <= l.counter
    requires EpochOf(Run(l, run).table, key) == epoch
    ensures !Mentions(run, key)
    decreases |run|
  {
    if run != [] {
      var next := Step(l, run[0]);
      StepFacts(l, run[0], key);
      EpochGrows(next, run[1..], key);
      SameEpochMeansUntouched(next, run[1..], key, epoch);
    }
  }

  // ----- What happens between two moments -----

  /** `m` is reached from `l` by some run of bumps. */
  ghost predicate Later(l: Ledger, m: Ledger) {
    Sound(l) && exists run :: m == Run(l, run)
  }

  lemma LaterSame(l: Ledger)
    requires Sound(l)
    ensures Later(l, l)
  {
    assert l == Run(l, []);
  }

  lemma {:induction false} RunConcat(l: Ledger, x: seq<Bumped>, y: seq<Bumped>)
    requires Sound(l)
    ensures Run(Run(l, x), y) == Run(l, x + y)
    decreases |x|
  {
    if x == [] {
      assert x + y == y;
    } else {
      assert (x + y)[1..] == x[1..] + y;
      RunConcat(Step(l, x[0]), x[1..], y);
    }
  }

  lemma LaterChain(l: Ledger, m: Ledger, n: Ledger)
    requires Later(l, m) && Later(m, n)
    ensures Later(l, n)
  {
    var x :| m == Run(l, x);
    var y :| n == Run(m, y);
    RunConcat(l, x, y);
    LaterBy(l, n, x + y);
  }

  lemma LaterBy(l: Ledger, m: Ledger, run: seq<Bumped>)
    requires Sound(l) && m == Run(l, run)
    ensures Later(l, m)
  {
  }

  lemma LaterStep(l: Ledger, m: Ledger, b: Bumped)
    requires Later(l, m)
    ensures Later(l, Step(m, b))
  {
    assert Step(m, b) == Run(Step(m, b), []) == Run(m, [b]);
    LaterChain(l, m, Step(m, b));
  }

  lemma LaterReadsMore(l: Ledger, m: Ledger, key: string)
    requires Later(l, m)
    ensures EpochOf(l.table, key) <= EpochOf(m.table, key)
    ensures l.counter <= m.counter && Sound(m)
  {
    var run :| m == Run(l, run);
    EpochGrows(l, run, key);
    CounterGrows(l, run);
  }

  lemma LaterKnowsMore(l: Ledger, m: Ledger, key: string)
    requires Later(l, m) && key in l.history
    ensures key in m.history && l.history[key].epoch <= m.history[key].epoch
    ensures l.history[key].authoritative <= m.history[key].authoritative
  {
    var run :| m == Run(l, run);
    HistoryGrows(l, run, key);
  }

  lemma {:induction false} HistoryGrows(l: Ledger, run: seq<Bumped>, key: string)
    requires Sound(l) && key in l.history
    ensures key in Run(l, run).history && l.history[key].epoch <= Run(l, run).history[key].epoch
    ensures l.history[key].authoritative <= Run(l, run).history[key].authoritative
    decreases |run|
  {
    if run != [] {
      assert l.history[key].authoritative <= l.history[key].epoch <= l.counter;
      HistoryGrows(Step(l, run[0]), run[1..], key);
    }
  }

  lemma {:induction false} CounterGrows(l: Ledger, run: seq<Bumped>)
    requires Sound(l)
    ensures Run(l, run).counter == l.counter + |run|
    decreases |run|
  {
    if run != [] {
      CounterGrows(Step(l, run[0]), run[1..]);
    }
  }

  // ----- Speculation -----

  /** No authority above `bound` is held, neither by an entry nor by the watermark. */
  ghost predicate AuthorityWithin(t: Table, bound: nat) {
    t.evictedAuthoritative <= bound && forall k :: k in t.entries ==> t.entries[k].authoritative <= bound
  }

  lemma SpeculativeStep(l: Ledger, b: Bumped, bound: nat)
    requires Sound(l) && b.speculative && AuthorityWithin(l.table, bound)
    ensures AuthorityWithin(Step(l, b).table, bound)
  {
    TouchedUnique(l.table.order, b.key);
  }

  ghost predicate AllSpeculative(run: seq<Bumped>) {
    run == [] || (run[0].speculative && AllSpeculative(run[1..]))
  }

  lemma {:induction false} SpeculationKeepsAuthority(l: Ledger, run: seq<Bumped>, bound: nat)
    requires Sound(l) && AuthorityWithin(l.table, bound) && AllSpeculative(run)
    ensures AuthorityWithin(Run(l, run).table, bound)
    decreases |run|
  {
    if run != [] {
      SpeculativeStep(l, run[0], bound);
      SpeculationKeepsAuthority(Step(l, run[0]), run[1..], bound);
    }
  }

  /** Speculative bumps alone, in any number and with any evictions, raise no authority above
      the epoch at which they began: they never make a key ineligible for a navigation. */
  lemma SpeculationNeverVetoes(l: Ledger, run: seq<Bumped>, key: string)
    requires Sound(l) && AllSpeculative(run)
    ensures AuthorityOf(Run(l, run).table, key) <= l.counter
  {
    SpeculationKeepsAuthority(l, run, l.counter);
  }

  /** `m` is reached from `l` by speculative bumps alone. */
  ghost predicate Speculated(l: Ledger, m: Ledger) {
    Sound(l) && exists run :: AllSpeculative(run) && m == Run(l, run)
  }

  lemma SpeculatedSame(l: Ledger)
    requires Sound(l)
    ensures Speculated(l, l)
  {
    assert AllSpeculative([]) && l == Run(l, []);
  }

  lemma {:induction false} SpeculativeConcat(x: seq<Bumped>, y: seq<Bumped>)
    requires AllSpeculative(x) && AllSpeculative(y)
    ensures AllSpeculative(x + y)
  {
    if x == [] {
      assert x + y == y;
    } else {
      SpeculativeConcat(x[1..], y);
      assert (x + y)[1..] == x[1..] + y;
    }
  }

  lemma SpeculatedStep(l: Ledger, m: Ledger, key: string)
    requires Speculated(l, m)
    ensures Speculated(l, Step(m, Bumped(key, true)))
  {
    var b := Bumped(key, true);
    var run :| AllSpeculative(run) && m == Run(l, run);
    RunOne(m, b);
    RunConcat(l, run, [b]);
    SpeculativeConcat(run, [b]);
  }

  lemma SpeculatedChain(l: Ledger, m: Ledger, n: Ledger)
    requires Speculated(l, m) && Speculated(m, n)
    ensures Speculated(l, n)
  {
    var x :| AllSpeculative(x) && m == Run(l, x);
    var y :| AllSpeculative(y) && n == Run(m, y);
    SpeculatedTwice(l, x, y);
  }

  lemma SpeculatedTwice(l: Ledger, x: seq<Bumped>, y: seq<Bumped>)
    requires Sound(l) && AllSpeculative(x) && AllSpeculative(y)
    ensures Speculated(l, Run(Run(l, x), y))
  {
    var run := x + y;
    RunConcat(l, x, y);
    SpeculativeConcat(x, y);
    assert AllSpeculative(run) && Run(Run(l, x), y) == Run(l, run);
  }

  lemma RunOne(m: Ledger, b: Bumped)
    requires Sound(m)
    ensures Step(m, b) == Run(m, [b]) && (b.speculative ==> AllSpeculative([b]))
  {
    assert Step(m, b) == Run(Step(m, b), []) == Run(m, [b]);
    assert [b][1..] == [];
  }

  // ----- The map itself -----

  /** A `Map` ordered by insertion whose `set` re-inserts and evicts. */
  class ResourceEpochMap {
    var order: seq<string>
    var entries: map<string, Epoch>
    var evictedEpoch: nat
    var evictedAuthoritativeEpoch: nat
    /** The map as a value, with the unbounded history since the last clear. */
    ghost var ledger: Ledger

    constructor ()
      ensures Valid() && ledger == Ledger(NoEpochs, map[], 0)
    {
      order, entries, evictedEpoch, evictedAuthoritativeEpoch := [], map[], 0, 0;
      ledger := Ledger(NoEpochs, map[], 0);
    }

    ghost function Contents(): Table
      reads this
    {
      Table(order, entries, evictedEpoch, evictedAuthoritativeEpoch)
    }

    ghost predicate Valid()
      reads this
    {
      Sound(ledger) && ledger.table == Contents()
    }

    method Lookup(key: string) returns (e: Option<Epoch>)
      requires Valid()
      ensures e == Get(ledger.table, key)
    {
      if key in entries {
        return Some(entries[key]);
      }
      if evictedEpoch == 0 {
        return None;
      }
      return Some(Epoch(evictedEpoch, evictedAuthoritativeEpoch, true));
    }

    method Store(key: string, e: Epoch)
      requires WellFormed(Contents())
      modifies this`order, this`entries, this`evictedEpoch, this`evictedAuthoritativeEpoch
      ensures Contents() == Put(old(Contents()), key, e)
    {
      PutWellFormed(Contents(), key, e);
      TouchedUnique(order, key);
      TouchedSize(order, key);
      order := Touched(order, key);
      entries := entries[key := e];
      ghost var inserted := Contents();
      while |order| > MaxEntries
        invariant Listed(Contents()) && |order| <= MaxEntries + 1
        invariant Contents() == if |inserted.order| > MaxEntries && |order| <= MaxEntries then EvictOne(inserted)
                                else inserted
      {
        var oldest := order[0];
        var evicted := entries[oldest];
        evictedEpoch := Max(evictedEpoch, evicted.epoch);
        evictedAuthoritativeEpoch := Max(evictedAuthoritativeEpoch, evicted.authoritative);
        entries := entries - {oldest};
        order := order[1..];
      }
    }

    /** Gives a key its next epoch, built on what is known of the key. */
    method Advance(key: string, epoch: nat, speculative: bool)
      requires Valid() && epoch == ledger.counter + 1
      modifies this
      ensures Valid() && ledger == Step(old(ledger), Bumped(key, speculative))
    {
      var e := Following(key, epoch, speculative);
      StepTable(ledger, Bumped(key, speculative));
      Store(key, e);
      ledger := Step(ledger, Bumped(key, speculative));
    }

    method Following(key: string, epoch: nat, speculative: bool) returns (e: Epoch)
      requires Valid()
      ensures e == NextEpoch(ledger.table, key, epoch, speculative)
    {
      if !speculative {
        return Epoch(epoch, epoch, false);
      }
      var previous := Lookup(key);
      return Epoch(epoch, if previous.Some? then previous.value.authoritative else 0,
                   previous.Some? && previous.value.conservative);
    }

    method Clear()
      requires Valid()
      modifies this
      ensures Valid() && ledger == Ledger(NoEpochs, map[], old(ledger).counter)
    {
      order, entries, evictedEpoch, evictedAuthoritativeEpoch := [], map[], 0, 0;
      ledger := Ledger(NoEpochs, map[], ledger.counter);
    }
  }
}
