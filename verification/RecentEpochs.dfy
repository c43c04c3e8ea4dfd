/** Which keys the bounded history of epochs still knows exactly. */
module RecentEpochs {
  import opened Json
  import opened Recency
  import opened ResourceEpochs

  function KeysOf(run: seq<Bumped>): set<string> {
    set i | 0 <= i < |run| :: run[i].key
  }

  /** The key is listed, and `keys` are those that were bumped after it. */
  ghost predicate HeldBefore(t: Table, key: string, keys: set<string>) {
    Behind(t.order, key, keys)
  }

  ghost predicate At(order: seq<string>, at: nat, key: string, keys: set<string>)
    requires at < |order|
  {
    order[at] == key && forall k :: k in order[at + 1..] <==> k in keys
  }

  lemma {:induction false} WithoutConcat(x: seq<string>, y: seq<string>, key: string)
    ensures Without(x + y, key) == Without(x, key) + Without(y, key)
  {
    if x == [] {
      assert x + y == y;
    } else {
      assert (x + y)[1..] == x[1..] + y;
      WithoutConcat(x[1..], y, key);
    }
  }

  lemma {:induction false} SuffixUnique(s: seq<string>, from: nat)
    requires NoDuplicates(s) && from <= |s|
    ensures NoDuplicates(s[from..])
  {
    if from > 0 {
      SuffixUnique(s[1..], from - 1);
      assert s[from..] == s[1..][from - 1..];
    }
  }

  /** A use of another key moves this one at most one place forward. */
  lemma TouchedBehind(order: seq<string>, at: nat, key: string, keys: set<string>, other: string) returns (now: nat)
    requires NoDuplicates(order) && at < |order| && At(order, at, key, keys) && other != key
    ensures now < |Touched(order, other)| && At(Touched(order, other), now, key, keys + {other})
    ensures |keys + {other}| == |Touched(order, other)| - 1 - now
  {
    var before, behind := order[..at], order[at + 1..];
    assert order == before + ([key] + behind);
    WithoutConcat(before, [key] + behind, other);
    WithoutConcat([key], behind, other);
    now := |Without(before, other)|;
    var next := Touched(order, other);
    assert next == Without(before, other) + [key] + (Without(behind, other) + [other]);
    assert next[now + 1..] == Without(behind, other) + [other];
    TouchedUnique(order, other);
    SuffixUnique(next, now + 1);
    UniqueSize(next[now + 1..], keys + {other});
  }

  ghost predicate Behind(order: seq<string>, key: string, keys: set<string>) {
    exists at :: 0 <= at < |order| && At(order, at, key, keys)
  }

  /** In a list of at most `n` keys the key is dropped exactly when it was the oldest of a full one. */
  lemma OrderBehind(order: seq<string>, key: string, keys: set<string>, other: string, n: nat)
    requires NoDuplicates(order) && |order| <= n && Behind(order, key, keys) && other != key
    ensures var next := Touched(order, other);
            var kept := if |next| > n then next[1..] else next;
            if |keys + {other}| < n then Behind(kept, key, keys + {other}) else key !in kept
  {
    var at :| 0 <= at < |order| && At(order, at, key, keys);
    var now := TouchedBehind(order, at, key, keys, other);
    var next := Touched(order, other);
    TouchedSize(order, other);
    TouchedUnique(order, other);
    if |next| <= n {
      assert At(next, now, key, keys + {other});
    } else if now > 0 {
      assert next[1..][now..] == next[now + 1..];
      assert At(next[1..], now - 1, key, keys + {other});
    }
  }

  /** A bump of another key: this one is forgotten exactly when it was the oldest of a full list. */
  lemma BumpBehind(l: Ledger, b: Bumped, key: string, keys: set<string>)
    requires Sound(l) && HeldBefore(l.table, key, keys) && key in l.table.entries && b.key != key
    ensures var t := Step(l, b).table;
            if |keys + {b.key}| < MaxEntries
            then HeldBefore(t, key, keys + {b.key}) && key in t.entries && t.entries[key] == l.table.entries[key]
            else key !in t.entries
  {
    var e := NextEpoch(l.table, b.key, l.counter + 1, b.speculative);
    StepTable(l, b);
    PutWellFormed(l.table, b.key, e);
    OrderBehind(l.table.order, key, keys, b.key, MaxEntries);
    var next := Insert(l.table, b.key, e).order;
    assert Put(l.table, b.key, e).order == if |next| > MaxEntries then next[1..] else next;
  }

  lemma MoreKeys(run: seq<Bumped>)
    requires run != []
    ensures KeysOf(run) == {run[0].key} + KeysOf(run[1..])
  {
    forall k | k in KeysOf(run) ensures k in {run[0].key} + KeysOf(run[1..]) {
      var i :| 0 <= i < |run| && run[i].key == k;
      assert i > 0 ==> run[1..][i - 1].key == k;
    }
    forall k | k in KeysOf(run[1..]) ensures k in KeysOf(run) {
      var i :| 0 <= i < |run[1..]| && run[1..][i].key == k;
      assert run[i + 1].key == k;
    }
  }

  lemma {:induction false} StaysForgotten(l: Ledger, run: seq<Bumped>, key: string)
    requires Sound(l) && key !in l.table.entries && key !in KeysOf(run)
    ensures key !in Run(l, run).table.entries
    decreases |run|
  {
    if run != [] {
      MoreKeys(run);
      StepTable(l, run[0]);
      PutWellFormed(l.table, run[0].key, NextEpoch(l.table, run[0].key, l.counter + 1, run[0].speculative));
      StaysForgotten(Step(l, run[0]), run[1..], key);
    }
  }

  lemma {:induction false} LeftAlone(l: Ledger, run: seq<Bumped>, key: string, keys: set<string>)
    requires Sound(l) && HeldBefore(l.table, key, keys) && key in l.table.entries && key !in KeysOf(run)
    requires |keys| < MaxEntries
    ensures if |keys + KeysOf(run)| < MaxEntries
            then key in Run(l, run).table.entries && Run(l, run).table.entries[key] == l.table.entries[key]
            else key !in Run(l, run).table.entries
    decreases |run|
  {
    if run == [] {
      assert keys + KeysOf(run) == keys;
    } else {
      var b := run[0];
      MoreKeys(run);
      BumpBehind(l, b, key, keys);
      assert keys + KeysOf(run) == keys + {b.key} + KeysOf(run[1..]);
      if |keys + {b.key}| < MaxEntries {
        LeftAlone(Step(l, b), run[1..], key, keys + {b.key});
      } else {
        SubsetSize(keys + {b.key}, keys + KeysOf(run));
        StaysForgotten(Step(l, b), run[1..], key);
      }
    }
  }

  /** What is read for a key whose last bump gave it the epoch `last`, when these keys were bumped since. */
  ghost predicate Reads(l: Ledger, b: Bumped, last: nat, since: set<string>) {
    && ExactOf(l.history, b.key).epoch == last
    && if |since| < MaxEntries
       then EpochOf(l.table, b.key) == last
           && (!b.speculative ==> Get(l.table, b.key) == Some(Epoch(last, last, false)))
       else IsConservative(l.table, b.key)
  }

  /** After the last bump of a key it is known exactly until 1024 other keys were bumped: it reads the
      epoch of that bump, unflagged if that had authority. From then on every reading is flagged. */
  lemma {:induction false} RecentAreExact(l: Ledger, run: seq<Bumped>, i: nat)
    requires Sound(l) && i < |run| && run[i].key !in KeysOf(run[i + 1..])
    ensures Reads(Run(l, run), run[i], l.counter + i + 1, KeysOf(run[i + 1..]))
    decreases |run|
  {
    assert Run(l, run) == Run(Step(l, run[0]), run[1..]);
    if i > 0 {
      var rest := run[1..];
      assert rest[i - 1] == run[i] && rest[i..] == run[i + 1..];
      RecentAreExact(Step(l, run[0]), rest, i - 1);
    } else {
      FirstIsExact(l, run[0], run[1..]);
    }
  }

  lemma FirstIsExact(l: Ledger, b: Bumped, rest: seq<Bumped>)
    requires Sound(l) && b.key !in KeysOf(rest)
    ensures Reads(Run(Step(l, b), rest), b, l.counter + 1, KeysOf(rest))
  {
    var next := Step(l, b);
    JustBumped(l, b);
    LeftAlone(next, rest, b.key, {});
    assert {} + KeysOf(rest) == KeysOf(rest);
    HistoryLeftAlone(next, rest, b.key);
    var r := Run(next, rest);
    RefinesMeans(r.table, r.history, r.counter, b.key);
  }

  lemma JustBumped(l: Ledger, b: Bumped)
    requires Sound(l)
    ensures var t := Step(l, b).table;
            && HeldBefore(t, b.key, {}) && b.key in t.entries && t.entries[b.key].epoch == l.counter + 1
            && (!b.speculative ==> t.entries[b.key] == Epoch(l.counter + 1, l.counter + 1, false))
    ensures ExactOf(Step(l, b).history, b.key).epoch == l.counter + 1
  {
    var e := NextEpoch(l.table, b.key, l.counter + 1, b.speculative);
    StepTable(l, b);
    PutWellFormed(l.table, b.key, e);
    var order := Step(l, b).table.order;
    assert Insert(l.table, b.key, e).order == Without(l.table.order, b.key) + [b.key];
    assert At(order, |order| - 1, b.key, {});
  }

  lemma {:induction false} HistoryLeftAlone(l: Ledger, run: seq<Bumped>, key: string)
    requires Sound(l) && key !in KeysOf(run)
    ensures ExactOf(Run(l, run).history, key) == ExactOf(l.history, key)
    decreases |run|
  {
    if run != [] {
      MoreKeys(run);
      StepFacts(l, run[0], key);
      HistoryLeftAlone(Step(l, run[0]), run[1..], key);
    }
  }
}
