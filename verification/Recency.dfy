/** Keys listed in order of use, the oldest first and none twice. */
module Recency {

  predicate NoDuplicates(s: seq<string>) {
    s == [] || (s[0] !in s[1..] && NoDuplicates(s[1..]))
  }

  function Without(s: seq<string>, key: string): (r: seq<string>)
    ensures forall k :: k in r <==> k in s && k != key
    ensures key !in s ==> r == s
  {
    if s == [] then []
    else if s[0] == key then Without(s[1..], key)
    else [s[0]] + Without(s[1..], key)
  }

  /** The list after `key` was used: it comes last. */
  function Touched(s: seq<string>, key: string): (r: seq<string>)
    ensures forall k :: k in r <==> k in s || k == key
  {
    Without(s, key) + [key]
  }

  /** The `n` most recent keys. */
  function Recent(s: seq<string>, n: nat): (r: seq<string>)
    ensures |r| <= n && (|s| <= n ==> r == s) && (|s| >= n ==> |r| == n)
    ensures forall k :: k in r ==> k in s
  {
    if |s| <= n then s else Recent(s[1..], n)
  }

  lemma {:induction false} WithoutUnique(s: seq<string>, key: string)
    requires NoDuplicates(s)
    ensures NoDuplicates(Without(s, key))
    ensures |Without(s, key)| == if key in s then |s| - 1 else |s|
  {
    if s != [] {
      WithoutUnique(s[1..], key);
      if s[0] != key {
        assert Without(s, key)[1..] == Without(s[1..], key);
      }
    }
  }

  lemma {:induction false} AppendUnique(s: seq<string>, key: string)
    requires NoDuplicates(s) && key !in s
    ensures NoDuplicates(s + [key])
  {
    if s != [] {
      AppendUnique(s[1..], key);
      assert (s + [key])[1..] == s[1..] + [key];
    }
  }

  lemma TouchedUnique(s: seq<string>, key: string)
    requires NoDuplicates(s)
    ensures NoDuplicates(Touched(s, key))
  {
    WithoutUnique(s, key);
    AppendUnique(Without(s, key), key);
  }

  lemma {:induction false} RecentUnique(s: seq<string>, n: nat)
    requires NoDuplicates(s)
    ensures NoDuplicates(Recent(s, n))
  {
    if |s| > n {
      RecentUnique(s[1..], n);
    }
  }

  lemma {:induction false} RecentKeepsLast(s: seq<string>, key: string, n: nat)
    requires n >= 1
    ensures key in Recent(s + [key], n)
  {
    if |s + [key]| > n {
      assert (s + [key])[1..] == s[1..] + [key];
      RecentKeepsLast(s[1..], key, n);
    }
  }

  lemma {:induction false} SplitAt(s: seq<string>, key: string, at: nat)
    requires NoDuplicates(s) && at < |s| && s[at] == key
    ensures s[..at] + s[at + 1..] == Without(s, key)
  {
    if at > 0 {
      assert s[1..][at - 1] == key;
      SplitAt(s[1..], key, at - 1);
      assert s[..at] + s[at + 1..] == [s[0]] + (s[1..][..at - 1] + s[1..][at..]);
    }
  }

  lemma {:induction false} UniqueSize(s: seq<string>, keys: set<string>)
    requires NoDuplicates(s) && forall k :: k in s <==> k in keys
    ensures |keys| == |s|
  {
    if s == [] {
      assert keys == {};
    } else {
      forall k ensures k in s[1..] <==> k in keys - {s[0]} {
      }
      UniqueSize(s[1..], keys - {s[0]});
    }
  }

  lemma {:induction false} SubsetSize<T>(small: set<T>, large: set<T>)
    requires small <= large
    ensures |small| <= |large|
  {
    if small != {} {
      var x :| x in small;
      SubsetSize(small - {x}, large - {x});
    }
  }

  lemma TouchedSize(s: seq<string>, key: string)
    requires NoDuplicates(s)
    ensures |Touched(s, key)| == if key in s then |s| else |s| + 1
  {
    WithoutUnique(s, key);
  }

  lemma {:induction false} WithoutLast(s: seq<string>, key: string)
    requires key !in s
    ensures Without(s + [key], key) == s
  {
    if s != [] {
      assert (s + [key])[1..] == s[1..] + [key];
      WithoutLast(s[1..], key);
    }
  }

  /** Touching a key again changes nothing. */
  lemma TouchedTwice(s: seq<string>, key: string)
    ensures Touched(Touched(s, key), key) == Touched(s, key)
  {
    WithoutLast(Without(s, key), key);
  }

  lemma {:induction false} RecentTouched(s: seq<string>, key: string, n: nat)
    requires n >= 1 && key !in s
    ensures Touched(Recent(s + [key], n), key) == Recent(s + [key], n)
  {
    if |s + [key]| > n {
      assert (s + [key])[1..] == s[1..] + [key];
      RecentTouched(s[1..], key, n);
    } else {
      WithoutLast(s, key);
    }
  }

  /** Neither does touching it again after an eviction; and where it was listed, a list within
      the bound needs no eviction. */
  lemma TouchedAgain(s: seq<string>, key: string, n: nat)
    requires NoDuplicates(s) && n >= 1
    ensures Touched(Recent(Touched(s, key), n), key) == Recent(Touched(s, key), n)
    ensures key in s && |s| <= n ==> Recent(Touched(s, key), n) == Touched(s, key)
  {
    RecentTouched(Without(s, key), key, n);
    TouchedSize(s, key);
  }

  /** A use of a key drops at most the oldest of the others, and only from a full list that did not
      have the key. */
  lemma DropsOldest(s: seq<string>, key: string, n: nat, k: string)
    requires NoDuplicates(s) && 1 <= n && |s| <= n && k in s && k != key && k !in Recent(Touched(s, key), n)
    ensures key !in s && |s| == n && k == s[0]
  {
    TouchedSize(s, key);
    if key !in s && |s| == n {
      assert Touched(s, key)[1..] == s[1..] + [key];
      assert s == [s[0]] + s[1..];
    }
  }

  /** Once a listed key was used, another use changes nothing, and giving it up leaves the others. */
  lemma TouchedHeld(s: seq<string>, key: string, n: nat)
    requires NoDuplicates(s) && key in s && |s| <= n
    ensures Recent(Touched(Touched(s, key), key), n) == Touched(s, key)
    ensures Without(Touched(s, key), key) == Without(s, key)
  {
    TouchedTwice(s, key);
    TouchedSize(s, key);
    WithoutLast(Without(s, key), key);
  }

  /** The elements of a set, each listed once. */
  method Listing(keys: set<string>) returns (list: seq<string>)
    ensures NoDuplicates(list) && forall k :: k in list <==> k in keys
  {
    list := [];
    var rest := keys;
    while rest != {}
      invariant rest <= keys && NoDuplicates(list) && forall k :: k in list <==> k in keys && k !in rest
      decreases |rest|
    {
      var key :| key in rest;
      AppendUnique(list, key);
      list, rest := list + [key], rest - {key};
    }
  }
}
