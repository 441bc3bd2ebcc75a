/**
 * First-occurrence de-duplication by a key, the pattern shared by
 * `dict.fromkeys(...)` in the video search and the `seen_urls` set of the
 * search-result extractor.
 */
module Dedup {
  import opened Options

  /** The index of the first element of `s` whose key is `k`, or `|s|`. */
  function FirstIndex<T, K(==)>(s: seq<T>, key: T -> K, k: K): (n: nat)
    ensures n <= |s|
    ensures n < |s| ==> key(s[n]) == k
    ensures forall j :: 0 <= j < n ==> key(s[j]) != k
    decreases |s|
  {
    if |s| == 0 then 0
    else if key(s[0]) == k then 0
    else 1 + FirstIndex(s[1..], key, k)
  }

  /** The first element of `s` whose key is `k`. */
  function FirstWithKey<T, K(==)>(s: seq<T>, key: T -> K, k: K): Option<T> {
    var n := FirstIndex(s, key, k);
    if n < |s| then Some(s[n]) else None
  }

  /** The keys of the elements of `s`. */
  function KeySet<T, K>(s: seq<T>, key: T -> K): set<K> {
    set i | 0 <= i < |s| :: key(s[i])
  }

  /** The elements of `s` whose key is not in `seen` and has not occurred
      earlier in `s`, in order. */
  function FirstByKeyFrom<T, K(==)>(s: seq<T>, key: T -> K, seen: set<K>): (r: seq<T>)
    ensures |r| <= |s|
    ensures forall i :: 0 <= i < |r| ==> key(r[i]) !in seen
    ensures forall i, j :: 0 <= i < j < |r| ==> key(r[i]) != key(r[j])
    decreases |s|
  {
    if |s| == 0 then []
    else if key(s[0]) in seen then FirstByKeyFrom(s[1..], key, seen)
    else [s[0]] + FirstByKeyFrom(s[1..], key, seen + {key(s[0])})
  }

  /** Past a head whose key differs, the first index moves by one. */
  lemma FirstIndexTail<T, K>(s: seq<T>, key: T -> K, k: K)
    requires |s| > 0 && key(s[0]) != k
    ensures FirstIndex(s, key, k) == 1 + FirstIndex(s[1..], key, k)
    ensures FirstWithKey(s, key, k) == FirstWithKey(s[1..], key, k)
  {
  }

  /** Each kept element is the first of `s` with its key. */
  lemma {:induction false} FirstByKeyFromKeepsFirst<T, K>(s: seq<T>, key: T -> K, seen: set<K>, i: nat)
    requires i < |FirstByKeyFrom(s, key, seen)|
    ensures FirstWithKey(s, key, key(FirstByKeyFrom(s, key, seen)[i])) == Some(FirstByKeyFrom(s, key, seen)[i])
    decreases |s|
  {
    var r := FirstByKeyFrom(s, key, seen);
    var k := key(s[0]);
    if k in seen {
      FirstByKeyFromKeepsFirst(s[1..], key, seen, i);
      FirstIndexTail(s, key, key(r[i]));
    } else if i > 0 {
      var rest := FirstByKeyFrom(s[1..], key, seen + {k});
      assert r[i] == rest[i - 1];
      FirstByKeyFromKeepsFirst(s[1..], key, seen + {k}, i - 1);
      FirstIndexTail(s, key, key(r[i]));
    }
  }

  /** Kept elements appear in order of their keys' first occurrence. */
  lemma {:induction false} FirstByKeyFromOrdered<T, K>(s: seq<T>, key: T -> K, seen: set<K>, i: nat, j: nat)
    requires i < j < |FirstByKeyFrom(s, key, seen)|
    ensures FirstIndex(s, key, key(FirstByKeyFrom(s, key, seen)[i])) < FirstIndex(s, key, key(FirstByKeyFrom(s, key, seen)[j]))
    decreases |s|
  {
    var r := FirstByKeyFrom(s, key, seen);
    var k := key(s[0]);
    if k in seen {
      FirstByKeyFromOrdered(s[1..], key, seen, i, j);
      FirstIndexTail(s, key, key(r[i]));
      FirstIndexTail(s, key, key(r[j]));
    } else {
      var rest := FirstByKeyFrom(s[1..], key, seen + {k});
      assert r[j] == rest[j - 1];
      FirstIndexTail(s, key, key(r[j]));
      if i > 0 {
        assert r[i] == rest[i - 1];
        FirstByKeyFromOrdered(s[1..], key, seen + {k}, i - 1, j - 1);
        FirstIndexTail(s, key, key(r[i]));
      }
    }
  }

  /** The keys of a non-empty sequence: its head's key and its tail's keys. */
  lemma KeySetCons<T, K>(s: seq<T>, key: T -> K)
    requires |s| > 0
    ensures KeySet(s, key) == {key(s[0])} + KeySet(s[1..], key)
  {
    forall k | k in KeySet(s, key)
      ensures k in {key(s[0])} + KeySet(s[1..], key)
    {
      var i :| 0 <= i < |s| && key(s[i]) == k;
      if i > 0 {
        assert key(s[1..][i - 1]) == k;
      }
    }
    forall k | k in KeySet(s[1..], key)
      ensures k in KeySet(s, key)
    {
      var i :| 0 <= i < |s| - 1 && key(s[1..][i]) == k;
      assert key(s[i + 1]) == k;
    }
  }

  /** Nothing is lost: the kept keys are exactly the keys of `s` not in `seen`. */
  lemma {:induction false} FirstByKeyFromKeys<T, K>(s: seq<T>, key: T -> K, seen: set<K>)
    ensures KeySet(FirstByKeyFrom(s, key, seen), key) == KeySet(s, key) - seen
    decreases |s|
  {
    if |s| > 0 {
      var k := key(s[0]);
      KeySetCons(s, key);
      if k in seen {
        FirstByKeyFromKeys(s[1..], key, seen);
      } else {
        var r := FirstByKeyFrom(s, key, seen);
        FirstByKeyFromKeys(s[1..], key, seen + {k});
        assert r[0] == s[0] && r[1..] == FirstByKeyFrom(s[1..], key, seen + {k});
        KeySetCons(r, key);
      }
    }
  }

  /** `list(dict.fromkeys(s))`, keyed: the first element for each key, in
      order of first occurrence. */
  function FirstByKey<T, K(==)>(s: seq<T>, key: T -> K): (r: seq<T>)
    ensures |r| <= |s|
    ensures forall i, j :: 0 <= i < j < |r| ==> key(r[i]) != key(r[j])
  {
    FirstByKeyFrom(s, key, {})
  }

  /** Everything promised of the de-duplicated list: each kept element is the
      first with its key, they come in order of first occurrence, and every
      key of the input is kept. */
  lemma FirstByKeyCharacterised<T, K>(s: seq<T>, key: T -> K)
    ensures var r := FirstByKey(s, key);
            && (forall i :: 0 <= i < |r| ==> FirstWithKey(s, key, key(r[i])) == Some(r[i]))
            && (forall i, j :: 0 <= i < j < |r| ==> FirstIndex(s, key, key(r[i])) < FirstIndex(s, key, key(r[j])))
            && KeySet(r, key) == KeySet(s, key)
  {
    var r := FirstByKey(s, key);
    forall i | 0 <= i < |r|
      ensures FirstWithKey(s, key, key(r[i])) == Some(r[i])
    {
      FirstByKeyFromKeepsFirst(s, key, {}, i);
    }
    forall i, j | 0 <= i < j < |r|
      ensures FirstIndex(s, key, key(r[i])) < FirstIndex(s, key, key(r[j]))
    {
      FirstByKeyFromOrdered(s, key, {}, i, j);
    }
    FirstByKeyFromKeys(s, key, {});
  }
}
