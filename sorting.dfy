/**
 * `Array.prototype.sort` with a numeric comparator `(a, b) => key(a) - key(b)`.
 * The sort the services rely on is stable, so it is modelled by insertion
 * sort: each element is placed before the first element whose key is not
 * smaller than its own, which keeps equal keys in input order.
 */
module Sorting {

  ghost predicate SortedBy<T>(s: seq<T>, key: T -> real) {
    forall i, j :: 0 <= i < j < |s| ==> key(s[i]) <= key(s[j])
  }

  function Insert<T>(x: T, s: seq<T>, key: T -> real): (r: seq<T>)
    ensures |r| == |s| + 1
    ensures multiset(r) == multiset(s) + multiset{x}
  {
    if s == [] || key(x) <= key(s[0]) then [x] + s
    else
      assert s == [s[0]] + s[1..];
      [s[0]] + Insert(x, s[1..], key)
  }

  lemma {:induction false} InsertSorted<T>(x: T, s: seq<T>, key: T -> real)
    requires SortedBy(s, key)
    ensures SortedBy(Insert(x, s, key), key)
  {
    if s != [] && key(x) > key(s[0]) {
      var rest := Insert(x, s[1..], key);
      assert Insert(x, s, key) == [s[0]] + rest;
      SortedTail(s, key);
      InsertSorted(x, s[1..], key);
      HeadBelowInserted(s, x, rest, key);
      SortedCons(s[0], rest, key);
    }
  }

  lemma SortedTail<T>(s: seq<T>, key: T -> real)
    requires s != [] && SortedBy(s, key)
    ensures SortedBy(s[1..], key)
  {
    forall i, j | 0 <= i < j < |s[1..]| ensures key(s[1..][i]) <= key(s[1..][j]) {
      assert s[1..][i] == s[i + 1] && s[1..][j] == s[j + 1];
    }
  }

  /** The head of a sorted sequence is below everything left after inserting a larger element into its tail. */
  lemma HeadBelowInserted<T>(s: seq<T>, x: T, rest: seq<T>, key: T -> real)
    requires s != [] && SortedBy(s, key) && key(s[0]) < key(x)
    requires multiset(rest) == multiset(s[1..]) + multiset{x}
    ensures forall j :: 0 <= j < |rest| ==> key(s[0]) <= key(rest[j])
  {
    forall j | 0 <= j < |rest| ensures key(s[0]) <= key(rest[j]) {
      assert rest[j] in multiset(rest);
      if rest[j] != x {
        assert rest[j] in multiset(s[1..]);
        var i :| 0 <= i < |s[1..]| && s[1..][i] == rest[j];
        assert s[i + 1] == rest[j];
      }
    }
  }

  lemma SortedCons<T>(h: T, rest: seq<T>, key: T -> real)
    requires SortedBy(rest, key)
    requires forall j :: 0 <= j < |rest| ==> key(h) <= key(rest[j])
    ensures SortedBy([h] + rest, key)
  {
    var r := [h] + rest;
    forall i, j | 0 <= i < j < |r| ensures key(r[i]) <= key(r[j]) {
      assert r[j] == rest[j - 1];
      if i > 0 {
        assert r[i] == rest[i - 1];
      }
    }
  }

  /** The stable ascending sort by `key`. */
  function SortBy<T>(s: seq<T>, key: T -> real): (r: seq<T>)
    ensures |r| == |s|
    ensures multiset(r) == multiset(s)
    ensures SortedBy(r, key)
  {
    if s == [] then []
    else
      assert s == [s[0]] + s[1..];
      InsertSorted(s[0], SortBy(s[1..], key), key);
      Insert(s[0], SortBy(s[1..], key), key)
  }

  /** The elements of `s` whose key is `k`, in the order of `s`. */
  function WithKey<T>(s: seq<T>, key: T -> real, k: real): (r: seq<T>)
    ensures |r| <= |s|
  {
    if s == [] then []
    else (if key(s[0]) == k then [s[0]] else []) + WithKey(s[1..], key, k)
  }

  /** The elements of key `k` among `[x]`. */
  function KeyPart<T>(x: T, key: T -> real, k: real): seq<T> {
    if key(x) == k then [x] else []
  }

  lemma WithKeyCons<T>(h: T, t: seq<T>, key: T -> real, k: real)
    ensures WithKey([h] + t, key, k) == KeyPart(h, key, k) + WithKey(t, key, k)
  {
    assert ([h] + t)[0] == h && ([h] + t)[1..] == t;
  }

  /** Moving `x` past a head of strictly smaller key does not reorder the elements of any one key. */
  lemma WithKeyPastHead<T>(h: T, x: T, t: seq<T>, rest: seq<T>, key: T -> real, k: real)
    requires key(h) < key(x)
    requires WithKey(rest, key, k) == KeyPart(x, key, k) + WithKey(t, key, k)
    ensures WithKey([h] + rest, key, k) == KeyPart(x, key, k) + WithKey([h] + t, key, k)
  {
    WithKeyCons(h, rest, key, k);
    WithKeyCons(h, t, key, k);
    var tail := WithKey(t, key, k);
    if key(h) == k {
      assert KeyPart(x, key, k) == [];
      assert KeyPart(h, key, k) + ([] + tail) == [] + (KeyPart(h, key, k) + tail);
    } else {
      assert KeyPart(h, key, k) == [];
      assert [] + (KeyPart(x, key, k) + tail) == KeyPart(x, key, k) + ([] + tail);
    }
  }

  lemma {:induction false} InsertWithKey<T>(x: T, s: seq<T>, key: T -> real, k: real)
    ensures WithKey(Insert(x, s, key), key, k) == KeyPart(x, key, k) + WithKey(s, key, k)
  {
    if s == [] || key(x) <= key(s[0]) {
      WithKeyCons(x, s, key, k);
    } else {
      var rest := Insert(x, s[1..], key);
      assert Insert(x, s, key) == [s[0]] + rest;
      InsertWithKey(x, s[1..], key, k);
      WithKeyPastHead(s[0], x, s[1..], rest, key, k);
      assert [s[0]] + s[1..] == s;
    }
  }

  /**
   * Stability: sorting leaves the elements that share a key in the order
   * they had in the input.
   */
  lemma {:induction false} SortByIsStable<T>(s: seq<T>, key: T -> real, k: real)
    ensures WithKey(SortBy(s, key), key, k) == WithKey(s, key, k)
  {
    if s != [] {
      SortByIsStable(s[1..], key, k);
      InsertWithKey(s[0], SortBy(s[1..], key), key, k);
    }
  }

  /** The first position that holds a smallest key: a reference definition for the sort's head. */
  function FirstMinIndex<T>(s: seq<T>, key: T -> real): (i: nat)
    requires |s| > 0
    ensures i < |s|
    ensures forall j :: 0 <= j < |s| ==> key(s[i]) <= key(s[j])
    ensures forall j :: 0 <= j < i ==> key(s[j]) > key(s[i])
  {
    if |s| == 1 then 0
    else
      var m := FirstMinIndex(s[1..], key) + 1;
      if key(s[0]) <= key(s[m]) then 0 else m
  }

  /** The head of the stable sort is the earliest element with the smallest key. */
  lemma {:induction false} SortByHead<T>(s: seq<T>, key: T -> real)
    requires |s| > 0
    ensures SortBy(s, key)[0] == s[FirstMinIndex(s, key)]
  {
    if |s| > 1 {
      SortByHead(s[1..], key);
    }
  }

  /** In a sorted sequence, everything in a prefix has a key no larger than anything after it. */
  lemma SortedPrefixBelowSuffix<T>(r: seq<T>, key: T -> real, n: nat, x: T, y: T)
    requires SortedBy(r, key) && n <= |r|
    requires x in r[..n] && y in r[n..]
    ensures key(x) <= key(y)
  {
    var i :| 0 <= i < n && r[..n][i] == x;
    var j :| 0 <= j < |r| - n && r[n..][j] == y;
    assert r[i] == x && r[n + j] == y;
  }

  /** Every element kept by a prefix of the sort has a key no larger than any element left out. */
  lemma PrefixHoldsSmallest<T>(s: seq<T>, key: T -> real, n: nat, x: T, y: T)
    requires n <= |s|
    requires x in SortBy(s, key)[..n]
    requires y in SortBy(s, key)[n..]
    ensures key(x) <= key(y)
  {
    SortedPrefixBelowSuffix(SortBy(s, key), key, n, x, y);
  }

  /** A prefix of a permutation of `s` takes no element more often than `s` holds it. */
  lemma PrefixOfPermutation<T>(sorted: seq<T>, s: seq<T>, n: nat)
    requires n <= |sorted| && multiset(sorted) == multiset(s)
    ensures multiset(sorted[..n]) <= multiset(s)
    ensures forall x :: x in sorted[..n] ==> x in s
  {
    assert sorted == sorted[..n] + sorted[n..];
    forall x | x in sorted[..n] ensures x in s {
      assert x in multiset(sorted);
    }
  }
}
