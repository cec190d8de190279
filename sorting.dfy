/** The stable sort both the RSS service (Go `sort.SliceStable`) and the web
    client (JavaScript `Array.prototype.sort`, stable since ES2019) apply, in place,
    to an array of posts ordered by an integer key. */
module Sorting {

  predicate SortedBy<T>(s: seq<T>, key: T -> int) {
    forall i, j :: 0 <= i < j < |s| ==> key(s[i]) <= key(s[j])
  }

  /** Puts `x` after every element of `t` whose key is not greater than its own,
      scanning from the right. */
  function Insert<T>(x: T, t: seq<T>, key: T -> int): (r: seq<T>)
    ensures |r| == |t| + 1
  {
    if t == [] || key(t[|t| - 1]) <= key(x) then t + [x]
    else Insert(x, t[..|t| - 1], key) + [t[|t| - 1]]
  }

  /** The specification of the sort: insert the elements one by one, left to right. */
  function Sort<T>(s: seq<T>, key: T -> int): (r: seq<T>)
    ensures |r| == |s|
  {
    if s == [] then [] else Insert(s[|s| - 1], Sort(s[..|s| - 1], key), key)
  }

  /** The elements with key `k`, in order. */
  function WithKey<T>(s: seq<T>, key: T -> int, k: int): seq<T> {
    if s == [] then []
    else WithKey(s[..|s| - 1], key, k) + (if key(s[|s| - 1]) == k then [s[|s| - 1]] else [])
  }

  /** Where the scan that `Insert` describes stops. */
  lemma {:induction false} InsertAt<T>(x: T, t: seq<T>, key: T -> int, j: int)
    requires 0 <= j <= |t|
    requires forall k :: j <= k < |t| ==> key(t[k]) > key(x)
    requires j == 0 || key(t[j - 1]) <= key(x)
    ensures Insert(x, t, key) == t[..j] + [x] + t[j..]
  {
    if j < |t| {
      var t' := t[..|t| - 1];
      InsertAt(x, t', key, j);
      assert t'[..j] == t[..j];
      assert t'[j..] + [t[|t| - 1]] == t[j..];
    }
  }

  lemma {:induction false} InsertPermutation<T>(x: T, t: seq<T>, key: T -> int)
    ensures multiset(Insert(x, t, key)) == multiset(t) + multiset{x}
  {
    if t != [] && key(t[|t| - 1]) > key(x) {
      InsertPermutation(x, t[..|t| - 1], key);
      assert t[..|t| - 1] + [t[|t| - 1]] == t;
    }
  }

  lemma {:induction false} InsertSorted<T>(x: T, t: seq<T>, key: T -> int)
    requires SortedBy(t, key)
    ensures SortedBy(Insert(x, t, key), key)
  {
    if t != [] && key(t[|t| - 1]) > key(x) {
      var t', last := t[..|t| - 1], t[|t| - 1];
      InsertSorted(x, t', key);
      var u := Insert(x, t', key);
      InsertPermutation(x, t', key);
      forall i | 0 <= i < |u|
        ensures key(u[i]) <= key(last)
      {
        assert u[i] in multiset(u);
        assert u[i] in multiset(t') || u[i] == x;
        if u[i] != x {
          var k :| 0 <= k < |t'| && t'[k] == u[i];
          assert t[k] == u[i];
        }
      }
    }
  }

  lemma {:induction false} InsertWithKey<T>(x: T, t: seq<T>, key: T -> int, k: int)
    ensures WithKey(Insert(x, t, key), key, k) ==
      WithKey(t, key, k) + (if key(x) == k then [x] else [])
  {
    var xs := if key(x) == k then [x] else [];
    if t == [] || key(t[|t| - 1]) <= key(x) {
      assert (t + [x])[..|t|] == t;
    } else {
      var t', last := t[..|t| - 1], t[|t| - 1];
      InsertWithKey(x, t', key, k);
      var u := Insert(x, t', key);
      assert (u + [last])[..|u|] == u;
      // x and last cannot both have key k, since key(last) > key(x)
      var ls := if key(last) == k then [last] else [];
      assert xs == [] || ls == [];
      assert WithKey(t, key, k) == WithKey(t', key, k) + ls;
    }
  }

  /** The result of `Sort` is ordered by key. */
  lemma {:induction false} SortSorted<T>(s: seq<T>, key: T -> int)
    ensures SortedBy(Sort(s, key), key)
  {
    if s != [] {
      SortSorted(s[..|s| - 1], key);
      InsertSorted(s[|s| - 1], Sort(s[..|s| - 1], key), key);
    }
  }

  /** The result of `Sort` is a permutation of its input. */
  lemma {:induction false} SortPermutation<T>(s: seq<T>, key: T -> int)
    ensures multiset(Sort(s, key)) == multiset(s)
  {
    if s != [] {
      SortPermutation(s[..|s| - 1], key);
      InsertPermutation(s[|s| - 1], Sort(s[..|s| - 1], key), key);
      assert s[..|s| - 1] + [s[|s| - 1]] == s;
    }
  }

  /** `Sort` is stable: elements with equal keys keep their relative order. */
  lemma {:induction false} SortStable<T>(s: seq<T>, key: T -> int, k: int)
    ensures WithKey(Sort(s, key), key, k) == WithKey(s, key, k)
  {
    if s != [] {
      SortStable(s[..|s| - 1], key, k);
      InsertWithKey(s[|s| - 1], Sort(s[..|s| - 1], key), key, k);
    }
  }

  /** A sorted prefix of length `n` holds elements no later than any that follow. */
  lemma SortPrefixFirst<T>(s: seq<T>, key: T -> int, n: int)
    requires 0 <= n <= |s|
    ensures forall i, j :: 0 <= i < n <= j < |s| ==> key(Sort(s, key)[i]) <= key(Sort(s, key)[j])
  {
    SortSorted(s, key);
  }

  /** The sort's state after `i` steps, unfolded for the next one. */
  lemma SortNext<T>(s: seq<T>, key: T -> int, i: int, b: seq<T>)
    requires 0 <= i < |s| && b == Sort(s[..i], key) + s[i..]
    ensures b[i] == s[i] && b[..i] == Sort(s[..i], key) && b[i + 1..] == s[i + 1..]
    ensures Insert(s[i], Sort(s[..i], key), key) + s[i + 1..] == Sort(s[..i + 1], key) + s[i + 1..]
  {
    assert s[..i + 1][..i] == s[..i];
  }

  /** Stable insertion sort in place, by ascending key. */
  method SortByKey<T>(a: array<T>, key: T -> int)
    modifies a
    ensures a[..] == Sort(old(a[..]), key)
  {
    ghost var s := a[..];
    var i := 0;
    while i < a.Length
      invariant 0 <= i <= a.Length
      invariant a[..] == Sort(s[..i], key) + s[i..]
    {
      SortNext(s, key, i, a[..]);
      InsertStep(a, i, key);
      i := i + 1;
    }
    assert s[..a.Length] == s;
  }

  /** The array after an insertion step, read off element by element. */
  lemma Assemble<T>(b: seq<T>, t: seq<T>, x: T, rest: seq<T>, j: int)
    requires 0 <= j <= |t| && |b| == |t| + 1 + |rest|
    requires forall k :: 0 <= k < j ==> b[k] == t[k]
    requires b[j] == x
    requires forall k :: j < k <= |t| ==> b[k] == t[k - 1]
    requires forall k :: |t| < k < |b| ==> b[k] == rest[k - |t| - 1]
    ensures b == t[..j] + [x] + t[j..] + rest
  {
    var c := t[..j] + [x] + t[j..] + rest;
    forall k | 0 <= k < |b|
      ensures b[k] == c[k]
    {
      if k < j {
        assert c[k] == t[k];
      } else if k == j {
        assert c[k] == x;
      } else if k <= |t| {
        assert c[k] == t[k - 1];
      } else {
        assert c[k] == rest[k - |t| - 1];
      }
    }
  }

  /** One step of the sort: moves `a[i]` left past the larger keys before it. */
  method InsertStep<T>(a: array<T>, i: int, key: T -> int)
    requires 0 <= i < a.Length
    modifies a
    ensures a[..] == Insert(old(a[i]), old(a[..i]), key) + old(a[i + 1..])
  {
    var x := a[i];
    ghost var t, rest := a[..i], a[i + 1..];
    var j := i;
    while j > 0 && key(a[j - 1]) > key(x)
      invariant 0 <= j <= i
      invariant forall k :: 0 <= k < j ==> a[k] == t[k]
      invariant forall k :: j < k <= i ==> a[k] == t[k - 1]
      invariant forall k :: i < k < a.Length ==> a[k] == rest[k - i - 1]
      invariant forall k :: j <= k < i ==> key(t[k]) > key(x)
    {
      a[j] := a[j - 1];
      j := j - 1;
    }
    a[j] := x;
    InsertAt(x, t, key, j);
    Assemble(a[..], t, x, rest, j);
  }
}
