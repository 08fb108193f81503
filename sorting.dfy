/**
 * `Array.prototype.sort` with a numeric comparator `(a, b) => key(a) - key(b)`:
 * a stable insertion sort by an integer key.
 */
module Sorting {
  predicate SortedBy<T>(xs: seq<T>, key: T -> int) {
    forall i, j :: 0 <= i < j < |xs| ==> key(xs[i]) <= key(xs[j])
  }

  /** Inserts `x` before the first element whose key is not smaller, so equal keys keep their order. */
  function Insert<T>(x: T, ys: seq<T>, key: T -> int): (r: seq<T>)
    requires SortedBy(ys, key)
    ensures SortedBy(r, key)
    ensures multiset(r) == multiset(ys) + multiset{x}
  {
    if ys == [] || key(x) <= key(ys[0]) then
      assert forall i :: 0 <= i < |ys| ==> key(ys[0]) <= key(ys[i]);
      [x] + ys
    else
      var rest := Insert(x, ys[1..], key);
      InsertStep(x, ys, rest, key);
      [ys[0]] + rest
  }

  /** The step of `Insert` past an element with a smaller key. */
  lemma InsertStep<T>(x: T, ys: seq<T>, rest: seq<T>, key: T -> int)
    requires ys != [] && SortedBy(ys, key) && key(ys[0]) < key(x)
    requires SortedBy(rest, key) && multiset(rest) == multiset(ys[1..]) + multiset{x}
    ensures SortedBy([ys[0]] + rest, key)
    ensures multiset([ys[0]] + rest) == multiset(ys) + multiset{x}
  {
    assert ys == [ys[0]] + ys[1..];
    assert forall i :: 0 <= i < |rest| ==> key(ys[0]) <= key(rest[i]) by {
      forall i | 0 <= i < |rest|
        ensures key(ys[0]) <= key(rest[i])
      {
        assert rest[i] in multiset(rest);
        if rest[i] != x {
          assert rest[i] in multiset(ys[1..]);
          var m :| 0 <= m < |ys[1..]| && ys[1..][m] == rest[i];
          assert ys[m + 1] == rest[i];
        }
      }
    }
  }

  /** The elements in ascending key order: sorted, and a permutation of the input. */
  function SortBy<T>(xs: seq<T>, key: T -> int): (r: seq<T>)
    ensures SortedBy(r, key)
    ensures multiset(r) == multiset(xs)
    ensures |r| == |xs|
  {
    if xs == [] then []
    else
      assert xs == [xs[0]] + xs[1..];
      Insert(xs[0], SortBy(xs[1..], key), key)
  }

  /** The elements whose key is `k`, in their order in `s`. */
  function WithKey<T>(s: seq<T>, key: T -> int, k: int): (r: seq<T>)
    ensures |r| <= |s|
  {
    if s == [] then [] else (if key(s[0]) == k then [s[0]] else []) + WithKey(s[1..], key, k)
  }

  lemma WithKeyCons<T>(x: T, s: seq<T>, key: T -> int, k: int)
    ensures WithKey([x] + s, key, k) == (if key(x) == k then [x] else []) + WithKey(s, key, k)
  {
    assert ([x] + s)[1..] == s;
  }

  /** Inserting `x` puts it among the elements of its own key ahead of all of them, and moves no other. */
  lemma {:induction false} InsertWithKey<T>(x: T, ys: seq<T>, key: T -> int, k: int)
    requires SortedBy(ys, key)
    ensures WithKey(Insert(x, ys, key), key, k) == (if key(x) == k then [x] else []) + WithKey(ys, key, k)
  {
    if ys == [] || key(x) <= key(ys[0]) {
      WithKeyCons(x, ys, key, k);
    } else {
      var rest := Insert(x, ys[1..], key);
      InsertWithKey(x, ys[1..], key, k);
      WithKeyCons(ys[0], rest, key, k);
      WithKeyCons(ys[0], ys[1..], key, k);
      assert [ys[0]] + ys[1..] == ys;
    }
  }

  /** Stability: the elements of each key leave the sort in the order they came in. */
  lemma {:induction false} SortByStable<T>(xs: seq<T>, key: T -> int, k: int)
    ensures WithKey(SortBy(xs, key), key, k) == WithKey(xs, key, k)
  {
    if xs != [] {
      SortByStable(xs[1..], key, k);
      InsertWithKey(xs[0], SortBy(xs[1..], key), key, k);
      WithKeyCons(xs[0], xs[1..], key, k);
      assert [xs[0]] + xs[1..] == xs;
    }
  }
}
