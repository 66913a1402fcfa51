/** The stable sort of Python's `sorted(xs, key=...)` for keys that are pairs
    of integers compared as Python compares tuples (a date sorts as the pair
    `(date, 0)`). */
module Sorting {

  type Key = (int, int)

  /** Python's tuple order `a <= b`. */
  predicate KeyLe(a: Key, b: Key) {
    a.0 < b.0 || (a.0 == b.0 && a.1 <= b.1)
  }

  predicate SortedBy<T>(s: seq<T>, key: T -> Key) {
    forall i, j :: 0 <= i < j < |s| ==> KeyLe(key(s[i]), key(s[j]))
  }

  /** Places `x` in front of the first element whose key is not smaller. */
  function InsertBy<T(==)>(x: T, s: seq<T>, key: T -> Key): (r: seq<T>)
    ensures |r| == |s| + 1
    ensures multiset(r) == multiset(s) + multiset{x}
  {
    if s == [] || KeyLe(key(x), key(s[0])) then [x] + s
    else
      assert s == [s[0]] + s[1..];
      [s[0]] + InsertBy(x, s[1..], key)
  }

  lemma {:induction false} InsertBySorted<T>(x: T, s: seq<T>, key: T -> Key)
    requires SortedBy(s, key)
    ensures SortedBy(InsertBy(x, s, key), key)
    ensures s != [] ==> InsertBy(x, s, key)[0] == x || InsertBy(x, s, key)[0] == s[0]
  {
    if s != [] && !KeyLe(key(x), key(s[0])) {
      var rest := InsertBy(x, s[1..], key);
      assert SortedBy(s[1..], key) by {
        forall i, j | 0 <= i < j < |s[1..]| ensures KeyLe(key(s[1..][i]), key(s[1..][j])) {
          assert s[1..][i] == s[i + 1] && s[1..][j] == s[j + 1];
        }
      }
      InsertBySorted(x, s[1..], key);
      var r := [s[0]] + rest;
      assert KeyLe(key(s[0]), key(rest[0])) by {
        if s[1..] != [] { assert s[1..][0] == s[1]; }
      }
      forall i, j | 0 <= i < j < |r| ensures KeyLe(key(r[i]), key(r[j])) {
        if i > 0 {
          assert r[i] == rest[i - 1] && r[j] == rest[j - 1];
        } else {
          assert r[j] == rest[j - 1];
          assert KeyLe(key(rest[0]), key(rest[j - 1])) || j == 1;
        }
      }
    }
  }

  /** Insertion sort. Each element goes in front of the equal keys of the
      sorted rest, which keeps equal keys in their original order. */
  function SortBy<T(==)>(s: seq<T>, key: T -> Key): (r: seq<T>)
    ensures |r| == |s|
    ensures multiset(r) == multiset(s)
    ensures SortedBy(r, key)
  {
    if s == [] then []
    else
      assert s == [s[0]] + s[1..];
      InsertBySorted(s[0], SortBy(s[1..], key), key);
      InsertBy(s[0], SortBy(s[1..], key), key)
  }

  /** The elements of `s` whose key is `k`, in their order in `s`. */
  function WithKey<T(==)>(s: seq<T>, key: T -> Key, k: Key): (r: seq<T>)
    ensures |r| <= |s|
    ensures forall x :: x in r ==> x in s && key(x) == k
  {
    if s == [] then []
    else (if key(s[0]) == k then [s[0]] else []) + WithKey(s[1..], key, k)
  }

  /** Inserting `x` passes only elements with a smaller key, so among the
      elements of any one key, `x` lands in front. */
  lemma {:induction false} InsertByWithKey<T>(x: T, s: seq<T>, key: T -> Key, k: Key)
    ensures WithKey(InsertBy(x, s, key), key, k) ==
      (if key(x) == k then [x] else []) + WithKey(s, key, k)
  {
    var r := InsertBy(x, s, key);
    if s == [] || KeyLe(key(x), key(s[0])) {
      assert r[1..] == s;
    } else {
      var rest := InsertBy(x, s[1..], key);
      assert r[0] == s[0] && r[1..] == rest;
      assert key(s[0]) != key(x);
      InsertByWithKey(x, s[1..], key, k);
    }
  }

  /** `SortBy` is stable: for every key, the elements carrying it appear in
      the result in the same order as in the input. */
  lemma {:induction false} SortByStable<T>(s: seq<T>, key: T -> Key, k: Key)
    ensures WithKey(SortBy(s, key), key, k) == WithKey(s, key, k)
  {
    if s != [] {
      SortByStable(s[1..], key, k);
      InsertByWithKey(s[0], SortBy(s[1..], key), key, k);
    }
  }
}
