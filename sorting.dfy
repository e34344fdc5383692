/**
 * Array.prototype.sort with a comparator, as a stable insertion sort. Every
 * sort in the core compares one or two string fields in turn, so the order
 * is the lexicographic order on a sequence of string keys.
 */
module Sorting {
  import opened Strings
  import opened Seqs

  /** Compare the first keys; on a tie, the next ones (the `a || b` comparator chain). */
  predicate KeyLe(a: seq<string>, b: seq<string>) {
    a == [] || (b != [] && ((StrLe(a[0], b[0]) && a[0] != b[0]) || (a[0] == b[0] && KeyLe(a[1..], b[1..]))))
  }

  lemma KeyLeTotal(a: seq<string>, b: seq<string>)
    ensures KeyLe(a, b) || KeyLe(b, a)
  {
    if a != [] && b != [] {
      StrLeTotal(a[0], b[0]);
    }
  }

  lemma KeyLeTransitive(a: seq<string>, b: seq<string>, c: seq<string>)
    requires KeyLe(a, b) && KeyLe(b, c)
    ensures KeyLe(a, c)
  {
    if a != [] && b != [] && c != [] {
      if a[0] == b[0] && b[0] == c[0] {
        KeyLeTransitive(a[1..], b[1..], c[1..]);
      } else {
        StrLeReflexive(a[0]);
        StrLeReflexive(b[0]);
        StrLeTransitive(a[0], b[0], c[0]);
        if a[0] == c[0] {
          StrLeAntisymmetric(a[0], b[0]);
        }
      }
    }
  }

  lemma KeyLeAntisymmetric(a: seq<string>, b: seq<string>)
    requires KeyLe(a, b) && KeyLe(b, a) && |a| == |b|
    ensures a == b
  {
    if a != [] {
      if a[0] != b[0] {
        StrLeAntisymmetric(a[0], b[0]);
      }
      KeyLeAntisymmetric(a[1..], b[1..]);
      assert a == [a[0]] + a[1..] && b == [b[0]] + b[1..];
    }
  }

  /** With two keys: the first ones ascend, and on a tie the second ones do. */
  lemma KeyLePair(a: seq<string>, b: seq<string>)
    requires |a| == 2 && |b| == 2 && KeyLe(a, b)
    ensures StrLe(a[0], b[0])
    ensures a[0] == b[0] ==> StrLe(a[1], b[1])
  {
    StrLeReflexive(a[0]);
    StrLeReflexive(a[1]);
    assert a[1..][0] == a[1] && b[1..][0] == b[1];
  }

  predicate SortedBy<T>(xs: seq<T>, key: T -> seq<string>) {
    forall i, j :: 0 <= i < j < |xs| ==> KeyLe(key(xs[i]), key(xs[j]))
  }

  /** Put `x` before the first element it does not sort after; equal keys keep `x` in front. */
  function Insert<T>(x: T, xs: seq<T>, key: T -> seq<string>): (r: seq<T>)
    requires SortedBy(xs, key)
    ensures multiset(r) == multiset(xs) + multiset{x}
    ensures SortedBy(r, key)
  {
    if xs == [] then [x]
    else if KeyLe(key(x), key(xs[0])) then
      SortedCons(x, xs, key);
      [x] + xs
    else
      var rest := Insert(x, xs[1..], key);
      assert xs == [xs[0]] + xs[1..];
      HeadBelowInserted(x, xs, rest, key);
      SortedCons(xs[0], rest, key);
      [xs[0]] + rest
  }

  /** An element that sorts before the head of a sorted sequence can go in front. */
  lemma SortedCons<T>(y: T, ys: seq<T>, key: T -> seq<string>)
    requires SortedBy(ys, key)
    requires ys != [] ==> KeyLe(key(y), key(ys[0]))
    ensures SortedBy([y] + ys, key)
  {
    var r := [y] + ys;
    forall i, j | 0 <= i < j < |r| ensures KeyLe(key(r[i]), key(r[j])) {
      if i == 0 {
        if j > 1 { KeyLeTransitive(key(y), key(ys[0]), key(ys[j - 1])); }
      } else {
        assert r[i] == ys[i - 1] && r[j] == ys[j - 1];
      }
    }
  }

  /** When `x` goes after the head, the head sorts before everything the rest becomes. */
  lemma HeadBelowInserted<T>(x: T, xs: seq<T>, rest: seq<T>, key: T -> seq<string>)
    requires xs != [] && SortedBy(xs, key) && !KeyLe(key(x), key(xs[0]))
    requires multiset(rest) == multiset(xs[1..]) + multiset{x}
    ensures rest != [] ==> KeyLe(key(xs[0]), key(rest[0]))
  {
    if rest != [] {
      KeyLeTotal(key(x), key(xs[0]));
      assert rest[0] in multiset(rest);
      if rest[0] != x {
        assert rest[0] in multiset(xs[1..]);
        var k :| 0 <= k < |xs[1..]| && xs[1..][k] == rest[0];
        assert xs[k + 1] == rest[0];
      }
    }
  }

  /** A stable sort: the result is a permutation of `xs`, ordered by `key`. */
  function SortByKey<T>(xs: seq<T>, key: T -> seq<string>): (r: seq<T>)
    ensures multiset(r) == multiset(xs)
    ensures |r| == |xs|
    ensures SortedBy(r, key)
  {
    if xs == [] then []
    else
      assert xs == [xs[0]] + xs[1..];
      var r := Insert(xs[0], SortByKey(xs[1..], key), key);
      assert |r| == |multiset(r)| == |multiset(xs)| == |xs|;
      r
  }

  lemma {:induction false} KeyLeReflexive(a: seq<string>)
    ensures KeyLe(a, a)
  {
    if a != [] {
      KeyLeReflexive(a[1..]);
    }
  }

  /** The elements of `xs` whose key is `k`, in order. */
  function WithKey<T>(xs: seq<T>, key: T -> seq<string>, k: seq<string>): seq<T> {
    if xs == [] then [] else (if key(xs[0]) == k then [xs[0]] else []) + WithKey(xs[1..], key, k)
  }

  lemma WithKeyCons<T>(y: T, ys: seq<T>, key: T -> seq<string>, k: seq<string>)
    ensures WithKey([y] + ys, key, k) == (if key(y) == k then [y] else []) + WithKey(ys, key, k)
  {
    assert ([y] + ys)[0] == y && ([y] + ys)[1..] == ys;
  }

  /** Inserting `x` puts it in front of every element with the same key. */
  lemma {:induction false} InsertWithKey<T>(x: T, xs: seq<T>, key: T -> seq<string>, k: seq<string>)
    requires SortedBy(xs, key)
    ensures WithKey(Insert(x, xs, key), key, k) == (if key(x) == k then [x] else []) + WithKey(xs, key, k)
  {
    if xs == [] {
      WithKeyCons(x, xs, key, k);
      assert [x] + xs == [x];
    } else if KeyLe(key(x), key(xs[0])) {
      WithKeyCons(x, xs, key, k);
    } else {
      var rest := Insert(x, xs[1..], key);
      InsertWithKey(x, xs[1..], key, k);
      KeyLeReflexive(key(x));
      assert key(xs[0]) != key(x);
      WithKeyCons(xs[0], rest, key, k);
      WithKeyCons(xs[0], xs[1..], key, k);
      assert xs == [xs[0]] + xs[1..];
    }
  }

  /** The sort is stable: the elements with any one key keep their order. */
  lemma {:induction false} SortStable<T>(xs: seq<T>, key: T -> seq<string>, k: seq<string>)
    ensures WithKey(SortByKey(xs, key), key, k) == WithKey(xs, key, k)
  {
    if xs != [] {
      SortStable(xs[1..], key, k);
      InsertWithKey(xs[0], SortByKey(xs[1..], key), key, k);
    }
  }
}
