/** `Array.prototype.sort` with a numeric comparator `(a, b) => key(a) - key(b)`.
    The sort is stable (ECMAScript 2019 and later), so the result is fully
    determined: ordered by key, and elements with equal keys keep their
    input order. Modelled as insertion sort. */
module Sorting {

  ghost predicate SortedBy<T>(xs: seq<T>, key: T -> int) {
    forall i, j :: 0 <= i < j < |xs| ==> key(xs[i]) <= key(xs[j])
  }

  /** The elements of `xs` whose key is `k`, in their order in `xs`. */
  function WithKey<T>(xs: seq<T>, key: T -> int, k: int): seq<T>
    decreases |xs|
  {
    if |xs| == 0 then []
    else (if key(xs[0]) == k then [xs[0]] else []) + WithKey(xs[1..], key, k)
  }

  /** Inserts `x` before the first element whose key is not smaller. */
  function Insert<T>(x: T, ys: seq<T>, key: T -> int): (r: seq<T>)
    requires SortedBy(ys, key)
    ensures |r| == |ys| + 1
    ensures SortedBy(r, key)
    ensures key(r[0]) == if |ys| == 0 || key(x) <= key(ys[0]) then key(x) else key(ys[0])
    ensures multiset(r) == multiset(ys) + multiset{x}
    decreases |ys|
  {
    if |ys| == 0 || key(x) <= key(ys[0]) then
      ConsSorted(x, ys, key);
      [x] + ys
    else
      TailSorted(ys, key);
      var rest := Insert(x, ys[1..], key);
      InsertBehind(x, ys, rest, key);
      HeadMultiset(x, ys, rest);
      [ys[0]] + rest
  }

  /** Putting the head back in front of the tail with `x` inserted gives the
      elements of the whole with `x` added. */
  lemma HeadMultiset<T>(x: T, ys: seq<T>, rest: seq<T>)
    requires |ys| > 0 && multiset(rest) == multiset(ys[1..]) + multiset{x}
    ensures multiset([ys[0]] + rest) == multiset(ys) + multiset{x}
  {
    assert ys == [ys[0]] + ys[1..];
  }

  lemma TailSorted<T>(ys: seq<T>, key: T -> int)
    requires SortedBy(ys, key) && |ys| > 0
    ensures SortedBy(ys[1..], key)
  {
    forall i, j | 0 <= i < j < |ys| - 1 ensures key(ys[1..][i]) <= key(ys[1..][j]) {
      assert ys[1..][i] == ys[i + 1] && ys[1..][j] == ys[j + 1];
    }
  }

  /** The second case of `Insert`: the head stays in front of the tail with
      `x` inserted, whose first key is at least the head's. */
  lemma InsertBehind<T>(x: T, ys: seq<T>, rest: seq<T>, key: T -> int)
    requires SortedBy(ys, key) && |ys| > 0 && key(ys[0]) < key(x)
    requires SortedBy(rest, key) && |rest| > 0
    requires key(rest[0]) == if |ys| == 1 || key(x) <= key(ys[1]) then key(x) else key(ys[1])
    ensures SortedBy([ys[0]] + rest, key)
  {
    if |ys| > 1 {
      assert key(ys[0]) <= key(ys[1]);
    }
    ConsSorted(ys[0], rest, key);
  }

  /** Insertion is stable: among the elements with `x`'s key, `x` comes
      first, and every other key's elements are untouched. */
  lemma {:induction false} InsertWithKey<T>(x: T, ys: seq<T>, key: T -> int, k: int)
    requires SortedBy(ys, key)
    ensures WithKey(Insert(x, ys, key), key, k) ==
              if key(x) == k then [x] + WithKey(ys, key, k) else WithKey(ys, key, k)
    decreases |ys|
  {
    if |ys| == 0 || key(x) <= key(ys[0]) {
      WithKeyCons(x, ys, key, k);
    } else {
      TailSorted(ys, key);
      var rest := Insert(x, ys[1..], key);
      InsertWithKey(x, ys[1..], key, k);
      assert Insert(x, ys, key) == [ys[0]] + rest;
      assert ys == [ys[0]] + ys[1..];
      WithKeyCons(ys[0], rest, key, k);
      WithKeyCons(ys[0], ys[1..], key, k);
    }
  }

  lemma WithKeyCons<T>(x: T, ys: seq<T>, key: T -> int, k: int)
    ensures WithKey([x] + ys, key, k) ==
              if key(x) == k then [x] + WithKey(ys, key, k) else WithKey(ys, key, k)
  {
    assert ([x] + ys)[1..] == ys;
    assert [] + WithKey(ys, key, k) == WithKey(ys, key, k);
  }

  lemma ConsSorted<T>(x: T, ys: seq<T>, key: T -> int)
    requires SortedBy(ys, key)
    requires |ys| > 0 ==> key(x) <= key(ys[0])
    ensures SortedBy([x] + ys, key)
  {
    var r := [x] + ys;
    forall i, j | 0 <= i < j < |r| ensures key(r[i]) <= key(r[j]) {
      if i == 0 {
        assert r[j] == ys[j - 1];
        if j > 1 {
          assert key(ys[0]) <= key(ys[j - 1]);
        }
      } else {
        assert r[i] == ys[i - 1] && r[j] == ys[j - 1];
      }
    }
  }

  /** Stable sort by ascending key. */
  function SortBy<T>(xs: seq<T>, key: T -> int): (r: seq<T>)
    ensures |r| == |xs|
    ensures SortedBy(r, key)
    ensures forall k :: WithKey(r, key, k) == WithKey(xs, key, k)
    ensures multiset(r) == multiset(xs)
    decreases |xs|
  {
    if |xs| == 0 then []
    else
      assert xs == [xs[0]] + xs[1..];
      var sorted := SortBy(xs[1..], key);
      forall k ensures WithKey(Insert(xs[0], sorted, key), key, k) == WithKey(xs, key, k) {
        InsertWithKey(xs[0], sorted, key, k);
        WithKeyCons(xs[0], xs[1..], key, k);
      }
      Insert(xs[0], sorted, key)
  }

  /** Sorting a sequence that is already in order changes nothing. */
  lemma {:induction false} SortSortedIsIdentity<T>(xs: seq<T>, key: T -> int)
    requires SortedBy(xs, key)
    ensures SortBy(xs, key) == xs
    decreases |xs|
  {
    if |xs| > 0 {
      SortSortedIsIdentity(xs[1..], key);
      assert xs == [xs[0]] + xs[1..];
    }
  }
}
