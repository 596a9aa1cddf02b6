/** Counters kept in a plain JavaScript object, `counts[k] = (counts[k] || 0) + 1`.
    An object with string keys enumerates them in insertion order, so a tally
    is a sequence of (key, count) entries, each key once, in the order the
    keys were first counted. */
module Tally {

  type Counts = seq<(string, nat)>

  /** `counts[k] || 0`. */
  function Lookup(t: Counts, k: string): nat
    decreases |t|
  {
    if |t| == 0 then 0 else if t[0].0 == k then t[0].1 else Lookup(t[1..], k)
  }

  /** Every key occurs once and every count is positive. */
  predicate WellFormed(t: Counts)
    decreases |t|
  {
    |t| == 0 || (t[0].1 > 0 && Lookup(t[1..], t[0].0) == 0 && WellFormed(t[1..]))
  }

  /** `Object.values(counts).reduce((a, b) => a + b, 0)`. */
  function Total(t: Counts): nat
    decreases |t|
  {
    if |t| == 0 then 0 else t[0].1 + Total(t[1..])
  }

  /** One more occurrence of `k`: an existing entry is incremented in place,
      a new key is appended at the end. */
  function Bump(t: Counts, k: string): (r: Counts)
    requires WellFormed(t)
    ensures WellFormed(r)
    ensures Lookup(r, k) == Lookup(t, k) + 1
    ensures forall j :: j != k ==> Lookup(r, j) == Lookup(t, j)
    ensures Total(r) == Total(t) + 1
    ensures Lookup(t, k) == 0 ==> r == t + [(k, 1)]
    ensures Lookup(t, k) > 0 ==> |r| == |t| && forall i :: 0 <= i < |t| ==> r[i].0 == t[i].0
    decreases |t|
  {
    if |t| == 0 then [(k, 1)]
    else if t[0].0 == k then
      assert ([(k, t[0].1 + 1)] + t[1..])[1..] == t[1..];
      [(k, t[0].1 + 1)] + t[1..]
    else
      var rest := Bump(t[1..], k);
      assert ([t[0]] + rest)[1..] == rest;
      assert t == [t[0]] + t[1..];
      [t[0]] + rest
  }

  /** Number of elements of `xs` whose key is `k`. */
  function Occurrences<T>(xs: seq<T>, key: T -> string, k: string): nat
    decreases |xs|
  {
    if |xs| == 0 then 0 else (if key(xs[0]) == k then 1 else 0) + Occurrences(xs[1..], key, k)
  }

  lemma {:induction false} OccurrencesSnoc<T>(xs: seq<T>, x: T, key: T -> string, k: string)
    ensures Occurrences(xs + [x], key, k) == Occurrences(xs, key, k) + (if key(x) == k then 1 else 0)
    decreases |xs|
  {
    if |xs| == 0 {
      assert xs + [x] == [x];
    } else {
      assert (xs + [x])[1..] == xs[1..] + [x];
      OccurrencesSnoc(xs[1..], x, key, k);
    }
  }

  /** The position of the first element of `xs` whose key is `k`, or `|xs|`
      when there is none. */
  function FirstIndex<T>(xs: seq<T>, key: T -> string, k: string): (n: nat)
    ensures n <= |xs|
    ensures n < |xs| ==> key(xs[n]) == k
    ensures forall i :: 0 <= i < n ==> key(xs[i]) != k
    decreases |xs|
  {
    if |xs| == 0 then 0 else if key(xs[0]) == k then 0 else 1 + FirstIndex(xs[1..], key, k)
  }

  /** A key occurs in `xs` exactly when it has a first position inside `xs`. */
  lemma {:induction false} FirstIndexOccurs<T>(xs: seq<T>, key: T -> string, k: string)
    ensures FirstIndex(xs, key, k) < |xs| <==> Occurrences(xs, key, k) > 0
    decreases |xs|
  {
    if |xs| > 0 {
      FirstIndexOccurs(xs[1..], key, k);
    }
  }

  /** Appending an element keeps every first position already found. */
  lemma {:induction false} FirstIndexSnoc<T>(xs: seq<T>, x: T, key: T -> string, k: string)
    ensures FirstIndex(xs, key, k) < |xs| ==> FirstIndex(xs + [x], key, k) == FirstIndex(xs, key, k)
    ensures FirstIndex(xs, key, k) == |xs| && key(x) == k ==> FirstIndex(xs + [x], key, k) == |xs|
    decreases |xs|
  {
    if |xs| == 0 {
      assert xs + [x] == [x];
    } else {
      assert (xs + [x])[1..] == xs[1..] + [x];
      FirstIndexSnoc(xs[1..], x, key, k);
    }
  }

  /** `xs.forEach(x => counts[key(x)] = (counts[key(x)] || 0) + 1)` from an
      empty object: each key's count is its number of occurrences, so the
      counts add up to the number of elements, and the keys are the distinct
      keys of `xs` in the order of their first occurrence. */
  function CountBy<T>(xs: seq<T>, key: T -> string): (r: Counts)
    ensures WellFormed(r)
    ensures forall k :: Lookup(r, k) == Occurrences(xs, key, k)
    ensures Total(r) == |xs|
    ensures forall i {:trigger FirstIndex(xs, key, r[i].0)} :: 0 <= i < |r| ==> FirstIndex(xs, key, r[i].0) < |xs|
    ensures forall i, j {:trigger FirstIndex(xs, key, r[i].0), FirstIndex(xs, key, r[j].0)} :: 0 <= i < j < |r| ==>
              FirstIndex(xs, key, r[i].0) < FirstIndex(xs, key, r[j].0)
    decreases |xs|
  {
    if |xs| == 0 then []
    else
      var init := xs[..|xs| - 1];
      var last := xs[|xs| - 1];
      assert xs == init + [last];
      forall k ensures Occurrences(xs, key, k) == Occurrences(init, key, k) + (if key(last) == k then 1 else 0) {
        OccurrencesSnoc(init, last, key, k);
      }
      var prev := CountBy(init, key);
      var r := Bump(prev, key(last));
      CountByOrder(init, last, key, prev, r);
      r
  }

  /** The step of `CountBy`: counting one more element keeps the keys in the
      order of their first occurrence. `r` is `prev` with the last key bumped:
      the same keys in place when it was counted before, else one new entry. */
  lemma CountByOrder<T>(init: seq<T>, last: T, key: T -> string, prev: Counts, r: Counts)
    requires Lookup(prev, key(last)) == Occurrences(init, key, key(last))
    requires forall i :: 0 <= i < |prev| ==> FirstIndex(init, key, prev[i].0) < |init|
    requires forall i, j :: 0 <= i < j < |prev| ==>
               FirstIndex(init, key, prev[i].0) < FirstIndex(init, key, prev[j].0)
    requires Lookup(prev, key(last)) > 0 ==>
               |r| == |prev| && forall i :: 0 <= i < |prev| ==> r[i].0 == prev[i].0
    requires Lookup(prev, key(last)) == 0 ==> r == prev + [(key(last), 1)]
    ensures forall i :: 0 <= i < |r| ==> FirstIndex(init + [last], key, r[i].0) < |init| + 1
    ensures forall i, j :: 0 <= i < j < |r| ==>
              FirstIndex(init + [last], key, r[i].0) < FirstIndex(init + [last], key, r[j].0)
  {
    var xs := init + [last];
    forall i | 0 <= i < |prev|
      ensures FirstIndex(xs, key, prev[i].0) == FirstIndex(init, key, prev[i].0)
    {
      FirstIndexSnoc(init, last, key, prev[i].0);
    }
    if Lookup(prev, key(last)) == 0 {
      FirstIndexOccurs(init, key, key(last));
      FirstIndexSnoc(init, last, key, key(last));
      assert FirstIndex(xs, key, key(last)) == |init|;
      assert forall i :: 0 <= i < |prev| ==> r[i].0 == prev[i].0;
      assert r[|prev|].0 == key(last);
    }
  }

  /** The index `Object.keys(t).reduce((a, b) => t[a] > t[b] ? a : b)` ends on:
      a largest count, and the last one among equal largest counts. */
  function DominantIndex(t: Counts): (i: nat)
    requires |t| > 0
    ensures i < |t|
    ensures forall j :: 0 <= j < |t| ==> t[j].1 <= t[i].1
    ensures forall j :: i < j < |t| ==> t[j].1 < t[i].1
    decreases |t|
  {
    if |t| == 1 then 0
    else
      var a := DominantIndex(t[..|t| - 1]);
      if t[a].1 > t[|t| - 1].1 then a else |t| - 1
  }
}
