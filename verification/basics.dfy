/** Small general-purpose definitions shared by the whole model: an optional
    value (JavaScript's null/undefined), order-preserving filtering and
    counting, JavaScript's `Array.prototype.slice`, and sums and means. */
module Basics {

  /** A value that may be absent (`null` or `undefined` in the application). */
  datatype Option<+T> = None | Some(value: T) {
    function GetOr(default: T): T {
      match this
      case Some(v) => v
      case None => default
    }
  }

  /** The outcome of an operation that can fail with an error of type `E`. */
  datatype Result<+T, +E> = Success(value: T) | Failure(error: E)

  /** `a` occurs in `b` with gaps allowed: the elements of `a` appear in `b`
      in the same relative order. */
  predicate IsSubsequence<T(==)>(a: seq<T>, b: seq<T>)
    decreases |b|
  {
    if |a| == 0 then true
    else if |b| == 0 then false
    else (a[0] == b[0] && IsSubsequence(a[1..], b[1..])) || IsSubsequence(a, b[1..])
  }

  /** Number of elements of `xs` satisfying `p`. */
  function CountIf<T>(xs: seq<T>, p: T -> bool): nat
    decreases |xs|
  {
    if |xs| == 0 then 0 else (if p(xs[0]) then 1 else 0) + CountIf(xs[1..], p)
  }

  /** `Array.prototype.filter`: the elements satisfying `p`, in their original order. */
  function Filter<T(==)>(xs: seq<T>, p: T -> bool): (r: seq<T>)
    ensures |r| == CountIf(xs, p) <= |xs|
    ensures forall i :: 0 <= i < |r| ==> p(r[i]) && r[i] in xs
    ensures forall i :: 0 <= i < |xs| && p(xs[i]) ==> xs[i] in r
    ensures IsSubsequence(r, xs)
    decreases |xs|
  {
    if |xs| == 0 then []
    else if p(xs[0]) then [xs[0]] + Filter(xs[1..], p)
    else Filter(xs[1..], p)
  }

  lemma {:induction false} CountIfSplit<T>(xs: seq<T>, ys: seq<T>, p: T -> bool)
    ensures CountIf(xs + ys, p) == CountIf(xs, p) + CountIf(ys, p)
    decreases |xs|
  {
    if |xs| == 0 {
      assert xs + ys == ys;
    } else {
      assert (xs + ys)[1..] == xs[1..] + ys;
      CountIfSplit(xs[1..], ys, p);
    }
  }

  /** A predicate that holds of every element is kept by `Filter` everywhere. */
  lemma {:induction false} FilterAll<T>(xs: seq<T>, p: T -> bool)
    requires forall i :: 0 <= i < |xs| ==> p(xs[i])
    ensures Filter(xs, p) == xs
    decreases |xs|
  {
    if |xs| > 0 {
      FilterAll(xs[1..], p);
    }
  }

  /** An ordered selection from `ys` whose elements all satisfy `p` is no longer
      than the number of elements of `ys` satisfying `p`. */
  lemma {:induction false} SubsequenceCount<T>(r: seq<T>, ys: seq<T>, p: T -> bool)
    requires IsSubsequence(r, ys)
    requires forall i :: 0 <= i < |r| ==> p(r[i])
    ensures |r| <= CountIf(ys, p)
    decreases |ys|
  {
    if |r| > 0 && |ys| > 0 {
      if r[0] == ys[0] && IsSubsequence(r[1..], ys[1..]) {
        SubsequenceCount(r[1..], ys[1..], p);
      } else {
        SubsequenceCount(r, ys[1..], p);
      }
    }
  }

  /** The filter is the only ordered selection of elements satisfying `p` that
      is as long as their count: a subsequence, all elements satisfying `p`,
      and the count together pin the result of a filtering query. */
  lemma {:induction false} FilterUnique<T>(r: seq<T>, xs: seq<T>, p: T -> bool)
    requires IsSubsequence(r, xs)
    requires forall i :: 0 <= i < |r| ==> p(r[i])
    requires |r| == CountIf(xs, p)
    ensures r == Filter(xs, p)
    decreases |xs|
  {
    if |xs| > 0 && |r| > 0 {
      if r[0] == xs[0] && IsSubsequence(r[1..], xs[1..]) {
        FilterUnique(r[1..], xs[1..], p);
      } else if p(xs[0]) {
        SubsequenceCount(r, xs[1..], p);
        assert false;
      } else {
        FilterUnique(r, xs[1..], p);
      }
    }
  }

  /** Two predicates that never hold together count at most one per element. */
  lemma {:induction false} CountIfDisjoint<T>(xs: seq<T>, p: T -> bool, q: T -> bool)
    requires forall i :: 0 <= i < |xs| ==> !(p(xs[i]) && q(xs[i]))
    ensures CountIf(xs, p) + CountIf(xs, q) <= |xs|
    decreases |xs|
  {
    if |xs| > 0 {
      CountIfDisjoint(xs[1..], p, q);
    }
  }

  /** The direction of a score between an older and a more recent window. */
  datatype Trend = Improving | Declining | Stable

  /** JavaScript's normalisation of a `slice` bound against a length `n`:
      negative bounds count from the end, and both are clamped to `[0, n]`. */
  function SliceBound(i: int, n: nat): (b: nat)
    ensures b <= n
    ensures 0 <= i ==> b == if i <= n then i else n
    ensures i < 0 ==> b == if n + i >= 0 then n + i else 0
  {
    if i < 0 then (if n + i >= 0 then n + i else 0) else if i <= n then i else n
  }

  /** `xs.slice(start, end)` of JavaScript. */
  function Slice<T>(xs: seq<T>, start: int, end: int): (r: seq<T>)
    ensures |r| <= |xs|
    ensures SliceBound(start, |xs|) < SliceBound(end, |xs|) ==>
              r == xs[SliceBound(start, |xs|)..SliceBound(end, |xs|)]
    ensures SliceBound(end, |xs|) <= SliceBound(start, |xs|) ==> r == []
  {
    var a := SliceBound(start, |xs|);
    var b := SliceBound(end, |xs|);
    if a < b then xs[a..b] else []
  }

  /** `xs.slice(0, k)` for a non-negative `k`: the first `min(k, |xs|)` elements. */
  lemma SliceTake<T>(xs: seq<T>, k: nat)
    ensures Slice(xs, 0, k) == xs[..if k <= |xs| then k else |xs|]
  {
  }

  function Min(a: int, b: int): int { if a <= b then a else b }

  function Max(a: int, b: int): int { if a >= b then a else b }

  function Sum(xs: seq<int>): int
    decreases |xs|
  {
    if |xs| == 0 then 0 else xs[0] + Sum(xs[1..])
  }

  lemma {:induction false} SumSplit(xs: seq<int>, ys: seq<int>)
    ensures Sum(xs + ys) == Sum(xs) + Sum(ys)
    decreases |xs|
  {
    if |xs| == 0 {
      assert xs + ys == ys;
    } else {
      assert (xs + ys)[1..] == xs[1..] + ys;
      SumSplit(xs[1..], ys);
    }
  }

  /** Every element at least `lo` gives a sum at least `|xs| * lo`; likewise above. */
  lemma {:induction false} SumBounds(xs: seq<int>, lo: int, hi: int)
    requires forall i :: 0 <= i < |xs| ==> lo <= xs[i] <= hi
    ensures |xs| * lo <= Sum(xs) <= |xs| * hi
    decreases |xs|
  {
    if |xs| > 0 {
      SumBounds(xs[1..], lo, hi);
    }
  }

  /** The arithmetic mean, computed exactly (the application uses floating point). */
  function Mean(xs: seq<int>): (m: real)
    requires |xs| > 0
    ensures m * |xs| as real == Sum(xs) as real
  {
    Sum(xs) as real / |xs| as real
  }

  /** A mean lies between any lower and upper bound of its elements. */
  lemma MeanBounds(xs: seq<int>, lo: int, hi: int)
    requires |xs| > 0
    requires forall i :: 0 <= i < |xs| ==> lo <= xs[i] <= hi
    ensures lo as real <= Mean(xs) <= hi as real
  {
    SumBounds(xs, lo, hi);
    LowerViaProduct(Sum(xs), |xs|, lo, Mean(xs));
    UpperViaProduct(Sum(xs), |xs|, hi, Mean(xs));
  }

  lemma LowerViaProduct(total: int, k: int, lo: int, m: real)
    requires k > 0 && k * lo <= total && m * k as real == total as real
    ensures lo as real <= m
  {
    IntProductAsReal(k, lo);
    assert lo as real * k as real <= m * k as real;
    CancelPositive(lo as real, m, k as real);
  }

  lemma UpperViaProduct(total: int, k: int, hi: int, m: real)
    requires k > 0 && total <= k * hi && m * k as real == total as real
    ensures m <= hi as real
  {
    IntProductAsReal(k, hi);
    assert m * k as real <= hi as real * k as real;
    CancelPositive(m, hi as real, k as real);
  }

  lemma IntProductAsReal(a: int, b: int)
    ensures (a * b) as real == b as real * a as real
  {
  }

  lemma CancelPositive(a: real, b: real, n: real)
    requires n > 0.0 && a * n <= b * n
    ensures a <= b
  {
  }
}
