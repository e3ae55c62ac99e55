/**
 * Sequence operations behind the `filter`, `find`, `slice` chains of the
 * client: order-preserving filtering, first-match search, JavaScript's
 * `Array.prototype.slice` with its negative-index and clamping rules, and
 * the subsequence relation these are proved against.
 */
module Seqs {
  import opened Wrappers

  /** `a` is obtained from `b` by deleting elements, keeping the order. */
  predicate IsSubsequence<T(==)>(a: seq<T>, b: seq<T>)
    decreases |b|
  {
    a == [] || (b != [] && ((a[0] == b[0] && IsSubsequence(a[1..], b[1..])) || IsSubsequence(a, b[1..])))
  }

  lemma {:induction false} SubsequenceMembers<T>(a: seq<T>, b: seq<T>)
    requires IsSubsequence(a, b)
    ensures |a| <= |b|
    ensures forall x :: x in a ==> x in b
    decreases |b|
  {
    if a != [] {
      if a[0] == b[0] && IsSubsequence(a[1..], b[1..]) {
        SubsequenceMembers(a[1..], b[1..]);
        assert a == [a[0]] + a[1..];
      } else {
        SubsequenceMembers(a, b[1..]);
      }
    }
  }

  lemma {:induction false} SubsequenceTransitive<T>(a: seq<T>, b: seq<T>, c: seq<T>)
    requires IsSubsequence(a, b) && IsSubsequence(b, c)
    ensures IsSubsequence(a, c)
    decreases |c|
  {
    if a != [] {
      if IsSubsequence(b, c[1..]) {
        SubsequenceTransitive(a, b, c[1..]);
      } else {
        if a[0] == b[0] && IsSubsequence(a[1..], b[1..]) {
          SubsequenceTransitive(a[1..], b[1..], c[1..]);
        } else {
          SubsequenceTransitive(a, b[1..], c[1..]);
        }
      }
    }
  }

  lemma {:induction false} SubsequenceReflexive<T>(s: seq<T>)
    ensures IsSubsequence(s, s)
    decreases |s|
  {
    if s != [] {
      SubsequenceReflexive(s[1..]);
    }
  }

  /** A contiguous slice is a subsequence. */
  lemma {:induction false} SliceIsSubsequence<T>(s: seq<T>, i: nat, j: nat)
    requires i <= j <= |s|
    ensures IsSubsequence(s[i..j], s)
    decreases |s|
  {
    if i < j {
      if i == 0 {
        SliceIsSubsequence(s[1..], 0, j - 1);
        assert s[1..][0..j - 1] == s[0..j][1..];
      } else {
        SliceIsSubsequence(s[1..], i - 1, j - 1);
        assert s[1..][i - 1..j - 1] == s[i..j];
      }
    }
  }

  /** A prefix of a subsequence is a subsequence. */
  lemma PrefixOfSubsequence<T>(a: seq<T>, b: seq<T>, c: seq<T>)
    requires a <= b && IsSubsequence(b, c)
    ensures IsSubsequence(a, c)
  {
    SliceIsSubsequence(b, 0, |a|);
    assert b[0..|a|] == a;
    SubsequenceTransitive(a, b, c);
  }

  // ---------------------------------------------------------------- filter

  /** `s.filter(p)` */
  function Filter<T>(s: seq<T>, p: T -> bool): (r: seq<T>)
    ensures forall x :: x in r ==> x in s && p(x)
    ensures forall x :: x in s && p(x) ==> x in r
    ensures IsSubsequence(r, s)
    decreases |s|
  {
    if s == [] then []
    else
      var rest := Filter(s[1..], p);
      assert forall x :: x in s[1..] ==> x in s;
      if p(s[0]) then
        assert ([s[0]] + rest)[1..] == rest;
        [s[0]] + rest
      else rest
  }

  /** Filtering keeps every element that satisfies the predicate as often as it occurs. */
  lemma {:induction false} FilterKeepsCounts<T>(s: seq<T>, p: T -> bool)
    ensures forall x :: x in s && p(x) ==> multiset(Filter(s, p))[x] == multiset(s)[x]
    decreases |s|
  {
    if s != [] {
      FilterKeepsCounts(s[1..], p);
      assert s == [s[0]] + s[1..];
      assert forall x :: x in s && x != s[0] ==> x in s[1..];
    }
  }

  /** Filtering with a predicate every element satisfies changes nothing. */
  lemma {:induction false} FilterKeepsAll<T>(s: seq<T>, p: T -> bool)
    requires forall x :: x in s ==> p(x)
    ensures Filter(s, p) == s
    decreases |s|
  {
    if s != [] {
      assert forall x :: x in s[1..] ==> x in s;
      FilterKeepsAll(s[1..], p);
    }
  }

  /** Predicates that agree on the elements filter alike. */
  lemma {:induction false} FilterCongruent<T>(s: seq<T>, p: T -> bool, q: T -> bool)
    requires forall x :: x in s ==> p(x) == q(x)
    ensures Filter(s, p) == Filter(s, q)
    decreases |s|
  {
    if s != [] {
      assert forall x :: x in s[1..] ==> x in s;
      FilterCongruent(s[1..], p, q);
    }
  }

  /** A stronger predicate keeps a subsequence of what a weaker one keeps. */
  lemma {:induction false} FilterMonotone<T>(s: seq<T>, p: T -> bool, q: T -> bool)
    requires forall x :: x in s && p(x) ==> q(x)
    ensures IsSubsequence(Filter(s, p), Filter(s, q))
    decreases |s|
  {
    if s != [] {
      assert forall x :: x in s[1..] ==> x in s;
      FilterMonotone(s[1..], p, q);
      var rp, rq := Filter(s[1..], p), Filter(s[1..], q);
      if p(s[0]) {
        assert ([s[0]] + rp)[1..] == rp && ([s[0]] + rq)[1..] == rq;
      } else if q(s[0]) {
        assert ([s[0]] + rq)[1..] == rq;
        if rp != [] {
          SubsequenceReflexive(rq);
          assert ([s[0]] + rq)[1..] == rq;
          SubsequenceTransitive(rp, rq, [s[0]] + rq);
        }
      }
    }
  }

  // ---------------------------------------------------------------- find

  /** Index of the first element satisfying `p` (`findIndex`, as an option). */
  function FindIndex<T>(s: seq<T>, p: T -> bool): (r: Option<nat>)
    ensures r.Some? ==> r.value < |s| && p(s[r.value])
    ensures r.Some? ==> forall j :: 0 <= j < r.value ==> !p(s[j])
    ensures r.None? ==> forall j :: 0 <= j < |s| ==> !p(s[j])
    decreases |s|
  {
    if s == [] then None
    else if p(s[0]) then Some(0)
    else match FindIndex(s[1..], p)
      case None => None
      case Some(i) => Some(i + 1)
  }

  /** `s.find(p)`, with `undefined` as `None`. */
  function Find<T>(s: seq<T>, p: T -> bool): (r: Option<T>)
    ensures r.Some? ==> exists i :: 0 <= i < |s| && s[i] == r.value && p(s[i]) && forall j :: 0 <= j < i ==> !p(s[j])
    ensures r.None? ==> forall j :: 0 <= j < |s| ==> !p(s[j])
  {
    match FindIndex(s, p)
    case None => None
    case Some(i) => Some(s[i])
  }

  // ---------------------------------------------------------------- slice

  /** Resolves one `slice` argument: negative counts from the end, then clamp to `[0, len]`. */
  function SliceIndex(len: nat, k: int): (r: nat)
    ensures r <= len
    ensures 0 <= k <= len ==> r == k
  {
    if k < 0 then (if len + k < 0 then 0 else len + k)
    else if k > len then len
    else k
  }

  /** `s.slice(start, end)` */
  function JsSlice<T>(s: seq<T>, start: int, end: int): (r: seq<T>)
    ensures |r| <= |s|
  {
    var lo, hi := SliceIndex(|s|, start), SliceIndex(|s|, end);
    if lo < hi then s[lo..hi] else []
  }

  /**
   * On arguments of the same sign, resolving slice arguments is monotone and
   * never widens a range (across signs it is not: `slice(0, -1)` drops only
   * the last element).
   */
  lemma SliceIndexMonotone(len: nat, k1: int, k2: int)
    requires k1 <= k2
    requires k1 >= 0 || k2 < 0
    ensures SliceIndex(len, k1) <= SliceIndex(len, k2)
    ensures SliceIndex(len, k2) - SliceIndex(len, k1) <= k2 - k1
  {
  }

  /** A slice whose bounds are both non-negative, or both non-positive, holds at most `end - start` elements. */
  lemma JsSliceBounds<T>(s: seq<T>, start: int, end: int)
    requires start <= end
    requires start >= 0 || end <= 0
    ensures |JsSlice(s, start, end)| <= end - start
  {
    if end < 0 || start >= 0 {
      SliceIndexMonotone(|s|, start, end);
    }
  }

  lemma JsSliceSubsequence<T>(s: seq<T>, start: int, end: int)
    ensures IsSubsequence(JsSlice(s, start, end), s)
  {
    var lo, hi := SliceIndex(|s|, start), SliceIndex(|s|, end);
    if lo < hi {
      SliceIsSubsequence(s, lo, hi);
    }
  }

  /** `s.slice(0, n)` is the first `min(n, |s|)` elements. */
  lemma JsSlicePrefix<T>(s: seq<T>, n: nat)
    ensures JsSlice(s, 0, n) == if n <= |s| then s[..n] else s
  {
  }
}
