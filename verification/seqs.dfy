/**
 * Order-preserving filtering over sequences (the behaviour of
 * `Array.prototype.filter`) and the facts about it the rest of the model uses.
 */
module Seqs {

  /** `a` can be obtained from `b` by deleting elements, without reordering. */
  predicate IsSubseq<T(==)>(a: seq<T>, b: seq<T>)
    decreases |b|
  {
    |a| == 0 ||
    (|b| > 0 && ((a[0] == b[0] && IsSubseq(a[1..], b[1..])) || IsSubseq(a, b[1..])))
  }

  /** The elements of `xs` satisfying `p`, in their original order. */
  function Filter<T(!new)>(xs: seq<T>, p: T -> bool): (r: seq<T>)
    ensures |r| <= |xs|
    ensures forall i :: 0 <= i < |r| ==> p(r[i])
    ensures forall x :: x in r <==> x in xs && p(x)
  {
    if |xs| == 0 then []
    else if p(xs[0]) then [xs[0]] + Filter(xs[1..], p)
    else Filter(xs[1..], p)
  }

  /** Filtering never reorders: the result is a subsequence of the input. */
  lemma {:induction false} FilterIsSubseq<T(!new)>(xs: seq<T>, p: T -> bool)
    ensures IsSubseq(Filter(xs, p), xs)
  {
    if |xs| > 0 {
      FilterIsSubseq(xs[1..], p);
    }
  }

  /** Each element occurs in the result exactly as often as in the input when it
      satisfies `p`, and not at all otherwise. */
  lemma {:induction false} FilterCount<T(!new)>(xs: seq<T>, p: T -> bool, x: T)
    ensures multiset(Filter(xs, p))[x] == if p(x) then multiset(xs)[x] else 0
  {
    if |xs| > 0 {
      FilterCount(xs[1..], p, x);
      assert xs == [xs[0]] + xs[1..];
      assert multiset(xs) == multiset{xs[0]} + multiset(xs[1..]);
      if p(xs[0]) {
        assert multiset(Filter(xs, p)) == multiset{xs[0]} + multiset(Filter(xs[1..], p));
      }
    }
  }

  /** A filter that keeps every element of `xs` is the identity on `xs`. */
  lemma {:induction false} FilterKeepsAll<T(!new)>(xs: seq<T>, p: T -> bool)
    requires forall i :: 0 <= i < |xs| ==> p(xs[i])
    ensures Filter(xs, p) == xs
  {
    if |xs| > 0 {
      FilterKeepsAll(xs[1..], p);
      assert xs == [xs[0]] + xs[1..];
    }
  }

  /** Filtering twice with the same predicate is filtering once. */
  lemma FilterIdempotent<T(!new)>(xs: seq<T>, p: T -> bool)
    ensures Filter(Filter(xs, p), p) == Filter(xs, p)
  {
    FilterKeepsAll(Filter(xs, p), p);
  }

  /** Predicates that agree on the elements of `xs` filter it identically. */
  lemma {:induction false} FilterExtensional<T(!new)>(xs: seq<T>, p: T -> bool, q: T -> bool)
    requires forall i :: 0 <= i < |xs| ==> p(xs[i]) == q(xs[i])
    ensures Filter(xs, p) == Filter(xs, q)
  {
    if |xs| > 0 {
      FilterExtensional(xs[1..], p, q);
    }
  }

  /** Two filters commute. */
  lemma {:induction false} FilterCommutes<T(!new)>(xs: seq<T>, p: T -> bool, q: T -> bool)
    ensures Filter(Filter(xs, p), q) == Filter(Filter(xs, q), p)
  {
    if |xs| > 0 {
      FilterCommutes(xs[1..], p, q);
      var x, rest := xs[0], xs[1..];
      if p(x) {
        assert Filter(xs, p) == [x] + Filter(rest, p);
        assert Filter(xs, p)[1..] == Filter(rest, p);
      }
      if q(x) {
        assert Filter(xs, q) == [x] + Filter(rest, q);
        assert Filter(xs, q)[1..] == Filter(rest, q);
      }
    }
  }

  /** Filtering distributes over concatenation. */
  lemma {:induction false} FilterAppend<T(!new)>(a: seq<T>, b: seq<T>, p: T -> bool)
    ensures Filter(a + b, p) == Filter(a, p) + Filter(b, p)
  {
    if |a| == 0 {
      assert a + b == b;
    } else {
      var ab := a + b;
      assert ab[0] == a[0];
      assert ab[1..] == a[1..] + b;
      FilterAppend(a[1..], b, p);
    }
  }

  /** The first `k` elements of `s` followed by the next ones up to `m` are the
      first `m` elements. */
  lemma PrefixExtend<T(!new)>(s: seq<T>, k: nat, m: nat)
    requires k <= m <= |s|
    ensures s[..k] + s[k..m] == s[..m]
  {
  }

  /** Filtering by `p` and then by `q` is filtering once by their conjunction. */
  lemma {:induction false} FilterFuse<T(!new)>(xs: seq<T>, p: T -> bool, q: T -> bool, pq: T -> bool)
    requires forall i :: 0 <= i < |xs| ==> pq(xs[i]) == (p(xs[i]) && q(xs[i]))
    ensures Filter(Filter(xs, p), q) == Filter(xs, pq)
  {
    if |xs| > 0 {
      FilterFuse(xs[1..], p, q, pq);
      if p(xs[0]) {
        assert Filter(xs, p) == [xs[0]] + Filter(xs[1..], p);
        assert Filter(xs, p)[1..] == Filter(xs[1..], p);
      }
    }
  }

  /** Index arithmetic of `Array.prototype.slice`: a negative index counts from
      the end, and the result is clamped to `[0, n]`. */
  function SliceIndex(i: int, n: nat): (k: nat)
    ensures k <= n
    ensures 0 <= i ==> k == if i <= n then i else n
    ensures i < 0 ==> k == if n + i >= 0 then n + i else 0
  {
    if i < 0 then (if n + i < 0 then 0 else n + i)
    else if i > n then n
    else i
  }

  /** `s.slice(start, end)`. */
  function JsSlice<T>(s: seq<T>, start: int, end: int): (r: seq<T>)
    ensures 0 <= start <= end ==> |r| <= end - start
    ensures 0 <= start <= end && end <= |s| ==> r == s[start..end]
    ensures 0 <= start <= end && start <= |s| <= end ==> r == s[start..]
    ensures 0 <= start && |s| <= start ==> r == []
  {
    var a := SliceIndex(start, |s|);
    var b := SliceIndex(end, |s|);
    if a < b then s[a..b] else []
  }

  /** A property of every element of `w` holds of every element of its slices. */
  lemma SliceKeeps<T>(w: seq<T>, start: int, end: int, p: T -> bool)
    requires forall x :: x in w ==> p(x)
    ensures forall x :: x in JsSlice(w, start, end) ==> p(x)
  {
    var a, b := SliceIndex(start, |w|), SliceIndex(end, |w|);
    forall x | x in JsSlice(w, start, end) ensures p(x) {
      var i :| 0 <= i < |w[a..b]| && w[a..b][i] == x;
      assert w[a + i] == x;
    }
  }

  /** A non-empty sequence is its prefix followed by its last element. */
  lemma SplitLast<T>(xs: seq<T>)
    requires |xs| > 0
    ensures xs == xs[..|xs| - 1] + [xs[|xs| - 1]]
  {
  }

  /** `SliceTile` for three slices already at hand. */
  lemma TileParts<T>(w: seq<T>, x: seq<T>, y: seq<T>, z: seq<T>, limit: nat, offset: nat)
    requires x == JsSlice(w, offset, offset + limit)
    requires y == JsSlice(w, offset + limit, offset + limit + limit)
    requires z == JsSlice(w, offset, offset + 2 * limit)
    ensures x + y == z
  {
    SliceTile(w, limit, offset);
  }

  /** Two adjacent slices of length `limit` make one slice of length `2 * limit`. */
  lemma SliceTile<T>(w: seq<T>, limit: nat, offset: nat)
    ensures JsSlice(w, offset, offset + limit) + JsSlice(w, offset + limit, offset + limit + limit)
         == JsSlice(w, offset, offset + 2 * limit)
  {
    var n := |w|;
    var a := if offset <= n then offset else n;
    var b := if offset + limit <= n then offset + limit else n;
    var c := if offset + 2 * limit <= n then offset + 2 * limit else n;
    assert JsSlice(w, offset, offset + limit) == w[a..b];
    assert JsSlice(w, offset + limit, offset + limit + limit) == w[b..c];
    assert JsSlice(w, offset, offset + 2 * limit) == w[a..c];
    assert w[a..b] + w[b..c] == w[a..c];
  }

  /** A prefix of `w` followed by the next slice of `w` is a longer prefix. */
  lemma SliceExtendsPrefix<T>(w: seq<T>, k: nat, limit: nat)
    ensures w[..if k <= |w| then k else |w|] + JsSlice(w, k, k + limit)
         == w[..if k + limit <= |w| then k + limit else |w|]
  {
  }
}
