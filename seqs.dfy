/** Order-preserving filters and prefixes over sequences: the shape of every Django
    queryset `filter`, `exclude` and slice in the model. */
module Seqs {

  /** The elements of `s` that satisfy `p`, in their original order. */
  function Filter<T(==)>(s: seq<T>, p: T -> bool): (r: seq<T>)
    ensures |r| <= |s|
    ensures forall i :: 0 <= i < |r| ==> r[i] in s && p(r[i])
    ensures forall i :: 0 <= i < |s| && p(s[i]) ==> s[i] in r
  {
    if s == [] then []
    else if p(s[0]) then [s[0]] + Filter(s[1..], p)
    else Filter(s[1..], p)
  }

  /** The first `n` elements of `s` (Python's `s[:n]`). */
  function Take<T>(s: seq<T>, n: nat): (r: seq<T>)
    ensures |r| == if |s| <= n then |s| else n
    ensures r <= s
  {
    if |s| <= n then s else s[..n]
  }

  /** The set of values `f` gives on the elements of `s`. */
  function Image<T, U>(s: seq<T>, f: T -> U): set<U> {
    set i | 0 <= i < |s| :: f(s[i])
  }

  /** `f` tells apart the elements of `s` (an id column that has no duplicates). */
  predicate InjectiveOn<T, U(==)>(s: seq<T>, f: T -> U) {
    forall i, j :: 0 <= i < j < |s| ==> f(s[i]) != f(s[j])
  }

  lemma {:induction false} FilterKeepsAll<T>(s: seq<T>, p: T -> bool)
    requires forall x :: x in s ==> p(x)
    ensures Filter(s, p) == s
  {
    if s != [] {
      FilterKeepsAll(s[1..], p);
    }
  }

  lemma {:induction false} FilterKeepsNone<T>(s: seq<T>, p: T -> bool)
    requires forall x :: x in s ==> !p(x)
    ensures Filter(s, p) == []
  {
    if s != [] {
      FilterKeepsNone(s[1..], p);
    }
  }

  /** Filtering splits a sequence: what `p` keeps and what it drops add up to the whole. */
  lemma {:induction false} FilterSplits<T>(s: seq<T>, p: T -> bool, q: T -> bool)
    requires forall x :: x in s ==> (q(x) <==> !p(x))
    ensures |Filter(s, p)| + |Filter(s, q)| == |s|
  {
    if s != [] {
      FilterSplits(s[1..], p, q);
    }
  }

  /** Filtering with `p` and then `q` is filtering with both. */
  lemma {:induction false} FilterFilter<T>(s: seq<T>, p: T -> bool, q: T -> bool, pq: T -> bool)
    requires forall x :: pq(x) == (p(x) && q(x))
    ensures Filter(Filter(s, p), q) == Filter(s, pq)
  {
    if s != [] {
      FilterFilter(s[1..], p, q, pq);
    }
  }

  /** A filter keeps every matching element as often as it occurs and drops the others. */
  lemma {:induction false} FilterMultiplicity<T>(s: seq<T>, p: T -> bool)
    ensures forall x :: x in s ==> multiset(Filter(s, p))[x] == if p(x) then multiset(s)[x] else 0
  {
    if s != [] {
      FilterMultiplicity(s[1..], p);
      assert s == [s[0]] + s[1..];
    }
  }

  /** Filtering a concatenation filters each part. */
  lemma {:induction false} FilterConcat<T>(a: seq<T>, b: seq<T>, p: T -> bool)
    ensures Filter(a + b, p) == Filter(a, p) + Filter(b, p)
  {
    if a != [] {
      FilterConcat(a[1..], b, p);
      assert (a + b)[1..] == a[1..] + b;
    } else {
      assert a + b == b;
    }
  }

  /** Filtering a sequence built by prepending one element. */
  lemma FilterCons<T>(x: T, s: seq<T>, p: T -> bool)
    ensures Filter([x] + s, p) == if p(x) then [x] + Filter(s, p) else Filter(s, p)
  {
    assert ([x] + s)[1..] == s;
  }

  /** Dropping the first element keeps the elements told apart. */
  lemma InjectiveTail<T, U>(s: seq<T>, f: T -> U)
    requires s != [] && InjectiveOn(s, f)
    ensures InjectiveOn(s[1..], f)
  {
    forall i, j | 0 <= i < j < |s[1..]| ensures f(s[1..][i]) != f(s[1..][j]) {
      assert s[1..][i] == s[i + 1] && s[1..][j] == s[j + 1];
    }
  }

  /** `R` holds between every element and each later one. */
  predicate Pairwise<T>(s: seq<T>, R: (T, T) -> bool) {
    forall i, j :: 0 <= i < j < |s| ==> R(s[i], s[j])
  }

  lemma PairwiseTail<T>(s: seq<T>, R: (T, T) -> bool)
    requires s != [] && Pairwise(s, R)
    ensures Pairwise(s[1..], R)
  {
    forall i, j | 0 <= i < j < |s[1..]| ensures R(s[1..][i], s[1..][j]) {
      assert s[1..][i] == s[i + 1] && s[1..][j] == s[j + 1];
    }
  }

  /** A filter keeps the relative order of what it keeps, so a pairwise property survives it. */
  lemma {:induction false} FilterPairwise<T>(s: seq<T>, p: T -> bool, R: (T, T) -> bool)
    requires Pairwise(s, R)
    ensures Pairwise(Filter(s, p), R)
  {
    if s != [] {
      var t := s[1..];
      PairwiseTail(s, R);
      FilterPairwise(t, p, R);
      if p(s[0]) {
        var tail := Filter(t, p);
        assert Filter(s, p) == [s[0]] + tail;
        forall y | y in tail ensures R(s[0], y) {
          var k :| 0 <= k < |t| && t[k] == y;
          assert t[k] == s[k + 1];
        }
        PairwiseCons(s[0], tail, R);
      }
    }
  }

  /** Prepending an element related to everything after it keeps a pairwise property. */
  lemma PairwiseCons<T>(x: T, tail: seq<T>, R: (T, T) -> bool)
    requires Pairwise(tail, R)
    requires forall y :: y in tail ==> R(x, y)
    ensures Pairwise([x] + tail, R)
  {
    var r := [x] + tail;
    forall i, j | 0 <= i < j < |r| ensures R(r[i], r[j]) {
      assert r[j] == tail[j - 1];
      if i > 0 {
        assert r[i] == tail[i - 1];
      }
    }
  }

  /** A filter keeps an id column without duplicates. */
  lemma FilterInjective<T, U>(s: seq<T>, p: T -> bool, f: T -> U)
    requires InjectiveOn(s, f)
    ensures InjectiveOn(Filter(s, p), f)
  {
    var R := (a: T, b: T) => f(a) != f(b);
    assert Pairwise(s, R);
    FilterPairwise(s, p, R);
    var r := Filter(s, p);
    forall i, j | 0 <= i < j < |r| ensures f(r[i]) != f(r[j]) {
      assert R(r[i], r[j]);
    }
  }

  /** A sequence whose elements `f` tells apart has as many elements as `f` has values on it. */
  lemma {:induction false} InjectiveImageSize<T, U>(s: seq<T>, f: T -> U)
    requires InjectiveOn(s, f)
    ensures |Image(s, f)| == |s|
  {
    if s != [] {
      var t := s[1..];
      InjectiveTail(s, f);
      InjectiveImageSize(t, f);
      assert Image(s, f) == {f(s[0])} + Image(t, f) by {
        forall y | y in Image(s, f) ensures y in {f(s[0])} + Image(t, f) {
          var i :| 0 <= i < |s| && f(s[i]) == y;
          if i > 0 { assert s[i] == t[i - 1]; }
        }
        forall y | y in Image(t, f) ensures y in Image(s, f) {
          var i :| 0 <= i < |t| && f(t[i]) == y;
          assert s[i + 1] == t[i];
        }
      }
      forall i | 0 <= i < |t| ensures f(t[i]) != f(s[0]) {
        assert t[i] == s[i + 1];
      }
      assert f(s[0]) !in Image(t, f);
    }
  }
}
