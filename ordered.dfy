/** Tables whose rows a query returns newest first (Django's `ordering = ['-created_at']`):
    the model keeps each such table in that order, so every filter over it is ordered too. */
module Ordered {
  import opened Seqs

  /** A row comes no later than the one after it. */
  function Newer<T>(time: T -> int): (T, T) -> bool {
    (a: T, b: T) => time(a) >= time(b)
  }

  predicate NewestFirst<T>(s: seq<T>, time: T -> int) {
    Pairwise(s, Newer(time))
  }

  /** Where a row with timestamp `t` goes: after every strictly newer row. */
  function InsertPos<T>(s: seq<T>, time: T -> int, t: int): (k: nat)
    ensures k <= |s|
    ensures forall i :: 0 <= i < k ==> time(s[i]) > t
    ensures k < |s| ==> time(s[k]) <= t
  {
    if s == [] || time(s[0]) <= t then 0 else 1 + InsertPos(s[1..], time, t)
  }

  /** The table after saving row `x`. */
  function InsertNewest<T>(s: seq<T>, x: T, time: T -> int): seq<T> {
    var k := InsertPos(s, time, time(x));
    s[..k] + [x] + s[k..]
  }

  /** Where each row of the new table comes from. */
  lemma InsertNewestShape<T>(s: seq<T>, x: T, time: T -> int)
    ensures var k := InsertPos(s, time, time(x)); var r := InsertNewest(s, x, time);
      && |r| == |s| + 1 && r[k] == x
      && (forall i :: 0 <= i < k ==> r[i] == s[i])
      && (forall i :: k < i < |r| ==> r[i] == s[i - 1])
  {
  }

  /** Saving a row keeps the order. */
  lemma InsertNewestOrdered<T>(s: seq<T>, x: T, time: T -> int)
    requires NewestFirst(s, time)
    ensures NewestFirst(InsertNewest(s, x, time), time)
  {
    var k := InsertPos(s, time, time(x));
    var r := InsertNewest(s, x, time);
    InsertNewestShape(s, x, time);
    forall i, j | 0 <= i < j < |s| ensures time(s[i]) >= time(s[j]) {
      assert Newer(time)(s[i], s[j]);
    }
    forall i, j | 0 <= i < j < |r| ensures Newer(time)(r[i], r[j]) {
      assert time(r[i]) >= time(r[j]) by {
        if j < k {
        } else if j == k {
        } else if i < k {
        } else if i == k {
          if k < j - 1 {
            assert time(s[k]) >= time(s[j - 1]);
          }
        } else {
        }
      }
    }
  }

  /** Saving a row keeps the rows that were there and adds this one. */
  lemma InsertNewestContents<T>(s: seq<T>, x: T, time: T -> int)
    ensures multiset(InsertNewest(s, x, time)) == multiset(s) + multiset{x}
  {
    var k := InsertPos(s, time, time(x));
    assert s == s[..k] + s[k..];
  }

  /** The rows of the new table are the old rows and the saved one. */
  lemma InsertNewestMembers<T>(s: seq<T>, x: T, time: T -> int)
    ensures forall y :: y in InsertNewest(s, x, time) <==> y in s || y == x
  {
    InsertNewestContents(s, x, time);
    forall y ensures y in InsertNewest(s, x, time) <==> y in s || y == x {
      assert y in InsertNewest(s, x, time) <==> y in multiset(InsertNewest(s, x, time));
      assert y in s <==> y in multiset(s);
    }
  }

  /** A column that tells the old rows apart, and whose value for the saved row is new,
      tells the rows of the new table apart. */
  lemma InsertNewestInjective<T, U>(s: seq<T>, x: T, time: T -> int, f: T -> U)
    requires InjectiveOn(s, f) && forall i :: 0 <= i < |s| ==> f(s[i]) != f(x)
    ensures InjectiveOn(InsertNewest(s, x, time), f)
  {
    var k := InsertPos(s, time, time(x));
    var r := InsertNewest(s, x, time);
    InsertNewestShape(s, x, time);
    forall i, j | 0 <= i < j < |r| ensures f(r[i]) != f(r[j]) {
      if j < k {
        assert r[i] == s[i] && r[j] == s[j];
      } else if i > k {
        assert r[i] == s[i - 1] && r[j] == s[j - 1];
      } else if i < k && j > k {
        assert r[i] == s[i] && r[j] == s[j - 1];
      } else if i == k {
        assert r[j] == s[j - 1];
      } else {
        assert r[i] == s[i];
      }
    }
  }

  /** A fresh key keeps the key column free of duplicates and below the next key. */
  lemma InsertNewestKeyed<T>(s: seq<T>, x: T, time: T -> int, key: T -> nat, n: nat)
    requires InjectiveOn(s, key) && (forall i :: 0 <= i < |s| ==> key(s[i]) < n) && key(x) == n
    ensures InjectiveOn(InsertNewest(s, x, time), key)
    ensures forall i :: 0 <= i < |InsertNewest(s, x, time)| ==> key(InsertNewest(s, x, time)[i]) < n + 1
  {
    var k := InsertPos(s, time, time(x));
    var r := InsertNewest(s, x, time);
    InsertNewestShape(s, x, time);
    InsertNewestInjective(s, x, time, key);
    forall i | 0 <= i < |r| ensures key(r[i]) < n + 1 {
      if i < k { assert r[i] == s[i]; } else if i > k { assert r[i] == s[i - 1]; }
    }
  }

  /** A query over the new table counts the saved row once more when the row matches it. */
  lemma InsertNewestCount<T>(s: seq<T>, x: T, time: T -> int, p: T -> bool)
    ensures |Filter(InsertNewest(s, x, time), p)| == |Filter(s, p)| + (if p(x) then 1 else 0)
  {
    var k := InsertPos(s, time, time(x));
    FilterLengthConcat(s[..k] + [x], s[k..], p);
    FilterLengthConcat(s[..k], [x], p);
    FilterSingleton(x, p);
    FilterLengthSplit(s, k, p);
  }

  lemma FilterLengthSplit<T>(s: seq<T>, k: nat, p: T -> bool)
    requires k <= |s|
    ensures |Filter(s, p)| == |Filter(s[..k], p)| + |Filter(s[k..], p)|
  {
    FilterConcat(s[..k], s[k..], p);
    assert s[..k] + s[k..] == s;
  }

  lemma FilterLengthConcat<T>(a: seq<T>, b: seq<T>, p: T -> bool)
    ensures |Filter(a + b, p)| == |Filter(a, p)| + |Filter(b, p)|
  {
    FilterConcat(a, b, p);
  }

  lemma FilterSingleton<T>(x: T, p: T -> bool)
    ensures |Filter([x], p)| == if p(x) then 1 else 0
  {
    assert [x][1..] == [];
  }

  /** A query over an ordered table is ordered. */
  lemma FilterNewestFirst<T>(s: seq<T>, p: T -> bool, time: T -> int)
    requires NewestFirst(s, time)
    ensures NewestFirst(Filter(s, p), time)
  {
    FilterPairwise(s, p, Newer(time));
  }
}
