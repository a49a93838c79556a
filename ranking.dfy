/**
  The list operations of the ranking step: a stable sort in descending order of
  a key (Python's `list.sort(key=..., reverse=True)`, which keeps elements with
  equal keys in their original order) and the prefix slice `s[:n]`.
 */
module Ranking {

  predicate SortedDesc<T>(s: seq<T>, key: T -> real) {
    forall i, j :: 0 <= i < j < |s| ==> key(s[i]) >= key(s[j])
  }

  /** The elements of `s` whose key is `k`, in their order in `s`. */
  function WithKey<T>(s: seq<T>, key: T -> real, k: real): (r: seq<T>)
    ensures |r| <= |s|
  {
    if s == [] then []
    else if key(s[0]) == k then [s[0]] + WithKey(s[1..], key, k)
    else WithKey(s[1..], key, k)
  }

  /** No two elements of `s` share a value of `f`. */
  ghost predicate Distinct<T, K>(s: seq<T>, f: T -> K) {
    forall i, j :: 0 <= i < j < |s| ==> f(s[i]) != f(s[j])
  }

  ghost predicate IsPrefix<T>(a: seq<T>, b: seq<T>) {
    |a| <= |b| && a == b[..|a|]
  }

  // ---------------------------------------------------------------------------
  // Stable descending insertion sort
  // ---------------------------------------------------------------------------

  /** Places `x` before the first element whose key does not exceed its own. */
  function Insert<T>(x: T, s: seq<T>, key: T -> real): (r: seq<T>)
    ensures |r| == |s| + 1
  {
    if s == [] then [x]
    else if key(s[0]) <= key(x) then [x] + s
    else [s[0]] + Insert(x, s[1..], key)
  }

  function SortDesc<T>(s: seq<T>, key: T -> real): (r: seq<T>)
    ensures |r| == |s|
  {
    if s == [] then [] else Insert(s[0], SortDesc(s[1..], key), key)
  }

  lemma SortedTail<T>(s: seq<T>, key: T -> real)
    requires s != [] && SortedDesc(s, key)
    ensures SortedDesc(s[1..], key)
  {
    forall i, j | 0 <= i < j < |s[1..]| ensures key(s[1..][i]) >= key(s[1..][j]) {
      assert s[1..][i] == s[i + 1] && s[1..][j] == s[j + 1];
    }
  }

  /** Putting a head in front of a sorted sequence whose keys it bounds keeps it sorted. */
  lemma SortedCons<T>(x: T, s: seq<T>, key: T -> real)
    requires SortedDesc(s, key)
    requires forall j :: 0 <= j < |s| ==> key(x) >= key(s[j])
    ensures SortedDesc([x] + s, key)
  {
    var r := [x] + s;
    forall i, j | 0 <= i < j < |r| ensures key(r[i]) >= key(r[j]) {
      assert r[j] == s[j - 1];
      if i > 0 {
        assert r[i] == s[i - 1];
      }
    }
  }

  lemma {:induction false} InsertSorted<T>(x: T, s: seq<T>, key: T -> real)
    requires SortedDesc(s, key)
    ensures SortedDesc(Insert(x, s, key), key)
  {
    if s == [] {
    } else if key(s[0]) <= key(x) {
      forall j | 0 <= j < |s| ensures key(x) >= key(s[j]) {
        assert key(s[0]) >= key(s[j]);
      }
      SortedCons(x, s, key);
    } else {
      SortedTail(s, key);
      InsertSorted(x, s[1..], key);
      InsertPermutes(x, s[1..], key);
      var t := Insert(x, s[1..], key);
      forall j | 0 <= j < |t| ensures key(s[0]) >= key(t[j]) {
        assert t[j] in multiset(t);
        if t[j] != x {
          assert t[j] in multiset(s[1..]);
          var m :| 0 <= m < |s[1..]| && s[1..][m] == t[j];
          assert s[m + 1] == t[j];
        }
      }
      SortedCons(s[0], t, key);
    }
  }

  /** The sort's output is in descending order of the key. */
  lemma {:induction false} SortDescSorted<T>(s: seq<T>, key: T -> real)
    ensures SortedDesc(SortDesc(s, key), key)
  {
    if s != [] {
      SortDescSorted(s[1..], key);
      InsertSorted(s[0], SortDesc(s[1..], key), key);
    }
  }

  lemma {:induction false} InsertPermutes<T>(x: T, s: seq<T>, key: T -> real)
    ensures multiset(Insert(x, s, key)) == multiset(s) + multiset{x}
  {
    if s != [] && key(s[0]) > key(x) {
      InsertPermutes(x, s[1..], key);
      assert s == [s[0]] + s[1..];
    }
  }

  /** The sort's output is a permutation of its input. */
  lemma {:induction false} SortDescPermutes<T>(s: seq<T>, key: T -> real)
    ensures multiset(SortDesc(s, key)) == multiset(s)
  {
    if s != [] {
      SortDescPermutes(s[1..], key);
      InsertPermutes(s[0], SortDesc(s[1..], key), key);
      assert s == [s[0]] + s[1..];
    }
  }

  lemma {:induction false} InsertKeepsTies<T>(x: T, s: seq<T>, key: T -> real, k: real)
    ensures WithKey(Insert(x, s, key), key, k) == WithKey([x] + s, key, k)
  {
    if s != [] && key(s[0]) > key(x) {
      InsertKeepsTies(x, s[1..], key, k);
      assert ([s[0]] + Insert(x, s[1..], key))[1..] == Insert(x, s[1..], key);
      assert ([x] + s)[1..] == s;
      assert ([x] + s[1..])[1..] == s[1..];
      assert s[1..] == s[1..];
    } else if s != [] {
      assert ([x] + s)[1..] == s;
    }
  }

  /**
    Stability: for every key value, the elements carrying it come out in the
    order they went in.
   */
  lemma {:induction false} SortDescStable<T>(s: seq<T>, key: T -> real, k: real)
    ensures WithKey(SortDesc(s, key), key, k) == WithKey(s, key, k)
  {
    if s != [] {
      SortDescStable(s[1..], key, k);
      InsertKeepsTies(s[0], SortDesc(s[1..], key), key, k);
      assert ([s[0]] + SortDesc(s[1..], key))[1..] == SortDesc(s[1..], key);
    }
  }

  lemma DistinctTail<T, K>(s: seq<T>, f: T -> K)
    requires s != [] && Distinct(s, f)
    ensures Distinct(s[1..], f)
  {
    forall i, j | 0 <= i < j < |s[1..]| ensures f(s[1..][i]) != f(s[1..][j]) {
      assert s[1..][i] == s[i + 1] && s[1..][j] == s[j + 1];
    }
  }

  /** A head whose value differs from every value in a distinct sequence keeps it distinct. */
  lemma ConsDistinct<T, K>(x: T, s: seq<T>, f: T -> K)
    requires Distinct(s, f)
    requires forall y :: y in s ==> f(y) != f(x)
    ensures Distinct([x] + s, f)
  {
    var r := [x] + s;
    forall i, j | 0 <= i < j < |r| ensures f(r[i]) != f(r[j]) {
      assert r[j] == s[j - 1];
      if i == 0 {
        assert r[j] in s;
      } else {
        assert r[i] == s[i - 1];
      }
    }
  }

  lemma {:induction false} InsertDistinct<T, K>(x: T, s: seq<T>, key: T -> real, f: T -> K)
    requires Distinct(s, f)
    requires forall y :: y in s ==> f(y) != f(x)
    ensures Distinct(Insert(x, s, key), f)
  {
    if s == [] {
    } else if key(s[0]) <= key(x) {
      ConsDistinct(x, s, f);
    } else {
      DistinctTail(s, f);
      InsertDistinct(x, s[1..], key, f);
      InsertPermutes(x, s[1..], key);
      var t := Insert(x, s[1..], key);
      forall y | y in t ensures f(y) != f(s[0]) {
        assert y in multiset(t);
        if y != x {
          assert y in multiset(s[1..]);
          var m :| 0 <= m < |s[1..]| && s[1..][m] == y;
          assert s[m + 1] == y;
        }
      }
      ConsDistinct(s[0], t, f);
    }
  }

  /** Sorting keeps distinct values of `f` distinct. */
  lemma {:induction false} SortDescDistinct<T, K>(s: seq<T>, key: T -> real, f: T -> K)
    requires Distinct(s, f)
    ensures Distinct(SortDesc(s, key), f)
  {
    if s != [] {
      var rest := SortDesc(s[1..], key);
      DistinctTail(s, f);
      SortDescDistinct(s[1..], key, f);
      SortDescPermutes(s[1..], key);
      forall y | y in rest ensures f(y) != f(s[0]) {
        assert y in multiset(rest);
        assert y in s[1..];
        var m :| 0 <= m < |s[1..]| && s[1..][m] == y;
        assert s[m + 1] == y;
      }
      InsertDistinct(s[0], rest, key, f);
    }
  }

  // ---------------------------------------------------------------------------
  // Python slicing `s[:n]`
  // ---------------------------------------------------------------------------

  /** The first `n` elements; a negative `n` drops the last `-n` instead. */
  function Take<T>(s: seq<T>, n: int): (r: seq<T>)
    ensures IsPrefix(r, s)
    ensures n >= 0 ==> |r| == if n < |s| then n else |s|
    ensures n < 0 ==> |r| == if |s| + n > 0 then |s| + n else 0
  {
    if n >= 0 then (if n < |s| then s[..n] else s)
    else (if |s| + n > 0 then s[..|s| + n] else [])
  }

  /** A prefix keeps, for every key value, a prefix of the elements carrying it. */
  lemma {:induction false} PrefixWithKey<T>(a: seq<T>, b: seq<T>, key: T -> real, k: real)
    requires IsPrefix(a, b)
    ensures IsPrefix(WithKey(a, key, k), WithKey(b, key, k))
  {
    if a != [] {
      assert a[1..] == b[1..][..|a| - 1];
      PrefixWithKey(a[1..], b[1..], key, k);
    }
  }

  lemma PrefixSorted<T>(a: seq<T>, b: seq<T>, key: T -> real)
    requires IsPrefix(a, b) && SortedDesc(b, key)
    ensures SortedDesc(a, key)
  {
    forall i, j | 0 <= i < j < |a| ensures key(a[i]) >= key(a[j]) {
      assert a[i] == b[i] && a[j] == b[j];
    }
  }

  lemma PrefixDistinct<T, K>(a: seq<T>, b: seq<T>, f: T -> K)
    requires IsPrefix(a, b) && Distinct(b, f)
    ensures Distinct(a, f)
  {
    forall i, j | 0 <= i < j < |a| ensures f(a[i]) != f(a[j]) {
      assert a[i] == b[i] && a[j] == b[j];
    }
  }

  /** The first `n` elements of the sorted sequence are sorted, within bounds, and drawn from the input. */
  lemma TopOfSorted<T>(s: seq<T>, key: T -> real, n: int)
    ensures SortedDesc(Take(SortDesc(s, key), n), key)
    ensures |Take(SortDesc(s, key), n)| <= |s| && (n >= 0 ==> |Take(SortDesc(s, key), n)| <= n)
    ensures multiset(Take(SortDesc(s, key), n)) <= multiset(s)
  {
    var sorted := SortDesc(s, key);
    var out := Take(sorted, n);
    SortDescSorted(s, key);
    SortDescPermutes(s, key);
    PrefixSorted(out, sorted, key);
    assert sorted == out + sorted[|out|..];
    assert multiset(sorted) == multiset(out) + multiset(sorted[|out|..]);
  }

  /** No input element left out of the first `n` has a larger key than one kept. */
  lemma TopKeepsBest<T>(s: seq<T>, key: T -> real, n: int)
    ensures forall x, y :: x in s && x !in Take(SortDesc(s, key), n) && y in Take(SortDesc(s, key), n) ==> key(x) <= key(y)
  {
    var sorted := SortDesc(s, key);
    var out := Take(sorted, n);
    SortDescSorted(s, key);
    SortDescPermutes(s, key);
    forall x, y | x in s && x !in out && y in out
      ensures key(x) <= key(y)
    {
      assert x in multiset(sorted);
      var j :| 0 <= j < |sorted| && sorted[j] == x;
      var i :| 0 <= i < |out| && out[i] == y;
      assert out[i] == sorted[i];
    }
  }
}
