/**
 * The list operations the application applies to arrays: `filter` that drops the
 * elements with a given key, and a stable `sort` by a numeric key.
 */
module Lists {

  function Identity<T>(x: T): T { x }

  /** `s.filter(x => key(x) !== k)`. */
  function Without<T(==,!new), K(==)>(s: seq<T>, key: T -> K, k: K): (r: seq<T>)
    ensures forall x :: x in r <==> x in s && key(x) != k
    ensures |r| <= |s|
    decreases |s|
  {
    if s == [] then []
    else (if key(s[0]) == k then [] else [s[0]]) + Without(s[1..], key, k)
  }

  /** Filtering distributes over concatenation, so the kept elements stay in their order. */
  lemma {:induction false} WithoutAppend<T(!new), K>(a: seq<T>, b: seq<T>, key: T -> K, k: K)
    ensures Without(a + b, key, k) == Without(a, key, k) + Without(b, key, k)
    decreases |a|
  {
    if a != [] {
      assert (a + b)[1..] == a[1..] + b;
      WithoutAppend(a[1..], b, key, k);
    } else {
      assert a + b == b;
    }
  }

  /** Every element without the key keeps its number of occurrences; the others are all gone. */
  lemma {:induction false} WithoutCount<T(!new), K>(s: seq<T>, key: T -> K, k: K, x: T)
    ensures multiset(Without(s, key, k))[x] == if key(x) == k then 0 else multiset(s)[x]
    decreases |s|
  {
    if s != [] {
      var tail := Without(s[1..], key, k);
      WithoutCount(s[1..], key, k, x);
      assert s == [s[0]] + s[1..];
      assert multiset(s) == multiset{s[0]} + multiset(s[1..]);
      if key(s[0]) == k {
        assert Without(s, key, k) == tail;
      } else {
        assert Without(s, key, k) == [s[0]] + tail;
        assert multiset(Without(s, key, k)) == multiset{s[0]} + multiset(tail);
      }
    }
  }

  /** A list without any element of the key is left as it is. */
  lemma {:induction false} WithoutNothingToRemove<T(!new), K>(s: seq<T>, key: T -> K, k: K)
    requires forall x :: x in s ==> key(x) != k
    ensures Without(s, key, k) == s
    decreases |s|
  {
    if s != [] {
      WithoutNothingToRemove(s[1..], key, k);
      assert s == [s[0]] + s[1..];
    }
  }

  /** Filtering twice is filtering once. */
  lemma WithoutIdempotent<T(!new), K>(s: seq<T>, key: T -> K, k: K)
    ensures Without(Without(s, key, k), key, k) == Without(s, key, k)
  {
    WithoutNothingToRemove(Without(s, key, k), key, k);
  }

  /** `r` is `s` with some elements left out, the rest in their order (checked greedily). */
  predicate Subsequence<T(==)>(r: seq<T>, s: seq<T>)
    decreases |s|
  {
    r == [] || (s != [] && if r[0] == s[0] then Subsequence(r[1..], s[1..]) else Subsequence(r, s[1..]))
  }

  /** Filtering keeps the surviving elements in their original order. */
  lemma {:induction false} WithoutIsSubsequence<T(!new), K>(s: seq<T>, key: T -> K, k: K)
    ensures Subsequence(Without(s, key, k), s)
    decreases |s|
  {
    if s != [] {
      WithoutIsSubsequence(s[1..], key, k);
      var r := Without(s, key, k);
      if key(s[0]) == k {
        assert r == Without(s[1..], key, k);
        assert r != [] ==> r[0] in r;
      } else {
        assert r == [s[0]] + Without(s[1..], key, k);
        assert r[1..] == Without(s[1..], key, k);
      }
    }
  }

  lemma {:induction false} SubsequenceMembers<T>(r: seq<T>, s: seq<T>)
    requires Subsequence(r, s)
    ensures forall x :: x in r ==> x in s
    decreases |s|
  {
    if r != [] {
      if r[0] == s[0] {
        SubsequenceMembers(r[1..], s[1..]);
        assert r == [r[0]] + r[1..];
      } else {
        SubsequenceMembers(r, s[1..]);
      }
    }
  }

  /** Leaving elements out of a sorted list keeps it sorted. */
  lemma {:induction false} SubsequenceKeepsSorted<T>(r: seq<T>, s: seq<T>, key: T -> real)
    requires Subsequence(r, s) && SortedBy(s, key)
    ensures SortedBy(r, key)
    decreases |s|
  {
    if r != [] {
      assert SortedBy(s[1..], key);
      if r[0] == s[0] {
        SubsequenceKeepsSorted(r[1..], s[1..], key);
        SubsequenceMembers(r[1..], s[1..]);
        forall j | 1 <= j < |r| ensures key(r[0]) <= key(r[j]) {
          assert r[j] == r[1..][j - 1];
          assert r[j] in r[1..];
          assert r[j] in s[1..];
          var m :| 0 <= m < |s[1..]| && s[1..][m] == r[j];
          assert s[m + 1] == r[j];
        }
      } else {
        SubsequenceKeepsSorted(r, s[1..], key);
      }
    }
  }

  /** `s.filter(y => y !== x)`. */
  function Remove<T(==,!new)>(s: seq<T>, x: T): (r: seq<T>)
    ensures x !in r
    ensures forall y :: y != x ==> (y in r <==> y in s)
  {
    Without(s, Identity, x)
  }

  predicate SortedBy<T>(s: seq<T>, key: T -> real)
  {
    forall i, j :: 0 <= i < j < |s| ==> key(s[i]) <= key(s[j])
  }

  /** Inserts `x` before the first element whose key is not smaller. */
  function InsertBy<T(==)>(x: T, s: seq<T>, key: T -> real): (r: seq<T>)
    requires SortedBy(s, key)
    ensures SortedBy(r, key)
    ensures multiset(r) == multiset(s) + multiset{x}
    ensures |r| == |s| + 1 && (r[0] == x || (s != [] && r[0] == s[0]))
    decreases |s|
  {
    if s == [] || key(x) <= key(s[0]) then [x] + s
    else
      var t := InsertBy(x, s[1..], key);
      assert key(s[0]) <= key(t[0]);
      assert s == [s[0]] + s[1..];
      [s[0]] + t
  }

  /** A stable sort by ascending key (insertion sort). */
  function SortBy<T(==)>(s: seq<T>, key: T -> real): (r: seq<T>)
    ensures SortedBy(r, key)
    ensures multiset(r) == multiset(s)
    decreases |s|
  {
    if s == [] then []
    else
      assert s == [s[0]] + s[1..];
      InsertBy(s[0], SortBy(s[1..], key), key)
  }

  /** A permutation has the same members. */
  lemma SameMembers<T>(s: seq<T>, t: seq<T>)
    requires multiset(s) == multiset(t)
    ensures forall x :: x in s <==> x in t
  {
    forall x ensures x in s <==> x in t {
      assert x in s <==> x in multiset(s);
      assert x in t <==> x in multiset(t);
    }
  }

  /** No element occurs twice. */
  predicate Distinct<T(==)>(s: seq<T>)
  {
    forall i, j :: 0 <= i < j < |s| ==> s[i] != s[j]
  }

  lemma TwoOccurrences<T>(s: seq<T>, i: int, j: int)
    requires 0 <= i < j < |s| && s[i] == s[j]
    ensures multiset(s)[s[i]] >= 2
  {
    assert s == s[..j] + s[j..];
    assert s[i] in s[..j];
    assert s[j..][0] == s[j];
  }

  lemma {:induction false} DistinctAtMostOnce<T>(s: seq<T>, x: T)
    requires Distinct(s)
    ensures multiset(s)[x] <= 1
    decreases |s|
  {
    if s != [] {
      assert s == [s[0]] + s[1..];
      DistinctAtMostOnce(s[1..], x);
      if x == s[0] {
        assert x !in s[1..];
      }
    }
  }

  /** A permutation of a list without repetitions has none either. */
  lemma PermutationKeepsDistinct<T>(a: seq<T>, b: seq<T>)
    requires multiset(a) == multiset(b) && Distinct(a)
    ensures Distinct(b)
  {
    forall i, j | 0 <= i < j < |b| ensures b[i] != b[j] {
      if b[i] == b[j] {
        TwoOccurrences(b, i, j);
        DistinctAtMostOnce(a, b[i]);
      }
    }
  }
}
