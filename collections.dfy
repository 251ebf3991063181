/** The Kotlin collection operations the attendance store relies on
    (`filter`, `find`, `any`, `removeAll`, `count`), stated once over sequences. */
module Collections {

  datatype Option<T> = None | Some(value: T)

  /** `r` is obtained from `s` by deleting some elements, keeping the order of the rest. */
  ghost predicate IsSubsequence<T(!new)>(r: seq<T>, s: seq<T>)
    decreases |s|
  {
    if s == [] then r == []
    else (r != [] && r[0] == s[0] && IsSubsequence(r[1..], s[1..])) || IsSubsequence(r, s[1..])
  }

  /** The empty sequence is a subsequence of every sequence. */
  lemma {:induction false} EmptyIsSubsequence<T(!new)>(s: seq<T>)
    ensures IsSubsequence([], s)
    decreases |s|
  {
    if s != [] {
      EmptyIsSubsequence(s[1..]);
    }
  }

  /** Kotlin's `filter`: the elements of `s` that satisfy `p`. */
  function Filter<T(!new)>(s: seq<T>, p: T -> bool): (r: seq<T>)
    ensures |r| <= |s|
    ensures forall x :: x in r <==> x in s && p(x)
    decreases |s|
  {
    if s == [] then []
    else if p(s[0]) then [s[0]] + Filter(s[1..], p)
    else Filter(s[1..], p)
  }

  /** Filtering keeps the order of the kept elements. */
  lemma {:induction false} FilterIsSubsequence<T(!new)>(s: seq<T>, p: T -> bool)
    ensures IsSubsequence(Filter(s, p), s)
    decreases |s|
  {
    if s != [] {
      FilterIsSubsequence(s[1..], p);
    }
  }

  /** Filtering keeps every occurrence of a kept element and no occurrence of a dropped one. */
  lemma {:induction false} FilterOccurrences<T(!new)>(s: seq<T>, p: T -> bool, x: T)
    ensures multiset(Filter(s, p))[x] == if p(x) then multiset(s)[x] else 0
    decreases |s|
  {
    if s != [] {
      FilterOccurrences(s[1..], p, x);
      assert s == [s[0]] + s[1..];
      assert multiset(s) == multiset([s[0]]) + multiset(s[1..]);
      if p(s[0]) {
        assert multiset(Filter(s, p)) == multiset([s[0]]) + multiset(Filter(s[1..], p));
      }
    }
  }

  /** Filtering distributes over concatenation. */
  lemma {:induction false} FilterAppend<T(!new)>(a: seq<T>, b: seq<T>, p: T -> bool)
    ensures Filter(a + b, p) == Filter(a, p) + Filter(b, p)
    decreases |a|
  {
    if a != [] {
      assert (a + b)[1..] == a[1..] + b;
      assert (a + b)[0] == a[0];
      FilterAppend(a[1..], b, p);
      if p(a[0]) {
        assert [a[0]] + (Filter(a[1..], p) + Filter(b, p)) == ([a[0]] + Filter(a[1..], p)) + Filter(b, p);
      }
    } else {
      assert a + b == b;
    }
  }

  /** Filtering twice by the same predicate is filtering once. */
  lemma {:induction false} FilterIdempotent<T(!new)>(s: seq<T>, p: T -> bool)
    ensures Filter(Filter(s, p), p) == Filter(s, p)
    decreases |s|
  {
    if s != [] {
      FilterIdempotent(s[1..], p);
      if p(s[0]) {
        var t := Filter(s[1..], p);
        assert ([s[0]] + t)[0] == s[0];
        assert ([s[0]] + t)[1..] == t;
      }
    }
  }

  /** Nothing survives a filter that no element satisfies. */
  lemma FilterEmpty<T(!new)>(s: seq<T>, p: T -> bool)
    requires forall x :: x in s ==> !p(x)
    ensures Filter(s, p) == []
  {
  }

  /** Kotlin's `indexOfFirst`, as an option: the first position whose element satisfies `p`. */
  function FirstIndex<T(!new)>(s: seq<T>, p: T -> bool): (r: Option<nat>)
    ensures r.Some? ==> r.value < |s| && p(s[r.value])
    ensures r.Some? ==> forall j :: 0 <= j < r.value ==> !p(s[j])
    ensures r.None? ==> forall j :: 0 <= j < |s| ==> !p(s[j])
    decreases |s|
  {
    if s == [] then None
    else if p(s[0]) then Some(0)
    else
      match FirstIndex(s[1..], p)
      case None => None
      case Some(i) => Some(i + 1)
  }

  /** Kotlin's `find`: the first element that satisfies `p`, if any. */
  function Find<T(!new)>(s: seq<T>, p: T -> bool): (r: Option<T>)
    ensures r.None? <==> forall x :: x in s ==> !p(x)
    ensures r.Some? ==> r.value in s && p(r.value)
    ensures r.Some? ==> exists i :: 0 <= i < |s| && s[i] == r.value && forall j :: 0 <= j < i ==> !p(s[j])
  {
    match FirstIndex(s, p)
    case None => None
    case Some(i) => Some(s[i])
  }

  /** No two elements of `s` share a key. */
  ghost predicate KeysUnique<T(!new), K>(s: seq<T>, key: T -> K)
  {
    forall i, j :: 0 <= i < j < |s| ==> key(s[i]) != key(s[j])
  }

  /** Appending an element whose key is new keeps the keys unique. */
  lemma AppendKeepsKeysUnique<T(!new), K>(s: seq<T>, x: T, key: T -> K)
    requires KeysUnique(s, key)
    requires forall y :: y in s ==> key(y) != key(x)
    ensures KeysUnique(s + [x], key)
  {
  }

  /** Filtering keeps the keys unique. */
  lemma {:induction false} FilterKeepsKeysUnique<T(!new), K>(s: seq<T>, p: T -> bool, key: T -> K)
    requires KeysUnique(s, key)
    ensures KeysUnique(Filter(s, p), key)
    decreases |s|
  {
    if s != [] {
      var tail := s[1..];
      assert forall i, j :: 0 <= i < j < |tail| ==> tail[i] == s[i + 1] && tail[j] == s[j + 1];
      FilterKeepsKeysUnique(tail, p, key);
      if p(s[0]) {
        var f := Filter(tail, p);
        var r := [s[0]] + f;
        forall i, j | 0 <= i < j < |r| ensures key(r[i]) != key(r[j]) {
          assert r[j] == f[j - 1];
          if i == 0 {
            assert f[j - 1] in tail;
            var k :| 0 <= k < |tail| && tail[k] == f[j - 1];
            assert s[k + 1] == r[j];
          } else {
            assert r[i] == f[i - 1];
          }
        }
      }
    }
  }

  /** When keys are unique, at most one element carries a given key. */
  lemma AtMostOneWithKey<T(!new), K>(s: seq<T>, key: T -> K, k: K, x: T, y: T)
    requires KeysUnique(s, key)
    requires x in s && y in s && key(x) == k && key(y) == k
    ensures x == y
  {
  }
}
