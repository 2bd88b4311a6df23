/**
 * In-place sorting of a vector by an integer key, standing for the two `sort_by` calls of
 * src/averages.rs: ascending by value for the block-time deltas, descending by count (that is,
 * ascending by the negated count) in `top_n`.
 */
module Sorting {
  /** `s` is ordered by non-decreasing `key`. */
  ghost predicate SortedBy<T>(s: seq<T>, key: T -> int)
  {
    forall i, j :: 0 <= i < j < |s| ==> key(s[i]) <= key(s[j])
  }

  /** Sorts `a` in place by `key`; the result is a permutation of the input. */
  method SortBy<T>(a: array<T>, key: T -> int)
    modifies a
    ensures SortedBy(a[..], key)
    ensures multiset(a[..]) == multiset(old(a[..]))
  {
    var i := 0;
    while i < a.Length
      invariant 0 <= i <= a.Length
      invariant forall p, q :: 0 <= p < q < i ==> key(a[p]) <= key(a[q])
      invariant forall p, q :: 0 <= p < i <= q < a.Length ==> key(a[p]) <= key(a[q])
      invariant multiset(a[..]) == multiset(old(a[..]))
    {
      var m := IndexOfLeast(a, key, i);
      ghost var before := a[..];
      Swap(a, i, m);
      forall p, q | 0 <= p < q <= i
        ensures key(a[p]) <= key(a[q])
      {
        assert a[p] == before[p] && a[i] == before[m];
      }
      forall p, q | 0 <= p <= i < q < a.Length
        ensures key(a[p]) <= key(a[q])
      {
        assert a[q] == before[q] || a[q] == before[i];
      }
      i := i + 1;
    }
  }

  /** An index of a least-keyed element of `a[from..]`. */
  method IndexOfLeast<T>(a: array<T>, key: T -> int, from: nat) returns (m: nat)
    requires from < a.Length
    ensures from <= m < a.Length
    ensures forall q :: from <= q < a.Length ==> key(a[m]) <= key(a[q])
  {
    m := from;
    var j := from + 1;
    while j < a.Length
      invariant from <= m < j <= a.Length
      invariant forall q :: from <= q < j ==> key(a[m]) <= key(a[q])
    {
      if key(a[j]) < key(a[m]) {
        m := j;
      }
      j := j + 1;
    }
  }

  /** Exchanges `a[i]` and `a[j]`. */
  method Swap<T>(a: array<T>, i: nat, j: nat)
    requires i < a.Length && j < a.Length
    modifies a
    ensures a[..] == old(a[..])[i := old(a[j])][j := old(a[i])]
    ensures multiset(a[..]) == multiset(old(a[..]))
  {
    a[i], a[j] := a[j], a[i];
  }
}
