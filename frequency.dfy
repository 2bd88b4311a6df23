/**
 * The frequency ranker of src/averages.rs: count tables keyed by a 32-byte identity, updated
 * with `*table.entry(key).or_default() += 1`, and `top_n`, which sorts the table's entries by
 * descending count and keeps the first `n`.
 */
module Frequency {
  import opened Bytes
  import Sorting

  /** The count of `k` in `table`; 0 when the key was never inserted. */
  function Count(table: map<Id, nat>, k: Id): nat
  {
    if k in table then table[k] else 0
  }

  /** Every stored count is at least 1: keys are only inserted by an increment. */
  ghost predicate Positive(table: map<Id, nat>)
  {
    forall k :: k in table ==> table[k] >= 1
  }

  /** `*table.entry(k).or_default() += 1`. */
  function Increment(table: map<Id, nat>, k: Id): (r: map<Id, nat>)
  {
    table[k := Count(table, k) + 1]
  }

  /** Increments for every key of `ks`, in order. */
  function CountAll(table: map<Id, nat>, ks: seq<Id>): (r: map<Id, nat>)
  {
    if ks == [] then table
    else
      Increment(CountAll(table, ks[..|ks| - 1]), ks[|ks| - 1])
  }

  /** An increment adds one to the count of its key, inserting it if needed, and to no other. */
  lemma IncrementCounts(table: map<Id, nat>, k: Id, j: Id)
    ensures Increment(table, k).Keys == table.Keys + {k}
    ensures Count(Increment(table, k), j) == Count(table, j) + if j == k then 1 else 0
  {
  }

  /** Increments keep every stored count at least 1. */
  lemma IncrementPositive(table: map<Id, nat>, k: Id)
    requires Positive(table)
    ensures Positive(Increment(table, k))
  {
  }

  /** After counting `ks`, the count of a key has grown by its number of occurrences in `ks`. */
  lemma {:induction false} CountAllCounts(table: map<Id, nat>, ks: seq<Id>, k: Id)
    ensures Count(CountAll(table, ks), k) == Count(table, k) + multiset(ks)[k]
  {
    if ks != [] {
      var init := ks[..|ks| - 1];
      CountAllCounts(table, init, k);
      IncrementCounts(CountAll(table, init), ks[|ks| - 1], k);
      assert ks == init + [ks[|ks| - 1]];
    }
  }

  /** Counting `ks` stores exactly the keys already present and those of `ks`. */
  lemma {:induction false} CountAllKeys(table: map<Id, nat>, ks: seq<Id>)
    ensures CountAll(table, ks).Keys == table.Keys + set k | k in ks
  {
    if ks != [] {
      var init := ks[..|ks| - 1];
      CountAllKeys(table, init);
      IncrementCounts(CountAll(table, init), ks[|ks| - 1], ks[|ks| - 1]);
      assert ks == init + [ks[|ks| - 1]];
      assert (set k | k in ks) == (set k | k in init) + {ks[|ks| - 1]};
    }
  }

  /** Counting keeps every stored count at least 1. */
  lemma {:induction false} CountAllPositive(table: map<Id, nat>, ks: seq<Id>)
    requires Positive(table)
    ensures Positive(CountAll(table, ks))
  {
    if ks != [] {
      CountAllPositive(table, ks[..|ks| - 1]);
      IncrementPositive(CountAll(table, ks[..|ks| - 1]), ks[|ks| - 1]);
    }
  }

  /** Counting one more key is one more increment. */
  lemma CountAllSnoc(table: map<Id, nat>, ks: seq<Id>, k: Id)
    ensures CountAll(table, ks + [k]) == Increment(CountAll(table, ks), k)
  {
    assert (ks + [k])[..|ks|] == ks;
  }

  /** Counting `a + b` is counting `a`, then counting `b` into the result. */
  lemma {:induction false} CountAllAppend(table: map<Id, nat>, a: seq<Id>, b: seq<Id>)
    ensures CountAll(table, a + b) == CountAll(CountAll(table, a), b)
  {
    if b == [] {
      assert a + b == a;
    } else {
      var init := b[..|b| - 1];
      CountAllAppend(table, a, init);
      assert (a + b)[..|a + b| - 1] == a + init;
    }
  }

  /** The sum of all counts of a table. */
  ghost function Total(table: map<Id, nat>): nat
    decreases |table|
  {
    if table == map[] then 0
    else
      var k :| k in table;
      assert |table - {k}| < |table| by {
        assert (table - {k}).Keys == table.Keys - {k};
      }
      table[k] + Total(table - {k})
  }

  /** Any key can be taken out first when summing. */
  lemma {:induction false} TotalRemove(table: map<Id, nat>, k: Id)
    requires k in table
    ensures Total(table) == table[k] + Total(table - {k})
    decreases |table|
  {
    var j :| j in table && Total(table) == table[j] + Total(table - {j});
    if j != k {
      assert (table - {j}).Keys == table.Keys - {j};
      assert (table - {k}).Keys == table.Keys - {k};
      TotalRemove(table - {j}, k);
      TotalRemove(table - {k}, j);
      assert table - {j} - {k} == table - {k} - {j};
    }
  }

  /** Each increment adds exactly one to the sum of the counts. */
  lemma IncrementTotal(table: map<Id, nat>, k: Id)
    ensures Total(Increment(table, k)) == Total(table) + 1
  {
    var r := Increment(table, k);
    TotalRemove(r, k);
    if k in table {
      TotalRemove(table, k);
      assert r - {k} == table - {k};
    } else {
      assert r - {k} == table;
    }
  }

  /** Counting a sequence of keys adds its length to the sum of the counts. */
  lemma {:induction false} CountAllTotal(table: map<Id, nat>, ks: seq<Id>)
    ensures Total(CountAll(table, ks)) == Total(table) + |ks|
  {
    if ks != [] {
      CountAllTotal(table, ks[..|ks| - 1]);
      IncrementTotal(CountAll(table, ks[..|ks| - 1]), ks[|ks| - 1]);
    }
  }

  /** The keys of a ranking, in order. */
  function KeysOf(top: seq<(Id, nat)>): (keys: seq<Id>)
    ensures |keys| == |top| && forall i :: 0 <= i < |top| ==> keys[i] == top[i].0
  {
    seq(|top|, i requires 0 <= i < |top| => top[i].0)
  }

  /** The entries of `s` are entries of `table`, under pairwise distinct keys. */
  ghost predicate DistinctEntriesOf(s: seq<(Id, nat)>, table: map<Id, nat>)
  {
    && (forall i :: 0 <= i < |s| ==> s[i].0 in table && table[s[i].0] == s[i].1)
    && (forall i, j :: 0 <= i < j < |s| ==> s[i].0 != s[j].0)
  }

  /**
   * `top` is what `top_n(table, n)` may return for some iteration order of the table: the
   * `min(n, |table|)` entries with the largest counts, by non-increasing count.
   */
  ghost predicate IsTopN(top: seq<(Id, nat)>, table: map<Id, nat>, n: nat)
  {
    && |top| == (if n < |table| then n else |table|)
    && DistinctEntriesOf(top, table)
    && (forall i, j :: 0 <= i < j < |top| ==> top[i].1 >= top[j].1)
    && (forall k, i :: k in table && k !in KeysOf(top) && 0 <= i < |top| ==> table[k] <= top[i].1)
  }

  /** `map.into_iter().collect()`: the table's entries in some order. */
  method Entries(table: map<Id, nat>) returns (s: seq<(Id, nat)>)
    ensures |s| == |table|
    ensures DistinctEntriesOf(s, table)
    ensures forall k :: k in table ==> (k, table[k]) in s
  {
    s := [];
    var rest := table.Keys;
    while rest != {}
      invariant rest <= table.Keys
      invariant |s| + |rest| == |table|
      invariant DistinctEntriesOf(s, table)
      invariant forall i :: 0 <= i < |s| ==> s[i].0 !in rest
      invariant forall k :: k in table && k !in rest ==> (k, table[k]) in s
    {
      var k :| k in rest;
      s := s + [(k, table[k])];
      rest := rest - {k};
    }
  }

  /** The sort key of `top_n`: `b.1.cmp(&a.1)` orders by descending count. */
  function NegatedCount(e: (Id, nat)): int
  {
    -(e.1 as int)
  }

  /** `top_n`: collect, sort by descending count, truncate to `n`. */
  method TopN(table: map<Id, nat>, n: nat) returns (top: seq<(Id, nat)>)
    ensures IsTopN(top, table, n)
  {
    var entries := Entries(table);
    var v := new (Id, nat)[|entries|](i requires 0 <= i < |entries| => entries[i]);
    assert v[..] == entries;
    Sorting.SortBy(v, NegatedCount);
    var len := if n < v.Length then n else v.Length;
    top := v[..len];
    SortedEntriesAreTopN(entries, v[..], table, n);
  }

  /** A permutation of the table's entries sorted by descending count starts with its top `n`. */
  lemma SortedEntriesAreTopN(entries: seq<(Id, nat)>, sorted: seq<(Id, nat)>, table: map<Id, nat>, n: nat)
    requires |entries| == |table| && DistinctEntriesOf(entries, table)
    requires forall k :: k in table ==> (k, table[k]) in entries
    requires multiset(sorted) == multiset(entries)
    requires Sorting.SortedBy(sorted, NegatedCount)
    ensures IsTopN(sorted[..if n < |sorted| then n else |sorted|], table, n)
  {
    assert |sorted| == |entries| by {
      assert |multiset(sorted)| == |multiset(entries)|;
    }
    PermutationKeepsDistinctEntries(entries, sorted, table);
    var len := if n < |sorted| then n else |sorted|;
    PrefixKeepsDistinctEntries(sorted, table, len);
    PrefixDescending(sorted, len);
    PrefixDominates(entries, sorted, table, len);
  }

  /** The first `len` of distinct entries are distinct entries. */
  lemma PrefixKeepsDistinctEntries(s: seq<(Id, nat)>, table: map<Id, nat>, len: nat)
    requires DistinctEntriesOf(s, table) && len <= |s|
    ensures DistinctEntriesOf(s[..len], table)
  {
    assert forall i :: 0 <= i < len ==> s[..len][i] == s[i];
  }

  /** The first `len` entries sorted by descending count have non-increasing counts. */
  lemma PrefixDescending(sorted: seq<(Id, nat)>, len: nat)
    requires Sorting.SortedBy(sorted, NegatedCount) && len <= |sorted|
    ensures forall i, j :: 0 <= i < j < len ==> sorted[..len][i].1 >= sorted[..len][j].1
  {
    forall i, j | 0 <= i < j < len
      ensures sorted[..len][i].1 >= sorted[..len][j].1
    {
      assert NegatedCount(sorted[i]) <= NegatedCount(sorted[j]);
    }
  }

  /** No entry of the table left out of the first `len` has a larger count than a kept one. */
  lemma PrefixDominates(entries: seq<(Id, nat)>, sorted: seq<(Id, nat)>, table: map<Id, nat>, len: nat)
    requires forall k :: k in table ==> (k, table[k]) in entries
    requires multiset(sorted) == multiset(entries)
    requires Sorting.SortedBy(sorted, NegatedCount) && len <= |sorted|
    ensures forall k, i :: k in table && k !in KeysOf(sorted[..len]) && 0 <= i < len ==> table[k] <= sorted[..len][i].1
  {
    forall k, i | k in table && k !in KeysOf(sorted[..len]) && 0 <= i < len
      ensures table[k] <= sorted[..len][i].1
    {
      assert (k, table[k]) in multiset(entries);
      OmittedAtMostKept(sorted, table, len, k, i);
    }
  }

  /** Reordering distinct entries of a table keeps them distinct entries of it. */
  lemma PermutationKeepsDistinctEntries(entries: seq<(Id, nat)>, sorted: seq<(Id, nat)>, table: map<Id, nat>)
    requires DistinctEntriesOf(entries, table)
    requires multiset(sorted) == multiset(entries)
    ensures DistinctEntriesOf(sorted, table)
  {
    forall i | 0 <= i < |sorted|
      ensures sorted[i].0 in table && table[sorted[i].0] == sorted[i].1
    {
      assert sorted[i] in multiset(entries);
    }
    forall i, j | 0 <= i < j < |sorted|
      ensures sorted[i].0 != sorted[j].0
    {
      OnceInDistinct(entries, table, sorted[i]);
      if sorted[i].0 == sorted[j].0 {
        assert sorted[i] == sorted[j];
        TwiceInSeq(sorted, i, j);
        assert false;
      }
    }
  }

  /** A key left out of the first `len` entries has a count no larger than any kept one. */
  lemma OmittedAtMostKept(sorted: seq<(Id, nat)>, table: map<Id, nat>, len: nat, k: Id, i: nat)
    requires Sorting.SortedBy(sorted, NegatedCount)
    requires len <= |sorted| && i < len
    requires k in table && (k, table[k]) in sorted && k !in KeysOf(sorted[..len])
    ensures table[k] <= sorted[i].1
  {
    var p :| 0 <= p < |sorted| && sorted[p] == (k, table[k]);
    forall q | 0 <= q < len
      ensures sorted[q].0 != k
    {
      assert KeysOf(sorted[..len])[q] == sorted[q].0;
    }
    assert NegatedCount(sorted[i]) <= NegatedCount(sorted[p]);
  }

  /** An element found at two positions occurs at least twice. */
  lemma TwiceInSeq<T>(s: seq<T>, i: nat, j: nat)
    requires i < j < |s| && s[i] == s[j]
    ensures multiset(s)[s[i]] >= 2
  {
    assert s == s[..j] + s[j..];
    assert s[i] in s[..j];
    assert s[j] in s[j..];
    assert multiset(s) == multiset(s[..j]) + multiset(s[j..]);
  }

  /** In a sequence with distinct keys, an entry occurs at most once. */
  lemma {:induction false} OnceInDistinct(s: seq<(Id, nat)>, table: map<Id, nat>, e: (Id, nat))
    requires DistinctEntriesOf(s, table)
    ensures multiset(s)[e] <= 1
  {
    if s != [] {
      var tail := s[1..];
      assert s == [s[0]] + tail;
      OnceInDistinct(tail, table, e);
      if s[0] == e {
        forall q | 0 <= q < |tail|
          ensures tail[q] != e
        {
          assert tail[q] == s[q + 1];
        }
        assert e !in multiset(tail);
      }
    }
  }

  /** The ranking example: of {A: 3, B: 3, C: 1}, the top two are A and B, in either order. */
  lemma TopTwoOfExample(a: Id, b: Id, c: Id, top: seq<(Id, nat)>)
    requires a != b && b != c && a != c
    requires IsTopN(top, map[a := 3, b := 3, c := 1], 2)
    ensures |top| == 2 && {top[0].0, top[1].0} == {a, b}
  {
    var table := map[a := 3, b := 3, c := 1];
    assert table.Keys == {a, b, c};
    assert |table| == 3 by {
      assert |{a, b, c}| == 3;
    }
    var keys := KeysOf(top);
    assert |keys| == 2 && keys[0] != keys[1];
    assert c !in keys;
    assert top[0].0 in table && top[1].0 in table;
  }
}
