/** The group-by of a data frame: the distinct keys in ascending order, the
    rows of each key, and one summary per key. */
module Grouping {
  import opened Seqs
  import opened Ordering

  /** The rows whose key is `k`, in their original order. */
  function Group<T(!new), K(==)>(rows: seq<T>, key: T -> K, k: K): (g: seq<T>)
    ensures forall x :: x in g <==> x in rows && key(x) == k
  {
    Filter(rows, x => key(x) == k)
  }

  /** The distinct keys of `rows`, ascending: each names a non-empty group and
      every row's key is among them. */
  function GroupKeys<T(!new), K(==,!new)>(rows: seq<T>, key: T -> K, less: (K, K) -> bool): (ks: seq<K>)
    requires StrictTotalOrder(less)
    ensures StrictlySorted(ks, less) && NoDuplicates(ks)
    ensures forall x :: x in rows ==> key(x) in ks
    ensures forall k :: k in ks ==> Group(rows, key, k) != []
  {
    var ks := SortKeys(Map(rows, key), less);
    StrictlySortedNoDuplicates(ks, less);
    assert forall x :: x in rows ==> key(x) in Map(rows, key) by {
      forall x | x in rows
        ensures key(x) in Map(rows, key)
      {
        var i :| 0 <= i < |rows| && rows[i] == x;
        assert Map(rows, key)[i] == key(x);
      }
    }
    assert forall k :: k in ks ==> Group(rows, key, k) != [] by {
      forall k | k in ks
        ensures Group(rows, key, k) != []
      {
        var i :| 0 <= i < |rows| && Map(rows, key)[i] == k;
        assert rows[i] in Group(rows, key, k);
      }
    }
    ks
  }

  /** One summary per key, in the order of `ks` (`groupby(...).agg(...)`). */
  function Grouped<T(!new), K(==), M>(rows: seq<T>, key: T -> K, ks: seq<K>, summarize: (K, seq<T>) -> M): (out: seq<M>)
    ensures |out| == |ks|
    ensures forall i :: 0 <= i < |ks| ==> out[i] == summarize(ks[i], Group(rows, key, ks[i]))
  {
    seq(|ks|, i requires 0 <= i < |ks| => summarize(ks[i], Group(rows, key, ks[i])))
  }

  /** The sum of `f` over each group, added up over the keys `ks`. */
  ghost function SumOfGroups<T(!new), K>(rows: seq<T>, key: T -> K, ks: seq<K>, f: T -> int): int
  {
    if ks == [] then 0 else Sum(Group(rows, key, ks[0]), f) + SumOfGroups(rows, key, ks[1..], f)
  }

  /** `v` counted once for each occurrence of `k` in `ks`. */
  ghost function Hits<K>(k: K, ks: seq<K>, v: int): int
  {
    if ks == [] then 0 else (if ks[0] == k then v else 0) + Hits(k, ks[1..], v)
  }

  lemma {:induction false} HitsOnce<K>(k: K, ks: seq<K>, v: int)
    requires NoDuplicates(ks)
    ensures Hits(k, ks, v) == if k in ks then v else 0
  {
    if ks != [] {
      assert forall y :: y in ks <==> y == ks[0] || y in ks[1..];
      HitsOnce(k, ks[1..], v);
    }
  }

  /** Peeling the first row off every group at once. */
  lemma {:induction false} SumOfGroupsCons<T(!new), K>(x: T, rest: seq<T>, key: T -> K, ks: seq<K>, f: T -> int)
    ensures SumOfGroups([x] + rest, key, ks, f) == Hits(key(x), ks, f(x)) + SumOfGroups(rest, key, ks, f)
  {
    if ks != [] {
      var k := ks[0];
      assert ([x] + rest)[0] == x && ([x] + rest)[1..] == rest;
      assert Group([x] + rest, key, k) == (if key(x) == k then [x] else []) + Group(rest, key, k);
      SumConcat(if key(x) == k then [x] else [], Group(rest, key, k), f);
      SumOfGroupsCons(x, rest, key, ks[1..], f);
    }
  }

  /** The groups of distinct keys covering every row partition the rows, so the
      group sums add up to the sum over all rows. */
  lemma {:induction false} SumOfGroupsPartition<T(!new), K>(rows: seq<T>, key: T -> K, ks: seq<K>, f: T -> int)
    requires NoDuplicates(ks)
    requires forall x :: x in rows ==> key(x) in ks
    ensures SumOfGroups(rows, key, ks, f) == Sum(rows, f)
  {
    if rows == [] {
      EmptyGroups(key, ks, f);
    } else {
      var x, rest := rows[0], rows[1..];
      assert rows == [x] + rest;
      assert x in rows;
      assert forall y :: y in rest ==> y in rows;
      SumOfGroupsCons(x, rest, key, ks, f);
      HitsOnce(key(x), ks, f(x));
      SumOfGroupsPartition(rest, key, ks, f);
    }
  }

  lemma {:induction false} EmptyGroups<T(!new), K>(key: T -> K, ks: seq<K>, f: T -> int)
    ensures SumOfGroups([], key, ks, f) == 0
  {
    if ks != [] {
      EmptyGroups(key, ks[1..], f);
    }
  }

  /** Summing a measure of the per-key summaries equals summing over the groups. */
  lemma {:induction false} SumOfGrouped<T(!new), K, M>(rows: seq<T>, key: T -> K, ks: seq<K>, summarize: (K, seq<T>) -> M, measure: M -> int, f: T -> int)
    requires forall k :: k in ks ==> measure(summarize(k, Group(rows, key, k))) == Sum(Group(rows, key, k), f)
    ensures Sum(Grouped(rows, key, ks, summarize), measure) == SumOfGroups(rows, key, ks, f)
  {
    if ks != [] {
      assert ks[0] in ks;
      assert forall k :: k in ks[1..] ==> k in ks;
      assert Grouped(rows, key, ks, summarize)[1..] == Grouped(rows, key, ks[1..], summarize);
      SumOfGrouped(rows, key, ks[1..], summarize, measure, f);
    }
  }

  /** A group-by over all keys loses and duplicates nothing: the per-key sums
      add up to the total over the rows. */
  lemma GroupedSum<T(!new), K, M>(rows: seq<T>, key: T -> K, ks: seq<K>, summarize: (K, seq<T>) -> M, measure: M -> int, f: T -> int)
    requires NoDuplicates(ks)
    requires forall x :: x in rows ==> key(x) in ks
    requires forall k :: k in ks ==> measure(summarize(k, Group(rows, key, k))) == Sum(Group(rows, key, k), f)
    ensures Sum(Grouped(rows, key, ks, summarize), measure) == Sum(rows, f)
  {
    SumOfGrouped(rows, key, ks, summarize, measure, f);
    SumOfGroupsPartition(rows, key, ks, f);
  }
}
