/** Generic operations on sequences: the column-wise building blocks
    (boolean masks, sums, `unique()`) that the data-frame operations are made of. */
module Seqs {

  /** The elements of `s` that satisfy `p`, in their original order
      (a boolean-mask selection `df[mask]`). */
  function Filter<T(!new)>(s: seq<T>, p: T -> bool): (r: seq<T>)
    ensures |r| <= |s|
    ensures forall x :: x in r <==> x in s && p(x)
  {
    if s == [] then []
    else
      assert forall x :: x in s <==> x == s[0] || x in s[1..];
      (if p(s[0]) then [s[0]] else []) + Filter(s[1..], p)
  }

  /** Filtering distributes over concatenation: together with the one-row case
      this says that exactly the matching rows are kept, in input order. */
  lemma {:induction false} FilterConcat<T(!new)>(a: seq<T>, b: seq<T>, p: T -> bool)
    ensures Filter(a + b, p) == Filter(a, p) + Filter(b, p)
  {
    if a == [] {
      assert a + b == b;
    } else {
      assert (a + b)[0] == a[0];
      assert (a + b)[1..] == a[1..] + b;
      FilterConcat(a[1..], b, p);
    }
  }

  /** A filter that every element passes returns its input unchanged. */
  lemma {:induction false} FilterAll<T(!new)>(s: seq<T>, p: T -> bool)
    requires forall x :: x in s ==> p(x)
    ensures Filter(s, p) == s
  {
    if s != [] {
      assert s[0] in s;
      assert forall x :: x in s[1..] ==> x in s;
      FilterAll(s[1..], p);
    }
  }

  /** Two filters that agree on every element of `s` select the same rows. */
  lemma {:induction false} FilterSame<T(!new)>(s: seq<T>, p: T -> bool, q: T -> bool)
    requires forall x :: x in s ==> p(x) == q(x)
    ensures Filter(s, p) == Filter(s, q)
  {
    if s != [] {
      assert s[0] in s;
      assert forall x :: x in s[1..] ==> x in s;
      FilterSame(s[1..], p, q);
    }
  }

  /** Two masks applied one after the other select what their conjunction
      selects, in the same order and with the same repetitions. */
  lemma {:induction false} FilterFilter<T(!new)>(s: seq<T>, p: T -> bool, q: T -> bool, pq: T -> bool)
    requires forall x :: pq(x) == (p(x) && q(x))
    ensures Filter(Filter(s, p), q) == Filter(s, pq)
  {
    if s != [] {
      var head := if p(s[0]) then [s[0]] else [];
      FilterConcat(head, Filter(s[1..], p), q);
      assert [s[0]][1..] == [];
      FilterFilter(s[1..], p, q, pq);
    }
  }

  /** The column `f` of the rows `s`. */
  function Map<T, U>(s: seq<T>, f: T -> U): (r: seq<U>)
    ensures |r| == |s| && forall i :: 0 <= i < |s| ==> r[i] == f(s[i])
  {
    seq(|s|, i requires 0 <= i < |s| => f(s[i]))
  }

  /** The sum of the column `f` over the rows `s`. */
  function Sum<T>(s: seq<T>, f: T -> int): int
  {
    if s == [] then 0 else f(s[0]) + Sum(s[1..], f)
  }

  /** Summing distributes over concatenation. */
  lemma {:induction false} SumConcat<T>(a: seq<T>, b: seq<T>, f: T -> int)
    ensures Sum(a + b, f) == Sum(a, f) + Sum(b, f)
  {
    if a == [] {
      assert a + b == b;
    } else {
      assert (a + b)[0] == a[0];
      assert (a + b)[1..] == a[1..] + b;
      SumConcat(a[1..], b, f);
    }
  }

  /** Leaving out rows whose term is 0 does not change a sum: this is how a sum
      that skips missing values is the sum over the rows that have one. */
  lemma {:induction false} SumSkipsZeros<T(!new)>(s: seq<T>, p: T -> bool, f: T -> int)
    requires forall x :: x in s && !p(x) ==> f(x) == 0
    ensures Sum(Filter(s, p), f) == Sum(s, f)
  {
    if s != [] {
      assert s[0] in s;
      assert forall x :: x in s[1..] ==> x in s;
      SumSkipsZeros(s[1..], p, f);
      var head := if p(s[0]) then [s[0]] else [];
      SumConcat(head, Filter(s[1..], p), f);
      assert [s[0]][1..] == [];
    }
  }

  lemma MulStep(n: int, a: int)
    ensures n * a == a + (n - 1) * a
  {
  }

  /** A sum of `|s|` terms each at least `lo` is at least `|s| * lo`. */
  lemma {:induction false} SumAtLeast<T>(s: seq<T>, f: T -> int, lo: int)
    requires forall x :: x in s ==> lo <= f(x)
    ensures |s| * lo <= Sum(s, f)
  {
    if s != [] {
      assert s[0] in s;
      assert forall x :: x in s[1..] ==> x in s;
      SumAtLeast(s[1..], f, lo);
      MulStep(|s|, lo);
    }
  }

  /** A sum of `|s|` terms each at most `hi` is at most `|s| * hi`. */
  lemma {:induction false} SumAtMost<T>(s: seq<T>, f: T -> int, hi: int)
    requires forall x :: x in s ==> f(x) <= hi
    ensures Sum(s, f) <= |s| * hi
  {
    if s != [] {
      assert s[0] in s;
      assert forall x :: x in s[1..] ==> x in s;
      SumAtMost(s[1..], f, hi);
      MulStep(|s|, hi);
    }
  }

  /** An index of `s` where `f` is smallest. */
  lemma {:induction false} MinIndex<T>(s: seq<T>, f: T -> int) returns (i: nat)
    requires s != []
    ensures i < |s| && forall x :: x in s ==> f(s[i]) <= f(x)
  {
    if |s| == 1 {
      i := 0;
    } else {
      var j := MinIndex(s[1..], f);
      assert forall x :: x in s ==> x == s[0] || x in s[1..];
      i := if f(s[0]) <= f(s[1..][j]) then 0 else j + 1;
    }
  }

  /** An index of `s` where `f` is largest. */
  lemma {:induction false} MaxIndex<T>(s: seq<T>, f: T -> int) returns (i: nat)
    requires s != []
    ensures i < |s| && forall x :: x in s ==> f(x) <= f(s[i])
  {
    if |s| == 1 {
      i := 0;
    } else {
      var j := MaxIndex(s[1..], f);
      assert forall x :: x in s ==> x == s[0] || x in s[1..];
      i := if f(s[0]) >= f(s[1..][j]) then 0 else j + 1;
    }
  }

  /** No value occurs twice in `s`. */
  predicate NoDuplicates<T(==)>(s: seq<T>)
  {
    forall i, j :: 0 <= i < j < |s| ==> s[i] != s[j]
  }

  /** The position of the first occurrence of `x` in `s`. */
  function IndexOf<T(==)>(s: seq<T>, x: T): (i: nat)
    requires x in s
    ensures i < |s| && s[i] == x && x !in s[..i]
  {
    if s[0] == x then 0
    else
      var j := IndexOf(s[1..], x);
      assert s[..j + 1] == [s[0]] + s[1..][..j];
      j + 1
  }

  /** A position holding `x` with no earlier `x` is the first occurrence. */
  lemma IndexOfUnique<T>(s: seq<T>, x: T, i: nat)
    requires i < |s| && s[i] == x && x !in s[..i]
    ensures IndexOf(s, x) == i
  {
  }

  /** Appending elements does not move a first occurrence. */
  lemma IndexOfAppend<T>(s: seq<T>, t: seq<T>, x: T)
    requires x in s
    ensures x in s + t && IndexOf(s + t, x) == IndexOf(s, x)
  {
    var i := IndexOf(s, x);
    assert (s + t)[..i] == s[..i];
    IndexOfUnique(s + t, x, i);
  }

  /** The distinct values of `s` (`Series.unique()`). */
  function Distinct<T(==,!new)>(s: seq<T>): (d: seq<T>)
    ensures forall x :: x in d <==> x in s
    ensures NoDuplicates(d)
    ensures |d| <= |s|
  {
    if s == [] then []
    else
      var init := Distinct(s[..|s| - 1]);
      var last := s[|s| - 1];
      assert s == s[..|s| - 1] + [last];
      if last in init then init else init + [last]
  }

  /** `Distinct` lists the values in order of first appearance. */
  lemma {:induction false} DistinctFirstAppearance<T(!new)>(s: seq<T>)
    ensures forall i, j :: 0 <= i < j < |Distinct(s)| ==> IndexOf(s, Distinct(s)[i]) < IndexOf(s, Distinct(s)[j])
  {
    if s != [] {
      var p, last := s[..|s| - 1], s[|s| - 1];
      assert s == p + [last];
      DistinctFirstAppearance(p);
      var d := Distinct(s);
      forall x | x in p
        ensures IndexOf(s, x) == IndexOf(p, x) < |p|
      {
        IndexOfAppend(p, [last], x);
      }
      if last !in p {
        assert s[..|p|] == p;
        IndexOfUnique(s, last, |p|);
      }
    }
  }

  /** The first `n` distinct values of `s`, in order of first appearance, are
      each first seen before any position holding a value that is not among them. */
  lemma TakeDistinctFirst<T(!new)>(s: seq<T>, n: nat)
    ensures forall k, i :: 0 <= k < |s| && s[k] !in Take(Distinct(s), n) && 0 <= i < |Take(Distinct(s), n)| ==>
              IndexOf(s, Take(Distinct(s), n)[i]) < k
  {
    var d := Distinct(s);
    var sel := Take(d, n);
    DistinctFirstAppearance(s);
    forall k, i | 0 <= k < |s| && s[k] !in sel && 0 <= i < |sel|
      ensures IndexOf(s, sel[i]) < k
    {
      var p := s[k];
      assert p in d;
      var j :| 0 <= j < |d| && d[j] == p;
      assert j >= |sel|;
      assert sel[i] == d[i];
    }
  }

  /** The first `n` elements of `s`, or all of them when there are fewer (`head(n)`, `[:n]`). */
  function Take<T>(s: seq<T>, n: nat): (r: seq<T>)
    ensures |r| == if |s| <= n then |s| else n
    ensures r == s[..|r|]
  {
    if |s| <= n then s else s[..n]
  }
}
