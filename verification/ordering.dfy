/** Orders on group-by keys and the sorting of key lists: a pandas `groupby`
    returns its groups with their keys in ascending order. */
module Ordering {
  import opened Seqs

  /** `less` is a strict total order. */
  ghost predicate StrictTotalOrder<K(!new)>(less: (K, K) -> bool)
  {
    && (forall a :: !less(a, a))
    && (forall a, b, c :: less(a, b) && less(b, c) ==> less(a, c))
    && (forall a, b :: a != b ==> less(a, b) || less(b, a))
  }

  /** `s` is strictly ascending under `less`. */
  predicate StrictlySorted<K>(s: seq<K>, less: (K, K) -> bool)
  {
    forall i, j :: 0 <= i < j < |s| ==> less(s[i], s[j])
  }

  /** A strictly ascending sequence holds each key once. */
  lemma StrictlySortedNoDuplicates<K(!new)>(s: seq<K>, less: (K, K) -> bool)
    requires StrictTotalOrder(less) && StrictlySorted(s, less)
    ensures NoDuplicates(s)
  {
  }

  /** Inserts `x` into the ascending key list `s`, unless it is already there. */
  function InsertKey<K(==,!new)>(x: K, s: seq<K>, less: (K, K) -> bool): (r: seq<K>)
    requires StrictTotalOrder(less) && StrictlySorted(s, less)
    ensures StrictlySorted(r, less)
    ensures forall y :: y in r <==> y == x || y in s
  {
    if s == [] then [x]
    else if x == s[0] then s
    else if less(x, s[0]) then [x] + s
    else
      assert forall y :: y in s <==> y == s[0] || y in s[1..];
      var rest := InsertKey(x, s[1..], less);
      assert forall j :: 0 <= j < |rest| ==> less(s[0], rest[j]) by {
        forall j | 0 <= j < |rest|
          ensures less(s[0], rest[j])
        {
          assert rest[j] in rest;
        }
      }
      [s[0]] + rest
  }

  /** The distinct keys of `ks`, in ascending order. */
  function SortKeys<K(==,!new)>(ks: seq<K>, less: (K, K) -> bool): (r: seq<K>)
    requires StrictTotalOrder(less)
    ensures StrictlySorted(r, less)
    ensures forall y :: y in r <==> y in ks
  {
    if ks == [] then []
    else
      assert forall y :: y in ks <==> y == ks[0] || y in ks[1..];
      InsertKey(ks[0], SortKeys(ks[1..], less), less)
  }

  /** Lexicographic order on strings by character code, a proper prefix first:
      the order in which pandas sorts string keys. */
  predicate StringLess(a: string, b: string)
  {
    if |a| == 0 then |b| > 0
    else if |b| == 0 then false
    else if a[0] != b[0] then a[0] < b[0]
    else StringLess(a[1..], b[1..])
  }

  lemma {:induction false} StringLessIrreflexive(a: string)
    ensures !StringLess(a, a)
  {
    if |a| > 0 {
      StringLessIrreflexive(a[1..]);
    }
  }

  lemma {:induction false} StringLessTransitive(a: string, b: string, c: string)
    requires StringLess(a, b) && StringLess(b, c)
    ensures StringLess(a, c)
  {
    if |a| > 0 && a[0] == b[0] && b[0] == c[0] {
      StringLessTransitive(a[1..], b[1..], c[1..]);
    }
  }

  lemma {:induction false} StringLessTotal(a: string, b: string)
    requires a != b
    ensures StringLess(a, b) || StringLess(b, a)
  {
    if |a| > 0 && |b| > 0 && a[0] == b[0] {
      assert a == [a[0]] + a[1..] && b == [b[0]] + b[1..];
      StringLessTotal(a[1..], b[1..]);
    }
  }

  /** String order is a strict total order, so sorting string keys is well defined. */
  lemma StringLessIsStrictTotal()
    ensures StrictTotalOrder(StringLess)
  {
    forall a: string
      ensures !StringLess(a, a)
    {
      StringLessIrreflexive(a);
    }
    forall a: string, b: string, c: string | StringLess(a, b) && StringLess(b, c)
      ensures StringLess(a, c)
    {
      StringLessTransitive(a, b, c);
    }
    forall a: string, b: string | a != b
      ensures StringLess(a, b) || StringLess(b, a)
    {
      StringLessTotal(a, b);
    }
  }
}
