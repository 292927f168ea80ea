/** The filter layer: the year range taken from the data, the year-range
    filter, the default product selection and the product filter. */
module Filters {
  import opened Wrappers
  import opened Seqs
  import opened Records

  /** The smallest and largest Year of the table. `None` when no row has a
      year: there the script's `int(df['Year'].min())` fails on NaN. */
  function YearRange(rows: seq<Sale>): (r: Option<(int, int)>)
    ensures r.None? <==> forall x :: x in rows ==> !HasYear(x)
    ensures r.Some? ==> r.value.0 <= r.value.1
    ensures r.Some? ==> forall x :: x in rows && HasYear(x) ==> r.value.0 <= x.year.value <= r.value.1
    ensures r.Some? ==> exists x :: x in rows && x.year == Some(r.value.0)
    ensures r.Some? ==> exists x :: x in rows && x.year == Some(r.value.1)
  {
    if rows == [] then None
    else
      assert rows[0] in rows;
      assert forall x :: x in rows <==> x == rows[0] || x in rows[1..];
      var rest := YearRange(rows[1..]);
      match rows[0].year
      case None => rest
      case Some(y) =>
        match rest
        case None => Some((y, y))
        case Some((lo, hi)) => Some((if y < lo then y else lo, if y > hi then y else hi))
  }

  /** The row's Year lies in the inclusive range. A missing Year compares false. */
  predicate InYears(x: Sale, fromYear: int, toYear: int)
  {
    x.year.Some? && fromYear <= x.year.value <= toYear
  }

  /** The rows with `fromYear <= Year <= toYear`. */
  function FilterYears(rows: seq<Sale>, fromYear: int, toYear: int): (r: seq<Sale>)
    ensures forall x :: x in r <==> x in rows && InYears(x, fromYear, toYear)
  {
    Filter(rows, x => InYears(x, fromYear, toYear))
  }

  /** The year filter keeps rows in their input order: it works row by row. */
  lemma FilterYearsInOrder(a: seq<Sale>, b: seq<Sale>, fromYear: int, toYear: int)
    ensures FilterYears(a + b, fromYear, toYear) == FilterYears(a, fromYear, toYear) + FilterYears(b, fromYear, toYear)
    ensures forall x :: FilterYears([x], fromYear, toYear) == if InYears(x, fromYear, toYear) then [x] else []
  {
    FilterConcat(a, b, x => InYears(x, fromYear, toYear));
    forall x
      ensures FilterYears([x], fromYear, toYear) == if InYears(x, fromYear, toYear) then [x] else []
    {
      assert [x][1..] == [];
    }
  }

  /** The slider's initial value, the table's own year range, keeps every row
      that has a year, and so every row of a table whose rows all have one. */
  lemma OwnYearRangeKeepsAll(rows: seq<Sale>)
    requires YearRange(rows).Some?
    ensures FilterYears(rows, YearRange(rows).value.0, YearRange(rows).value.1) == Filter(rows, HasYear)
    ensures (forall x :: x in rows ==> HasYear(x)) ==>
              FilterYears(rows, YearRange(rows).value.0, YearRange(rows).value.1) == rows
  {
    var (lo, hi) := YearRange(rows).value;
    FilterSame(rows, x => InYears(x, lo, hi), HasYear);
    if forall x :: x in rows ==> HasYear(x) {
      FilterAll(rows, HasYear);
    }
  }

  /** The Product column. */
  function ProductColumn(rows: seq<Sale>): seq<string>
  {
    Map(rows, ProductOf)
  }

  /** The distinct products, in order of first appearance (`unique()`). */
  function Products(rows: seq<Sale>): (ps: seq<string>)
    ensures NoDuplicates(ps)
    ensures forall x :: x in rows ==> x.product in ps
    ensures forall p :: p in ps ==> p in ProductColumn(rows)
  {
    var ps := Distinct(ProductColumn(rows));
    assert forall x :: x in rows ==> x.product in ProductColumn(rows) by {
      forall x | x in rows
        ensures x.product in ProductColumn(rows)
      {
        var i :| 0 <= i < |rows| && rows[i] == x;
        assert ProductColumn(rows)[i] == x.product;
      }
    }
    ps
  }

  /** The products selected by default: the first five distinct products (or all,
      when there are fewer), in order of first appearance. A row whose product
      is left out comes after the first row of every selected product. */
  function DefaultSelection(rows: seq<Sale>): (sel: seq<string>)
    ensures |sel| == if |Products(rows)| <= 5 then |Products(rows)| else 5
    ensures NoDuplicates(sel)
    ensures forall p :: p in sel ==> p in ProductColumn(rows)
    ensures forall i, j :: 0 <= i < j < |sel| ==>
              IndexOf(ProductColumn(rows), sel[i]) < IndexOf(ProductColumn(rows), sel[j])
    ensures forall k, i :: 0 <= k < |rows| && rows[k].product !in sel && 0 <= i < |sel| ==>
              IndexOf(ProductColumn(rows), sel[i]) < k
  {
    var col := ProductColumn(rows);
    DistinctFirstAppearance(col);
    TakeDistinctFirst(col, 5);
    Take(Products(rows), 5)
  }

  /** The rows whose product is selected (`isin`). */
  function FilterProducts(rows: seq<Sale>, selected: seq<string>): (r: seq<Sale>)
    ensures forall x :: x in r <==> x in rows && x.product in selected
    ensures selected == [] ==> r == []
  {
    var r := Filter(rows, (x: Sale) => x.product in selected);
    assert r != [] ==> r[0] in r;
    r
  }

  /** The product filter keeps rows in input order and keeps repeated line
      items: it works row by row. */
  lemma FilterProductsInOrder(a: seq<Sale>, b: seq<Sale>, selected: seq<string>)
    ensures FilterProducts(a + b, selected) == FilterProducts(a, selected) + FilterProducts(b, selected)
    ensures forall x :: FilterProducts([x], selected) == if x.product in selected then [x] else []
  {
    FilterConcat(a, b, (x: Sale) => x.product in selected);
    forall x
      ensures FilterProducts([x], selected) == if x.product in selected then [x] else []
    {
      assert [x][1..] == [];
    }
  }

  /** Selecting every product of a table keeps the whole table. */
  lemma AllProductsKeepAll(rows: seq<Sale>)
    ensures FilterProducts(rows, Products(rows)) == rows
  {
    FilterAll(rows, (x: Sale) => x.product in Products(rows));
  }

  /** Filtering by the table's own year range and all its products returns the
      table unchanged, when every row has a year. */
  lemma FullViewIsIdentity(rows: seq<Sale>)
    requires rows != [] && forall x :: x in rows ==> HasYear(x)
    ensures YearRange(rows).Some?
    ensures var (lo, hi) := YearRange(rows).value;
            FilterProducts(FilterYears(rows, lo, hi), Products(FilterYears(rows, lo, hi))) == rows
  {
    assert rows[0] in rows;
    OwnYearRangeKeepsAll(rows);
    AllProductsKeepAll(rows);
  }
}
