/** The high-level metrics shown on the home tab, computed over the whole
    loaded table before any filter. */
module Metrics {
  import opened Wrappers
  import opened Seqs
  import opened Records

  /** Sum of Total Revenue; rows with a missing revenue add nothing. */
  function TotalRevenue(rows: seq<Sale>): int
  {
    Sum(rows, Revenue)
  }

  /** Sum of Quantity Ordered; rows with a missing quantity add nothing. */
  function TotalUnitsSold(rows: seq<Sale>): int
  {
    Sum(rows, Units)
  }

  /** The totals skip missing values (pandas `sum` skips NaN): they are the sums
      over the rows that have a revenue, respectively a quantity. */
  lemma TotalsSkipMissing(rows: seq<Sale>)
    ensures TotalRevenue(rows) == Sum(Filter(rows, HasRevenue), Revenue)
    ensures TotalUnitsSold(rows) == Sum(Filter(rows, HasQuantity), Units)
  {
    SumSkipsZeros(rows, HasRevenue, Revenue);
    SumSkipsZeros(rows, HasQuantity, Units);
  }

  /** The totals are column sums: they add up over any split of the table, and
      one row contributes its own revenue and quantity. */
  lemma TotalsConcat(a: seq<Sale>, b: seq<Sale>)
    ensures TotalRevenue(a + b) == TotalRevenue(a) + TotalRevenue(b)
    ensures TotalUnitsSold(a + b) == TotalUnitsSold(a) + TotalUnitsSold(b)
    ensures forall x :: TotalRevenue([x]) == Revenue(x) && TotalUnitsSold([x]) == Units(x)
  {
    SumConcat(a, b, Revenue);
    SumConcat(a, b, Units);
    forall x
      ensures TotalRevenue([x]) == Revenue(x) && TotalUnitsSold([x]) == Units(x)
    {
      assert [x][1..] == [];
      assert Sum([x], Revenue) == Revenue(x) + Sum([x][1..], Revenue);
      assert Sum([x], Units) == Units(x) + Sum([x][1..], Units);
    }
  }

  /** The distinct Order IDs (`unique()`): one per order, not per line item. */
  function OrderIds(rows: seq<Sale>): (ids: seq<int>)
    ensures NoDuplicates(ids)
    ensures forall x :: x in rows ==> x.orderId in ids
    ensures forall id :: id in ids ==> exists x :: x in rows && x.orderId == id
    ensures |ids| <= |rows|
    ensures |ids| == 0 <==> rows == []
  {
    var ids := Distinct(Map(rows, OrderIdOf));
    assert forall x :: x in rows ==> x.orderId in Map(rows, OrderIdOf) by {
      forall x | x in rows
        ensures x.orderId in Map(rows, OrderIdOf)
      {
        var i :| 0 <= i < |rows| && rows[i] == x;
        assert Map(rows, OrderIdOf)[i] == x.orderId;
      }
    }
    assert rows != [] ==> rows[0] in rows;
    ids
  }

  /** A lower bound on the terms of a mean is a lower bound on the mean. */
  lemma DivAtLeast(a: int, total: int, n: int)
    requires n > 0 && a * n <= total
    ensures a as real <= total as real / n as real
  {
    var q := total as real / n as real;
    assert q * n as real == total as real;
    assert (a as real) * (n as real) <= q * (n as real);
  }

  /** An upper bound on the terms of a mean is an upper bound on the mean. */
  lemma DivAtMost(a: int, total: int, n: int)
    requires n > 0 && total <= a * n
    ensures total as real / n as real <= a as real
  {
    var q := total as real / n as real;
    assert q * n as real == total as real;
    assert q * (n as real) <= (a as real) * (n as real);
  }

  /** A quotient times its divisor gives back the dividend. */
  lemma DivTimes(total: int, n: int)
    requires n > 0
    ensures (total as real / n as real) * (n as real) == total as real
  {
  }

  /** Revenue per distinct order, guarded to 0 when there is no order. */
  function AverageOrderValue(rows: seq<Sale>): (aov: real)
    ensures |OrderIds(rows)| > 0 ==> aov * (|OrderIds(rows)| as real) == TotalRevenue(rows) as real
    ensures rows == [] ==> aov == 0.0
  {
    var orders := |OrderIds(rows)|;
    if orders > 0 then
      var q := TotalRevenue(rows) as real / orders as real;
      assert q * orders as real == TotalRevenue(rows) as real;
      q
    else 0.0
  }

  /** With no negative revenue, the average order value lies between 0 and the
      total revenue. */
  lemma AverageOrderValueBounds(rows: seq<Sale>)
    requires forall x :: x in rows ==> Revenue(x) >= 0
    ensures 0.0 <= AverageOrderValue(rows) <= TotalRevenue(rows) as real
  {
    var t := TotalRevenue(rows);
    SumAtLeast(rows, Revenue, 0);
    if rows != [] {
      var n := |OrderIds(rows)|;
      assert n >= 1;
      DivAtLeast(0, t, n);
      MulStep(n, t);
      assert (n - 1) * t >= 0;
      DivAtMost(t, t, n);
    }
  }

  /** The worked example: two line items of order 1 and one of order 2,
      prices in cents. */
  function ExampleRows(): seq<Sale>
  {
    [Sale(1, "Classic Cars", Some(2), Some(1000), Some(Date(2003, 1, 6)), "", "NYC", Some(2000), Some(2003)),
     Sale(1, "Classic Cars", Some(1), Some(1000), Some(Date(2003, 1, 6)), "", "NYC", Some(1000), Some(2003)),
     Sale(2, "Vintage Cars", Some(5), Some(400), Some(Date(2003, 2, 1)), "", "Paris", Some(2000), Some(2003))]
  }

  /** The worked example holds two distinct orders, 1 and 2. */
  lemma ExampleOrderIds()
    ensures OrderIds(ExampleRows()) == [1, 2]
  {
    var column := Map(ExampleRows(), OrderIdOf);
    assert column == [1, 1, 2];
    assert column[..2] == [1, 1] && column[..2][..1] == [1] && column[..2][..1][..0] == [];
    assert Distinct(column[..2][..1]) == [1];
    assert Distinct(column[..2]) == [1];
  }

  /** On the worked example: revenue 50.00, 8 units and 25.00 per order. */
  lemma MetricsExample()
    ensures TotalRevenue(ExampleRows()) == 5000
    ensures TotalUnitsSold(ExampleRows()) == 8
    ensures AverageOrderValue(ExampleRows()) == 2500.0
  {
    var rows := ExampleRows();
    assert rows[1..][1..][1..] == [];
    ExampleOrderIds();
  }
}
