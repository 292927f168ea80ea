/** The three drill-down tables (`get_product_analysis`, `get_monthly_analysis`,
    `get_city_analysis`) and the global monthly revenue trend, each a group-by
    with per-group sums, means and distinct counts. */
module Analysis {
  import opened Wrappers
  import opened Seqs
  import opened Ordering
  import opened Grouping
  import opened Records
  import opened Metrics

  /** One row of the product table. */
  datatype ProductMetrics = ProductMetrics(
    product: string,
    totalRevenue: int,
    totalUnitsSold: int,
    averagePricePerUnit: Option<real>,
    totalOrders: nat)

  /** One row of the monthly table. */
  datatype MonthMetrics = MonthMetrics(
    month: Month,
    totalRevenue: int,
    totalUnitsSold: int,
    averagePricePerUnit: Option<real>)

  /** One point of the global revenue trend. */
  datatype TrendPoint = TrendPoint(month: Month, totalRevenue: int)

  /** One row of the city table. */
  datatype CityMetrics = CityMetrics(city: string, totalRevenue: int, totalUnitsSold: int)

  /** The mean price of priced rows lies between the smallest and the largest price. */
  lemma MeanBetween(s: seq<Sale>)
    requires s != []
    ensures exists x :: x in s && Price(x) as real <= Sum(s, Price) as real / |s| as real
    ensures exists x :: x in s && Sum(s, Price) as real / |s| as real <= Price(x) as real
  {
    var lo := MinIndex(s, Price);
    SumAtLeast(s, Price, Price(s[lo]));
    DivAtLeast(Price(s[lo]), Sum(s, Price), |s|);
    assert s[lo] in s;
    var hi := MaxIndex(s, Price);
    SumAtMost(s, Price, Price(s[hi]));
    DivAtMost(Price(s[hi]), Sum(s, Price), |s|);
    assert s[hi] in s;
  }

  /** The quotient of a sum by a positive count: the value that, times the
      count, gives back the sum. */
  function Mean(total: int, count: int): (q: real)
    requires count > 0
    ensures q * (count as real) == total as real
  {
    DivTimes(total, count);
    total as real / count as real
  }

  /** The mean over the priced rows of a group lies between the smallest and
      the largest price of the group. */
  lemma PricedMean(g: seq<Sale>)
    requires Filter(g, HasPrice) != []
    ensures var priced := Filter(g, HasPrice);
            var mean := Mean(Sum(priced, Price), |priced|);
            && (exists x :: x in g && HasPrice(x) && x.priceEach.value as real <= mean)
            && (exists x :: x in g && HasPrice(x) && mean <= x.priceEach.value as real)
  {
    var priced := Filter(g, HasPrice);
    MeanBetween(priced);
  }

  /** The mean Price Each of a group, over the rows that have a price (pandas
      `mean` skips NaN); missing when no row has one. It is the sum of the prices
      over their count, and lies between the group's smallest and largest price. */
  function MeanPrice(g: seq<Sale>): (m: Option<real>)
    ensures m.None? <==> forall x :: x in g ==> !HasPrice(x)
    ensures m.Some? ==> exists x :: x in g && HasPrice(x) && x.priceEach.value as real <= m.value
    ensures m.Some? ==> exists x :: x in g && HasPrice(x) && m.value <= x.priceEach.value as real
    ensures m.Some? ==> |Filter(g, HasPrice)| > 0 && m.value == Mean(Sum(Filter(g, HasPrice), Price), |Filter(g, HasPrice)|)
  {
    var priced := Filter(g, HasPrice);
    if |priced| == 0 then
      assert priced == [];
      None
    else
      assert priced[0] in priced;
      PricedMean(g);
      Some(Mean(Sum(priced, Price), |priced|))
  }

  // ---------------------------------------------------------------- products

  /** The aggregates of one product's rows. */
  function ProductSummary(product: string, g: seq<Sale>): ProductMetrics
  {
    ProductMetrics(product, TotalRevenue(g), TotalUnitsSold(g), MeanPrice(g), |OrderIds(g)|)
  }

  /** The distinct products, ascending. */
  function ProductKeys(rows: seq<Sale>): (ks: seq<string>)
    ensures StrictlySorted(ks, StringLess) && NoDuplicates(ks)
    ensures forall x :: x in rows ==> x.product in ks
    ensures forall k :: k in ks ==> Group(rows, ProductOf, k) != []
  {
    StringLessIsStrictTotal();
    GroupKeys(rows, ProductOf, StringLess)
  }

  /** `get_product_analysis`: one row per distinct product, products ascending,
      each with the sums, mean price and distinct-order count of that product's rows. */
  function ProductAnalysis(rows: seq<Sale>): (r: seq<ProductMetrics>)
    ensures forall i, j :: 0 <= i < j < |r| ==> StringLess(r[i].product, r[j].product)
    ensures forall x :: x in rows ==> exists i :: 0 <= i < |r| && r[i].product == x.product
    ensures forall i :: 0 <= i < |r| ==>
              var g := Group(rows, ProductOf, r[i].product);
              && g != []
              && r[i].totalRevenue == TotalRevenue(g)
              && r[i].totalUnitsSold == TotalUnitsSold(g)
              && r[i].averagePricePerUnit == MeanPrice(g)
              && r[i].totalOrders == |OrderIds(g)|
              && 1 <= r[i].totalOrders <= |g|
    ensures rows == [] ==> r == []
  {
    var ks := ProductKeys(rows);
    var r := Grouped(rows, ProductOf, ks, ProductSummary);
    assert forall i, j :: 0 <= i < j < |r| ==> StringLess(r[i].product, r[j].product) by {
      forall i, j | 0 <= i < j < |r|
        ensures StringLess(r[i].product, r[j].product)
      {
        assert r[i].product == ks[i] && r[j].product == ks[j];
      }
    }
    assert forall x :: x in rows ==> exists i :: 0 <= i < |r| && r[i].product == x.product by {
      forall x | x in rows
        ensures exists i :: 0 <= i < |r| && r[i].product == x.product
      {
        var i := IndexOf(ks, x.product);
        assert r[i].product == x.product;
      }
    }
    assert forall i :: 0 <= i < |r| ==>
              var g := Group(rows, ProductOf, r[i].product);
              && g != []
              && r[i].totalRevenue == TotalRevenue(g)
              && r[i].totalUnitsSold == TotalUnitsSold(g)
              && r[i].averagePricePerUnit == MeanPrice(g)
              && r[i].totalOrders == |OrderIds(g)|
              && 1 <= r[i].totalOrders <= |g| by {
      forall i | 0 <= i < |r|
        ensures var g := Group(rows, ProductOf, r[i].product);
                && g != []
                && r[i].totalRevenue == TotalRevenue(g)
                && r[i].totalUnitsSold == TotalUnitsSold(g)
                && r[i].averagePricePerUnit == MeanPrice(g)
                && r[i].totalOrders == |OrderIds(g)|
                && 1 <= r[i].totalOrders <= |g|
      {
        var g := Group(rows, ProductOf, ks[i]);
        assert ks[i] in ks;
        assert r[i] == ProductSummary(ks[i], g);
        assert |OrderIds(g)| <= |g|;
      }
    }
    r
  }

  /** The product table loses and double-counts nothing: its revenue and unit
      columns add up to the totals over the input rows. */
  lemma ProductAnalysisTotals(rows: seq<Sale>)
    ensures Sum(ProductAnalysis(rows), (m: ProductMetrics) => m.totalRevenue) == TotalRevenue(rows)
    ensures Sum(ProductAnalysis(rows), (m: ProductMetrics) => m.totalUnitsSold) == TotalUnitsSold(rows)
  {
    var ks := ProductKeys(rows);
    GroupedSum(rows, ProductOf, ks, ProductSummary, (m: ProductMetrics) => m.totalRevenue, Revenue);
    GroupedSum(rows, ProductOf, ks, ProductSummary, (m: ProductMetrics) => m.totalUnitsSold, Units);
  }

  // ------------------------------------------------------------------ months

  /** Month order is a strict total order. */
  lemma MonthLessIsStrictTotal()
    ensures StrictTotalOrder(MonthLess)
  {
  }

  /** The rows that have an Order Date: the only ones a group-by on Month sees,
      since it drops missing keys. */
  function Dated(rows: seq<Sale>): (r: seq<Sale>)
    ensures forall x :: x in r <==> x in rows && HasDate(x)
  {
    Filter(rows, HasDate)
  }

  /** The month group-by sees the dated rows in input order, each line item
      once: the selection works row by row. */
  lemma DatedInOrder(a: seq<Sale>, b: seq<Sale>)
    ensures Dated(a + b) == Dated(a) + Dated(b)
    ensures forall x :: Dated([x]) == if HasDate(x) then [x] else []
  {
    FilterConcat(a, b, HasDate);
    forall x
      ensures Dated([x]) == if HasDate(x) then [x] else []
    {
      assert [x][1..] == [];
    }
  }

  /** The distinct months of dated rows, chronologically. */
  function MonthKeys(dated: seq<Sale>): (ks: seq<Month>)
    ensures StrictlySorted(ks, MonthLess) && NoDuplicates(ks)
    ensures forall x :: x in dated ==> MonthKey(x) in ks
    ensures forall k :: k in ks ==> Group(dated, MonthKey, k) != []
  {
    MonthLessIsStrictTotal();
    GroupKeys(dated, MonthKey, MonthLess)
  }

  /** The aggregates of one month's rows. */
  function MonthSummary(month: Month, g: seq<Sale>): MonthMetrics
  {
    MonthMetrics(month, TotalRevenue(g), TotalUnitsSold(g), MeanPrice(g))
  }

  /** `get_monthly_analysis`: one row per month that has a dated row, months in
      chronological order, each with the sums and mean price of that month's rows. */
  function MonthlyAnalysis(rows: seq<Sale>): (r: seq<MonthMetrics>)
    ensures forall i, j :: 0 <= i < j < |r| ==> MonthLess(r[i].month, r[j].month)
    ensures forall x :: x in rows && HasDate(x) ==> exists i :: 0 <= i < |r| && r[i].month == MonthKey(x)
    ensures forall i :: 0 <= i < |r| ==>
              var g := Group(Dated(rows), MonthKey, r[i].month);
              && g != []
              && r[i].totalRevenue == TotalRevenue(g)
              && r[i].totalUnitsSold == TotalUnitsSold(g)
              && r[i].averagePricePerUnit == MeanPrice(g)
    ensures Dated(rows) == [] ==> r == []
  {
    var dated := Dated(rows);
    var ks := MonthKeys(dated);
    var r := Grouped(dated, MonthKey, ks, MonthSummary);
    assert forall i, j :: 0 <= i < j < |r| ==> MonthLess(r[i].month, r[j].month) by {
      forall i, j | 0 <= i < j < |r|
        ensures MonthLess(r[i].month, r[j].month)
      {
        assert r[i].month == ks[i] && r[j].month == ks[j];
      }
    }
    assert forall x :: x in dated ==> exists i :: 0 <= i < |r| && r[i].month == MonthKey(x) by {
      forall x | x in dated
        ensures exists i :: 0 <= i < |r| && r[i].month == MonthKey(x)
      {
        var i := IndexOf(ks, MonthKey(x));
        assert r[i].month == MonthKey(x);
      }
    }
    assert forall i :: 0 <= i < |r| ==>
              var g := Group(dated, MonthKey, r[i].month);
              && g != []
              && r[i].totalRevenue == TotalRevenue(g)
              && r[i].totalUnitsSold == TotalUnitsSold(g)
              && r[i].averagePricePerUnit == MeanPrice(g) by {
      forall i | 0 <= i < |r|
        ensures var g := Group(dated, MonthKey, r[i].month);
                && g != []
                && r[i].totalRevenue == TotalRevenue(g)
                && r[i].totalUnitsSold == TotalUnitsSold(g)
                && r[i].averagePricePerUnit == MeanPrice(g)
      {
        assert ks[i] in ks;
        assert r[i] == MonthSummary(ks[i], Group(dated, MonthKey, ks[i]));
      }
    }
    r
  }

  /** The monthly table adds up to the totals over the dated rows, and so over
      all rows when every row has a date. */
  lemma MonthlyAnalysisTotals(rows: seq<Sale>)
    ensures Sum(MonthlyAnalysis(rows), (m: MonthMetrics) => m.totalRevenue) == TotalRevenue(Dated(rows))
    ensures Sum(MonthlyAnalysis(rows), (m: MonthMetrics) => m.totalUnitsSold) == TotalUnitsSold(Dated(rows))
    ensures (forall x :: x in rows ==> HasDate(x)) ==>
              Sum(MonthlyAnalysis(rows), (m: MonthMetrics) => m.totalRevenue) == TotalRevenue(rows)
  {
    var dated := Dated(rows);
    var ks := MonthKeys(dated);
    GroupedSum(dated, MonthKey, ks, MonthSummary, (m: MonthMetrics) => m.totalRevenue, Revenue);
    GroupedSum(dated, MonthKey, ks, MonthSummary, (m: MonthMetrics) => m.totalUnitsSold, Units);
    if forall x :: x in rows ==> HasDate(x) {
      FilterAll(rows, HasDate);
    }
  }

  /** The revenue of one month's rows. */
  function TrendSummary(month: Month, g: seq<Sale>): TrendPoint
  {
    TrendPoint(month, TotalRevenue(g))
  }

  /** `global_revenue_trend`: one point per month that has a dated row, months
      in chronological order, each with the revenue of that month's rows. */
  function GlobalTrend(rows: seq<Sale>): (r: seq<TrendPoint>)
    ensures forall i, j :: 0 <= i < j < |r| ==> MonthLess(r[i].month, r[j].month)
    ensures forall x :: x in rows && HasDate(x) ==> exists i :: 0 <= i < |r| && r[i].month == MonthKey(x)
    ensures forall i :: 0 <= i < |r| ==>
              var g := Group(Dated(rows), MonthKey, r[i].month);
              g != [] && r[i].totalRevenue == TotalRevenue(g)
  {
    var dated := Dated(rows);
    var ks := MonthKeys(dated);
    var r := Grouped(dated, MonthKey, ks, TrendSummary);
    assert forall i, j :: 0 <= i < j < |r| ==> MonthLess(r[i].month, r[j].month) by {
      forall i, j | 0 <= i < j < |r|
        ensures MonthLess(r[i].month, r[j].month)
      {
        assert r[i].month == ks[i] && r[j].month == ks[j];
      }
    }
    assert forall x :: x in dated ==> exists i :: 0 <= i < |r| && r[i].month == MonthKey(x) by {
      forall x | x in dated
        ensures exists i :: 0 <= i < |r| && r[i].month == MonthKey(x)
      {
        var i := IndexOf(ks, MonthKey(x));
        assert r[i].month == MonthKey(x);
      }
    }
    assert forall i :: 0 <= i < |r| ==>
              var g := Group(dated, MonthKey, r[i].month);
              g != [] && r[i].totalRevenue == TotalRevenue(g) by {
      forall i | 0 <= i < |r|
        ensures var g := Group(dated, MonthKey, r[i].month);
                g != [] && r[i].totalRevenue == TotalRevenue(g)
      {
        assert ks[i] in ks;
        assert r[i] == TrendSummary(ks[i], Group(dated, MonthKey, ks[i]));
      }
    }
    r
  }

  /** The trend is the revenue column of the monthly table of the same rows, and
      it adds up to the revenue of the dated rows. */
  lemma GlobalTrendMatchesMonthly(rows: seq<Sale>)
    ensures |GlobalTrend(rows)| == |MonthlyAnalysis(rows)|
    ensures forall i :: 0 <= i < |GlobalTrend(rows)| ==>
              GlobalTrend(rows)[i].month == MonthlyAnalysis(rows)[i].month &&
              GlobalTrend(rows)[i].totalRevenue == MonthlyAnalysis(rows)[i].totalRevenue
    ensures Sum(GlobalTrend(rows), (p: TrendPoint) => p.totalRevenue) == TotalRevenue(Dated(rows))
  {
    var dated := Dated(rows);
    var ks := MonthKeys(dated);
    var trend := GlobalTrend(rows);
    var monthly := MonthlyAnalysis(rows);
    assert trend == Grouped(dated, MonthKey, ks, TrendSummary);
    assert monthly == Grouped(dated, MonthKey, ks, MonthSummary);
    GroupedSum(dated, MonthKey, ks, TrendSummary, (p: TrendPoint) => p.totalRevenue, Revenue);
  }

  // ------------------------------------------------------------------ cities

  /** The aggregates of one city's rows. */
  function CitySummary(city: string, g: seq<Sale>): CityMetrics
  {
    CityMetrics(city, TotalRevenue(g), TotalUnitsSold(g))
  }

  /** No two entries name the same city. */
  predicate DistinctCities(s: seq<CityMetrics>)
  {
    forall i, j :: 0 <= i < j < |s| ==> s[i].city != s[j].city
  }

  /** Revenue never increases down the list. */
  predicate RevenueNonIncreasing(s: seq<CityMetrics>)
  {
    forall i, j :: 0 <= i < j < |s| ==> s[i].totalRevenue >= s[j].totalRevenue
  }

  /** The distinct cities, ascending. */
  function CityKeys(rows: seq<Sale>): (ks: seq<string>)
    ensures StrictlySorted(ks, StringLess) && NoDuplicates(ks)
    ensures forall x :: x in rows ==> x.city in ks
    ensures forall k :: k in ks ==> Group(rows, CityOf, k) != []
  {
    StringLessIsStrictTotal();
    GroupKeys(rows, CityOf, StringLess)
  }

  /** The city group-by before sorting: one entry per city, cities ascending,
      each with the sums of that city's rows. */
  function CityGroups(rows: seq<Sale>): (r: seq<CityMetrics>)
    ensures DistinctCities(r)
    ensures forall x :: x in rows ==> exists c :: c in r && c.city == x.city
    ensures forall c :: c in r ==>
              var g := Group(rows, CityOf, c.city);
              g != [] && c.totalRevenue == TotalRevenue(g) && c.totalUnitsSold == TotalUnitsSold(g)
    ensures rows == [] ==> r == []
  {
    var ks := CityKeys(rows);
    var r := Grouped(rows, CityOf, ks, CitySummary);
    forall x | x in rows
      ensures exists c :: c in r && c.city == x.city
    {
      var i := IndexOf(ks, x.city);
      assert r[i] in r;
    }
    forall c | c in r
      ensures var g := Group(rows, CityOf, c.city);
              g != [] && c.totalRevenue == TotalRevenue(g) && c.totalUnitsSold == TotalUnitsSold(g)
    {
      var i :| 0 <= i < |r| && r[i] == c;
      assert ks[i] in ks;
    }
    r
  }

  /** Inserts `c` into a list sorted by descending revenue, ahead of the first
      entry with no more revenue than `c`. */
  function InsertByRevenue(c: CityMetrics, s: seq<CityMetrics>): (r: seq<CityMetrics>)
    requires RevenueNonIncreasing(s)
    ensures RevenueNonIncreasing(r)
    ensures forall x :: x in r <==> x == c || x in s
  {
    if s == [] then [c]
    else if s[0].totalRevenue <= c.totalRevenue then [c] + s
    else
      var rest := InsertByRevenue(c, s[1..]);
      assert forall x :: x in s <==> x == s[0] || x in s[1..];
      assert forall j :: 0 <= j < |rest| ==> rest[j].totalRevenue <= s[0].totalRevenue by {
        forall j | 0 <= j < |rest|
          ensures rest[j].totalRevenue <= s[0].totalRevenue
        {
          assert rest[j] in rest;
        }
      }
      [s[0]] + rest
  }

  /** Inserting adds `c` and loses nothing. */
  lemma {:induction false} InsertByRevenuePermutation(c: CityMetrics, s: seq<CityMetrics>)
    requires RevenueNonIncreasing(s)
    ensures multiset(InsertByRevenue(c, s)) == multiset(s) + multiset{c}
  {
    if s != [] && s[0].totalRevenue > c.totalRevenue {
      InsertByRevenuePermutation(c, s[1..]);
      assert s == [s[0]] + s[1..];
    }
  }

  /** Inserting a city not yet listed keeps the cities distinct. */
  lemma {:induction false} InsertByRevenueDistinct(c: CityMetrics, s: seq<CityMetrics>)
    requires RevenueNonIncreasing(s) && DistinctCities(s)
    requires forall x :: x in s ==> x.city != c.city
    ensures DistinctCities(InsertByRevenue(c, s))
  {
    if s != [] && s[0].totalRevenue > c.totalRevenue {
      assert forall x :: x in s[1..] ==> x in s;
      InsertByRevenueDistinct(c, s[1..]);
      var rest := InsertByRevenue(c, s[1..]);
      forall j | 0 <= j < |rest|
        ensures rest[j].city != s[0].city
      {
        assert rest[j] in rest;
      }
    }
  }

  /** The city entries sorted by descending revenue (`sort_values(ascending=False)`):
      a permutation of its input. */
  function SortByRevenue(s: seq<CityMetrics>): (r: seq<CityMetrics>)
    ensures RevenueNonIncreasing(r)
    ensures multiset(r) == multiset(s)
  {
    if s == [] then []
    else
      assert s == [s[0]] + s[1..];
      InsertByRevenuePermutation(s[0], SortByRevenue(s[1..]));
      InsertByRevenue(s[0], SortByRevenue(s[1..]))
  }

  /** Sorting keeps the cities distinct. */
  lemma {:induction false} SortByRevenueDistinct(s: seq<CityMetrics>)
    ensures DistinctCities(s) ==> DistinctCities(SortByRevenue(s))
  {
    if s != [] && DistinctCities(s) {
      assert s == [s[0]] + s[1..];
      SortByRevenueDistinct(s[1..]);
      var rest := SortByRevenue(s[1..]);
      forall x | x in rest
        ensures x.city != s[0].city
      {
        assert x in multiset(s[1..]);
      }
      InsertByRevenueDistinct(s[0], rest);
    }
  }

  /** Every entry of the sorted list outside its first `n` entries is one of the
      sorted entries, and the first `n` come from the input. */
  lemma SortedMembers(groups: seq<CityMetrics>, n: nat)
    ensures |SortByRevenue(groups)| == |groups|
    ensures forall c :: c in Take(SortByRevenue(groups), n) ==> c in groups
    ensures forall g :: g in groups && g !in Take(SortByRevenue(groups), n) ==>
              exists k :: n <= k < |SortByRevenue(groups)| && SortByRevenue(groups)[k] == g
  {
    var sorted := SortByRevenue(groups);
    var r := Take(sorted, n);
    assert |multiset(sorted)| == |multiset(groups)|;
    forall c | c in r
      ensures c in groups
    {
      assert c in multiset(sorted);
    }
    forall g | g in groups && g !in r
      ensures exists k :: n <= k < |sorted| && sorted[k] == g
    {
      assert g in multiset(sorted);
      var k :| 0 <= k < |sorted| && sorted[k] == g;
    }
  }

  /** The five entries with the largest revenue (or all, when there are fewer),
      largest first (`sort_values(...).head(5)`). */
  function TopFive(groups: seq<CityMetrics>): (r: seq<CityMetrics>)
    ensures |r| == if |groups| <= 5 then |groups| else 5
    ensures RevenueNonIncreasing(r)
    ensures DistinctCities(groups) ==> DistinctCities(r)
    ensures forall c :: c in r ==> c in groups
    ensures forall g, c :: g in groups && g !in r && c in r ==> g.totalRevenue <= c.totalRevenue
  {
    var sorted := SortByRevenue(groups);
    SortByRevenueDistinct(groups);
    SortedMembers(groups, 5);
    Take(sorted, 5)
  }

  /** `get_city_analysis`: the (at most) five cities with the largest revenue,
      largest first. Every entry is a city's group, no city appears twice, and no
      city left out has more revenue than any city listed. */
  function CityAnalysis(rows: seq<Sale>): (r: seq<CityMetrics>)
    ensures |r| == if |CityGroups(rows)| <= 5 then |CityGroups(rows)| else 5
    ensures RevenueNonIncreasing(r)
    ensures DistinctCities(r)
    ensures forall c :: c in r ==> c in CityGroups(rows)
    ensures forall g, c :: g in CityGroups(rows) && g !in r && c in r ==> g.totalRevenue <= c.totalRevenue
    ensures rows == [] ==> r == []
  {
    TopFive(CityGroups(rows))
  }
}
