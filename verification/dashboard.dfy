/** The dashboard script's data flow: load once, compute the global metrics and
    trend over the whole table, filter by the selected years and products, and
    compute the three drill-down tables and the map rows over the filtered rows.
    The widgets' current values are inputs; rendering is not part of this model. */
module Dashboard {
  import opened Wrappers
  import opened Seqs
  import opened Records
  import opened Loader
  import opened Metrics
  import opened Filters
  import opened Analysis
  import opened Geo

  /** The user's choices: the year slider's two ends, and the product
      multiselect (`None` while it shows its default). */
  datatype Selection = Selection(fromYear: int, toYear: int, products: Option<seq<string>>)

  /** Everything the dashboard displays. */
  datatype View = View(
    totalRevenue: int,
    totalUnitsSold: int,
    averageOrderValue: real,
    trend: seq<TrendPoint>,
    yearRange: (int, int),
    products: seq<ProductMetrics>,
    months: seq<MonthMetrics>,
    cities: seq<CityMetrics>,
    mapRows: seq<GeoRow>)

  /** The table has no Year to build the year slider from. */
  datatype DashboardError = NoYear

  /** The products the multiselect holds: the user's choice, or by default the
      first five products of the selected years. */
  function Chosen(df: seq<Sale>, sel: Selection): seq<string>
  {
    match sel.products
    case None => DefaultSelection(FilterYears(df, sel.fromYear, sel.toYear))
    case Some(ps) => ps
  }

  /** The rows of the selected years whose product is chosen: both masks work
      as one row-by-row selection over the table, which keeps the table's order
      and its repeated line items. */
  function FilteredRows(df: seq<Sale>, sel: Selection): (r: seq<Sale>)
    ensures forall x :: x in r <==> x in df && InYears(x, sel.fromYear, sel.toYear) && x.product in Chosen(df, sel)
    ensures r == Filter(df, (x: Sale) => InYears(x, sel.fromYear, sel.toYear) && x.product in Chosen(df, sel))
  {
    var chosen := Chosen(df, sel);
    FilterFilter(df, x => InYears(x, sel.fromYear, sel.toYear), (x: Sale) => x.product in chosen,
                 (x: Sale) => InYears(x, sel.fromYear, sel.toYear) && x.product in chosen);
    FilterProducts(FilterYears(df, sel.fromYear, sel.toYear), chosen)
  }

  /** One run of the script over a loaded table. It fails exactly when no row
      has a Year. Otherwise the headline metrics and the trend cover the whole
      table, the slider spans its year range, the three tables cover the
      filtered rows, and the map shows the located cities of the city table. */
  function Render(df: seq<Sale>, sel: Selection): (r: Result<View, DashboardError>)
    ensures r.Failure? <==> forall x :: x in df ==> !HasYear(x)
    ensures r.Success? ==> YearRange(df).Some? && r.value.yearRange == YearRange(df).value
    ensures r.Success? ==> forall x :: x in df && HasYear(x) ==>
              r.value.yearRange.0 <= x.year.value <= r.value.yearRange.1
    ensures r.Success? ==>
              && r.value.totalRevenue == TotalRevenue(df)
              && r.value.totalUnitsSold == TotalUnitsSold(df)
              && r.value.averageOrderValue == AverageOrderValue(df)
              && r.value.trend == GlobalTrend(df)
    ensures r.Success? ==>
              && r.value.products == ProductAnalysis(FilteredRows(df, sel))
              && r.value.months == MonthlyAnalysis(FilteredRows(df, sel))
              && r.value.cities == CityAnalysis(FilteredRows(df, sel))
              && r.value.mapRows == Enrich(r.value.cities)
    ensures r.Success? ==> |r.value.cities| <= 5 && |r.value.mapRows| <= |r.value.cities|
  {
    match YearRange(df)
    case None => Failure(NoYear)
    case Some(range) =>
      var rows := FilteredRows(df, sel);
      var cities := CityAnalysis(rows);
      Success(View(
        TotalRevenue(df), TotalUnitsSold(df), AverageOrderValue(df), GlobalTrend(df), range,
        ProductAnalysis(rows), MonthlyAnalysis(rows), cities, Enrich(cities)))
  }

  /** Deselecting every product empties all tables and the map. */
  lemma EmptySelectionShowsNothing(df: seq<Sale>, fromYear: int, toYear: int)
    ensures var r := Render(df, Selection(fromYear, toYear, Some([])));
            r.Success? ==> r.value.products == [] && r.value.months == [] && r.value.cities == [] && r.value.mapRows == []
  {
    var rows := FilteredRows(df, Selection(fromYear, toYear, Some([])));
    assert rows == [];
    assert Dated(rows) == [];
  }

  /** On a loaded table, the product table and the monthly table account for the
      same revenue: every filtered row has a Year, hence a date, so the monthly
      group-by drops none of them. */
  lemma TablesAgreeOnRevenue(df: seq<Sale>, sel: Selection)
    requires forall x :: x in df ==> Derived(x)
    ensures var r := Render(df, sel);
            r.Success? ==>
              Sum(r.value.products, (m: ProductMetrics) => m.totalRevenue) ==
              Sum(r.value.months, (m: MonthMetrics) => m.totalRevenue) ==
              TotalRevenue(FilteredRows(df, sel))
  {
    var rows := FilteredRows(df, sel);
    ProductAnalysisTotals(rows);
    MonthlyAnalysisTotals(rows);
  }

  /** Loading and then rendering: on a loaded table the tables' revenue adds up
      to the revenue of the filtered rows. */
  lemma LoadedTablesAgree(raw: seq<RawRow>, sel: Selection)
    ensures var r := Render(Clean(raw), sel);
            r.Success? ==>
              Sum(r.value.products, (m: ProductMetrics) => m.totalRevenue) ==
              Sum(r.value.months, (m: MonthMetrics) => m.totalRevenue)
  {
    TablesAgreeOnRevenue(Clean(raw), sel);
  }

  /** With the slider at the table's own range and no more than five products,
      the default view filters nothing out of a table whose rows all have a Year. */
  lemma InitialViewShowsEverything(df: seq<Sale>)
    requires df != [] && forall x :: x in df ==> HasYear(x)
    requires |Products(df)| <= 5
    ensures YearRange(df).Some?
    ensures var (lo, hi) := YearRange(df).value;
            FilteredRows(df, Selection(lo, hi, None)) == df
  {
    assert df[0] in df;
    var (lo, hi) := YearRange(df).value;
    assert FilterYears(df, lo, hi) == df by {
      OwnYearRangeKeepsAll(df);
    }
    assert DefaultSelection(df) == Products(df);
    assert FilterProducts(df, Products(df)) == df by {
      AllProductsKeepAll(df);
    }
  }
}
