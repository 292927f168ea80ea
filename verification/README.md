# Sales dashboard: a verified model of its data pipeline

The system is a single-page Streamlit dashboard over a CSV file of sales line items.
It does five things:

- It loads the file and drops the lines missing a date, quantity or price. It coerces those columns and derives Total Revenue (quantity × price) and Year.
- It shows three headline metrics over the whole table: total revenue, units sold, and average order value.
- It shows a global monthly revenue trend.
- It filters the table by a year-range slider and a product multiselect. By default the multiselect holds the first five products.
- It shows three drill-down tables over the filtered rows. The product table has sums, the mean price and the distinct-order count. The monthly table has sums and the mean price. The city table holds the top five cities by revenue. The city table also feeds a map that knows the coordinates of five cities only.

This project restates that pipeline in Dafny and proves what it promises. The modules follow the stages of the script:

- `Records`: the raw line and the cleaned sales record.
- `Loader`: dropping and coercing lines. `LoadAndClean` is the two-pass loop; `Clean` is the function it is proved against.
- `Metrics`: the headline metrics.
- `Filters`: the year range, the year filter, the default product selection and the product filter.
- `Analysis`: the product, monthly and city tables, and the global trend.
- `Geo`: the coordinate lookup of the city map.
- `Dashboard`: one run of the script, from a loaded table and the widget values to everything displayed.
- `Seqs`, `Ordering`, `Grouping`, `Wrappers`: generic sequence helpers and a model of a pandas `groupby`. A `groupby` returns one summary per distinct key, keys ascending; its group sums add up to the total (`Grouping.GroupedSum`).

Modelling choices:

- Money is integer cents, so sums are exact.
- A missing value (pandas NaN) is `None`. Sums skip it, so it adds 0. The mean price averages only the rows that have a price, and is `None` when no row has one.
- A `groupby` drops rows whose key is missing. So the monthly table and the trend see only the rows that have a date.

How the code behaves at its edges, and so the model:

- **Drop order.** The drop at `streamlit_app.py:25` runs before the coercions at lines 26-28. It removes only lines where the date, quantity or price cell is absent. A present but unparseable value therefore stays in the table as a missing value (`Loader.UnparseableValueSurvives`).
- **Headline metrics.** All three headline metrics and the global trend cover the whole loaded table, before any filter (`streamlit_app.py:37-39`, `streamlit_app.py:127`).
- **No Year.** `int(df['Year'].min())` at line 55 fails when no row has a Year, which includes an empty table. `Dashboard.Render` returns `Failure(NoYear)` exactly then.
- **Ties in the city table.** `sort_values` at line 105 uses its default algorithm, which is not stable, so the order of cities with equal revenue is unspecified. The model sorts stably, but no contract depends on how ties are ordered.

## Model

| member | source | states |
|---|---|---|
| Loader.Coerce | streamlit_app.py:26-30 | the parsed quantity, price and date become the record's fields and an unparseable cell becomes missing; revenue is quantity × price and missing when either is; Year is the date's year and missing without a date; the id, product, address and city carry over |
| Loader.Clean | streamlit_app.py:25-30 | the loaded table has no more rows than the file, and every loaded row has consistent derived columns |
| Loader.CleanConcat | streamlit_app.py:25-30 | loading works line by line: it distributes over concatenation, and a single line is kept, coerced, exactly when its three required cells are present |
| Loader.UnparseableValueSurvives | streamlit_app.py:25-28 | a line whose price is present but unparseable is kept, with missing price and missing revenue |
| Loader.LoadAndClean | streamlit_app.py:25-30 | the drop pass followed by the coercion pass yields exactly `Clean(raw)` |
| Metrics.TotalsSkipMissing | streamlit_app.py:37-38 | total revenue and units sold are the sums over the rows that have a revenue, respectively a quantity: missing values are skipped |
| Metrics.TotalsConcat | streamlit_app.py:37-38 | the totals are column sums: they add up over any split of the table, and one row contributes its own revenue and quantity |
| Metrics.OrderIds | streamlit_app.py:39 | the distinct Order IDs: no duplicates, exactly the ids of the rows, at most one per row, and none only for an empty table |
| Metrics.AverageOrderValue | streamlit_app.py:39 | average order value × number of distinct orders = total revenue when there is an order; 0 for an empty table |
| Metrics.AverageOrderValueBounds | streamlit_app.py:37-39 | with no negative revenue, the average order value lies between 0 and the total revenue |
| Metrics.ExampleOrderIds | streamlit_app.py:39 | the worked example (two items of order 1, one of order 2) has the distinct orders [1, 2] |
| Metrics.MetricsExample | streamlit_app.py:37-39 | on the worked example: revenue 50.00, 8 units, 25.00 per order |
| Filters.YearRange | streamlit_app.py:55-56 | missing exactly when no row has a Year; otherwise the smallest and the largest Year, both attained, bracketing every Year |
| Filters.FilterYears | streamlit_app.py:67 | keeps exactly the rows whose Year lies in the inclusive range; a missing Year is never kept |
| Filters.FilterYearsInOrder | streamlit_app.py:67 | the year filter keeps the input order: it distributes over concatenation and keeps a single row exactly when its Year is in range |
| Filters.OwnYearRangeKeepsAll | streamlit_app.py:59-67 | the slider's initial value keeps every row that has a Year, and so the whole table when every row has one |
| Filters.Products | streamlit_app.py:70 | the distinct products: no duplicates, and exactly the products of the rows |
| Filters.DefaultSelection | streamlit_app.py:70-75 | the first five distinct products, or all when fewer, in order of first appearance; a row whose product is left out comes after the first row of every selected product |
| Filters.FilterProducts | streamlit_app.py:77 | keeps exactly the rows whose product is selected; an empty selection keeps nothing |
| Filters.FilterProductsInOrder | streamlit_app.py:77 | the product filter works row by row: it distributes over concatenation and keeps a single row exactly when its product is selected, so order and repeated line items are kept |
| Filters.AllProductsKeepAll | streamlit_app.py:70-77 | selecting every product of the table keeps the table unchanged |
| Filters.FullViewIsIdentity | streamlit_app.py:55-77 | the table's own year range plus all its products filter nothing out of a table whose rows all have a Year |
| Analysis.MeanPrice | streamlit_app.py:84 | the NaN-skipping mean price: missing exactly when no row of the group has a price; otherwise the sum of the present prices over their count (a value that, times the count, gives back the sum), between the smallest and the largest price |
| Analysis.ProductKeys | streamlit_app.py:81 | the product group keys: strictly ascending, each naming a non-empty group, covering every row |
| Analysis.ProductAnalysis | streamlit_app.py:80-89 | one entry per product, products strictly ascending, every row's product present; each entry holds its group's revenue, units, mean price and distinct-order count, and that count is between 1 and the group size; no rows give no entries |
| Analysis.ProductAnalysisTotals | streamlit_app.py:81-86 | the revenue and units columns of the product table add up to the totals over its input rows |
| Analysis.Dated | streamlit_app.py:92-93 | the rows the month group-by sees are exactly the rows with an Order Date |
| Analysis.DatedInOrder | streamlit_app.py:92-93 | the rows the month group-by sees are the dated rows in input order, each line item once: the selection distributes over concatenation and keeps a single row exactly when it has a date |
| Analysis.MonthKeys | streamlit_app.py:92-93 | the month keys: strictly chronological, each naming a non-empty group, covering every dated row |
| Analysis.MonthlyAnalysis | streamlit_app.py:91-99 | one entry per month that has a dated row, months strictly chronological; each entry holds its month's revenue, units and mean price; no dated rows give no entries |
| Analysis.MonthlyAnalysisTotals | streamlit_app.py:93-97 | the monthly revenue and units add up to the totals over the dated rows, and so over all rows when every row is dated |
| Analysis.GlobalTrend | streamlit_app.py:42-45 | one point per month that has a dated row, months strictly chronological, every dated row's month present, each point holding the revenue of its month's rows |
| Analysis.GlobalTrendMatchesMonthly | streamlit_app.py:42-45 | the global trend has the same months, in the same order, and the same revenues as the monthly table of the same rows, and adds up to the revenue of the dated rows |
| Analysis.CityKeys | streamlit_app.py:102 | the city group keys: strictly ascending, each naming a non-empty group, covering every row |
| Analysis.CityGroups | streamlit_app.py:102-104 | one entry per city, no city twice, every row's city present, and each entry holds its city's revenue and units |
| Analysis.InsertByRevenue | streamlit_app.py:105 | inserting into a list ordered by descending revenue keeps it ordered, and the result holds exactly the old entries and the new one |
| Analysis.InsertByRevenuePermutation | streamlit_app.py:105 | inserting adds the new entry once and loses nothing (equal multisets) |
| Analysis.InsertByRevenueDistinct | streamlit_app.py:105 | inserting a city not yet listed keeps the cities distinct |
| Analysis.SortByRevenue | streamlit_app.py:105 | the descending sort returns a permutation of its input ordered by non-increasing revenue |
| Analysis.SortByRevenueDistinct | streamlit_app.py:105 | sorting keeps distinct cities distinct |
| Analysis.SortedMembers | streamlit_app.py:105 | the first n sorted entries come from the input, and an input entry outside them sits at position n or later |
| Analysis.TopFive | streamlit_app.py:105 | `head(5)` of the sorted list: min(5, n) entries, non-increasing revenue, all from the input, distinct when the input is, and none left out has more revenue than any kept |
| Analysis.CityAnalysis | streamlit_app.py:101-106 | the top five cities: min(5, number of cities) entries, largest revenue first, no city twice, each a city's group, and no city left out has more revenue than any listed; no rows give no entries |
| Geo.Enrich | streamlit_app.py:172-182 | the map rows are exactly the city rows whose city is in the five-city gazetteer, in input order, each with that city's coordinates |
| Geo.EnrichConcat | streamlit_app.py:180-182 | the lookup works row by row: it distributes over concatenation, and one row yields its located self when its city is known and nothing otherwise |
| Geo.UnknownCityDropped | streamlit_app.py:173-182 | a city missing from the gazetteer is dropped however large its revenue, while Paris keeps its coordinates |
| Grouping.GroupKeys | streamlit_app.py:81 | a group-by's keys: strictly ascending, no duplicates, covering every row, each naming a non-empty group |
| Grouping.GroupedSum | streamlit_app.py:81-86 | a group-by loses and double-counts nothing: when each summary carries its group's sum, the summaries add up to the sum over all rows |
| Dashboard.FilteredRows | streamlit_app.py:67-77 | a row is kept exactly when it lies in the selected year range and its product is chosen (the user's choice or the default five of those years); the result is that single mask applied to the table, so order and repeated line items are kept |
| Dashboard.Render | streamlit_app.py:34-111 | fails exactly when no row has a Year; otherwise the slider spans the table's year range, which brackets every Year; the headline metrics and the trend are those of the whole table; the product, monthly and city tables are those of the filtered rows; the map rows are the located cities of the city table, at most five |
| Dashboard.EmptySelectionShowsNothing | streamlit_app.py:77-111 | deselecting every product empties the product, monthly and city tables and the map |
| Dashboard.TablesAgreeOnRevenue | streamlit_app.py:109-110 | on a loaded table, the product table and the monthly table both add up to the revenue of the filtered rows |
| Dashboard.LoadedTablesAgree | streamlit_app.py:25-110 | for any file, the product and monthly tables built from what it loads report the same total revenue |
| Dashboard.InitialViewShowsEverything | streamlit_app.py:55-77 | with the slider at its initial value and at most five products, the default view filters nothing out of a table whose rows all have a Year |

## Left out

- Reading the CSV file, its Latin-1 decoding and the column renaming (`streamlit_app.py:15-24`): the raw lines, already under their canonical column names, are the input.
- What `pd.to_datetime` and `pd.to_numeric` accept: a raw cell carries the outcome of its coercion.
- The `st.cache_data` caching, the page layout, the tabs and all widget rendering: the widgets' current values are the `Selection` input of `Dashboard.Render`.
- The Plotly charts, the Folium map with its marker radius and tooltip, and the `$x,.2f` currency formatting: these are presentation only.
- Floating-point arithmetic: prices and revenue are exact integer cents, and the means are exact reals.
- Quantity Ordered is an integer: a fractional quantity is not modelled.
- Order ID, Product and City are assumed present on every line: the code never coerces or checks them.
- The period-to-timestamp conversion of the Month column: a month stays a (year, month) pair.
- The columns added in place to the caller's tables (`Month` at lines 43 and 92; `LAT` and `LON` at lines 180-181): the model returns new values and does not capture that aliasing.
- Analysis.CityAnalysis: does not fix the order of cities with equal revenue, because the code's non-stable sort leaves it unspecified.
