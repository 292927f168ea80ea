/** The rows of the sales table: one raw line item as read from the CSV file,
    and one cleaned sales record as held by the dashboard. Money is held in
    integer cents so that sums are exact. */
module Records {
  import opened Wrappers

  /** A calendar date as produced by `pd.to_datetime`. */
  datatype Date = Date(year: int, month: int, day: int)

  /** A calendar month (`to_period('M')`). */
  datatype Month = Month(year: int, month: int)

  /** A raw cell of a column that is later coerced: absent from the file
      (`NaN` after reading), or present with the result of the coercion, which
      is `None` when the text does not parse (`errors='coerce'`). */
  datatype Cell<T> = Missing | Present(parsed: Option<T>)

  /** A line of the input file, with its columns under their canonical names. */
  datatype RawRow = RawRow(
    orderId: int,
    product: string,
    quantityOrdered: Cell<int>,
    priceEach: Cell<int>,
    orderDate: Cell<Date>,
    purchaseAddress: string,
    city: string)

  /** A cleaned sales record: coerced columns may still be missing, and
      Total Revenue and Year are derived from them. */
  datatype Sale = Sale(
    orderId: int,
    product: string,
    quantityOrdered: Option<int>,
    priceEach: Option<int>,
    orderDate: Option<Date>,
    purchaseAddress: string,
    city: string,
    totalRevenue: Option<int>,
    year: Option<int>)

  /** The derived columns agree with the columns they are derived from:
      missing operands give a missing result, as NaN does. */
  predicate Derived(s: Sale)
  {
    && s.totalRevenue == (if s.quantityOrdered.Some? && s.priceEach.Some?
                          then Some(s.quantityOrdered.value * s.priceEach.value) else None)
    && s.year == (if s.orderDate.Some? then Some(s.orderDate.value.year) else None)
  }

  /** Contribution of a row to a revenue sum; pandas sums skip missing values. */
  function Revenue(s: Sale): int
  {
    if s.totalRevenue.Some? then s.totalRevenue.value else 0
  }

  /** Contribution of a row to a units sum. */
  function Units(s: Sale): int
  {
    if s.quantityOrdered.Some? then s.quantityOrdered.value else 0
  }

  /** Contribution of a row to a price sum. */
  function Price(s: Sale): int
  {
    if s.priceEach.Some? then s.priceEach.value else 0
  }

  function OrderIdOf(s: Sale): int { s.orderId }

  function ProductOf(s: Sale): string { s.product }

  function CityOf(s: Sale): string { s.city }

  predicate HasQuantity(s: Sale) { s.quantityOrdered.Some? }

  predicate HasPrice(s: Sale) { s.priceEach.Some? }

  predicate HasRevenue(s: Sale) { s.totalRevenue.Some? }

  predicate HasDate(s: Sale) { s.orderDate.Some? }

  predicate HasYear(s: Sale) { s.year.Some? }

  /** The month of a dated row. Grouping by month first drops the undated rows,
      so the placeholder of the undated case never names a group. */
  function MonthKey(s: Sale): Month
  {
    match s.orderDate
    case Some(d) => Month(d.year, d.month)
    case None => Month(0, 0)
  }

  /** Chronological order on months. */
  predicate MonthLess(a: Month, b: Month)
  {
    a.year < b.year || (a.year == b.year && a.month < b.month)
  }
}
