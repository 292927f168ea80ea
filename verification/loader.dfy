/** Loading the sales table (`load_and_clean_data`): drop the lines missing a
    required column, then coerce the typed columns and derive Total Revenue and
    Year. Reading the file itself is not part of this model: the raw lines are
    the input. */
module Loader {
  import opened Wrappers
  import opened Seqs
  import opened Records

  /** The three columns of the `dropna` subset all have a cell in the file. */
  predicate HasRequiredCells(r: RawRow)
  {
    r.quantityOrdered.Present? && r.priceEach.Present? && r.orderDate.Present?
  }

  /** The value a cell holds after coercion: a missing cell or one that does
      not parse both become a missing value. */
  function Coerced<T>(c: Cell<T>): Option<T>
  {
    match c
    case Missing => None
    case Present(v) => v
  }

  /** The line after coercion, with Total Revenue and Year derived. */
  function Coerce(r: RawRow): (s: Sale)
    ensures Derived(s)
    ensures s.orderId == r.orderId && s.product == r.product && s.city == r.city
    ensures s.purchaseAddress == r.purchaseAddress
    ensures s.quantityOrdered == Coerced(r.quantityOrdered)
    ensures s.priceEach == Coerced(r.priceEach)
    ensures s.orderDate == Coerced(r.orderDate)
    ensures r.quantityOrdered == Present(None) ==> s.quantityOrdered.None? && s.totalRevenue.None?
    ensures r.priceEach == Present(None) ==> s.priceEach.None? && s.totalRevenue.None?
    ensures r.orderDate == Present(None) ==> s.orderDate.None? && s.year.None?
    ensures forall q, p :: r.quantityOrdered == Present(Some(q)) && r.priceEach == Present(Some(p)) ==>
              s.totalRevenue == Some(q * p)
    ensures forall d :: r.orderDate == Present(Some(d)) ==> s.year == Some(d.year)
  {
    var q := Coerced(r.quantityOrdered);
    var p := Coerced(r.priceEach);
    var d := Coerced(r.orderDate);
    Sale(r.orderId, r.product, q, p, d, r.purchaseAddress, r.city,
         if q.Some? && p.Some? then Some(q.value * p.value) else None,
         if d.Some? then Some(d.value.year) else None)
  }

  /** The loaded table: the lines with all required cells, in order, each coerced.
      Every loaded record carries consistent derived columns. */
  function Clean(raw: seq<RawRow>): (rows: seq<Sale>)
    ensures |rows| <= |raw|
    ensures forall s :: s in rows ==> Derived(s)
  {
    Map(Filter(raw, HasRequiredCells), Coerce)
  }

  /** Loading works line by line: it distributes over concatenation, and a
      single line is kept, coerced, exactly when its required cells are present. */
  lemma CleanConcat(a: seq<RawRow>, b: seq<RawRow>)
    ensures Clean(a + b) == Clean(a) + Clean(b)
    ensures forall x :: Clean([x]) == if HasRequiredCells(x) then [Coerce(x)] else []
  {
    FilterConcat(a, b, HasRequiredCells);
    forall x
      ensures Clean([x]) == if HasRequiredCells(x) then [Coerce(x)] else []
    {
      assert [x][1..] == [];
    }
  }

  /** The drop happens before the coercion: a line whose price is present but
      unparseable survives loading, with missing price and revenue. */
  lemma UnparseableValueSurvives(x: RawRow)
    requires HasRequiredCells(x) && x.priceEach == Present(None)
    ensures |Clean([x])| == 1
    ensures Clean([x])[0].priceEach.None? && Clean([x])[0].totalRevenue.None?
  {
    CleanConcat([], [x]);
  }

  /** `load_and_clean_data`: the `dropna` pass over the lines, then the coercion
      pass over the survivors. */
  method LoadAndClean(raw: seq<RawRow>) returns (rows: seq<Sale>)
    ensures rows == Clean(raw)
  {
    var kept: seq<RawRow> := [];
    var i := 0;
    while i < |raw|
      invariant 0 <= i <= |raw|
      invariant kept == Filter(raw[..i], HasRequiredCells)
    {
      assert raw[..i + 1] == raw[..i] + [raw[i]];
      FilterConcat(raw[..i], [raw[i]], HasRequiredCells);
      assert [raw[i]][1..] == [];
      if HasRequiredCells(raw[i]) {
        kept := kept + [raw[i]];
      }
      i := i + 1;
    }
    assert raw[..|raw|] == raw;

    rows := [];
    var j := 0;
    while j < |kept|
      invariant 0 <= j <= |kept|
      invariant |rows| == j
      invariant forall k :: 0 <= k < j ==> rows[k] == Coerce(kept[k])
    {
      rows := rows + [Coerce(kept[j])];
      j := j + 1;
    }
  }
}
