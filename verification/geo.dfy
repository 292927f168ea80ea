/** The coordinate lookup of the city map (`generate_city_map`): each city of
    the city table is looked up in a fixed five-city gazetteer; cities not in it
    are dropped silently. Drawing the map is not part of this model. */
module Geo {
  import opened Seqs
  import opened Analysis

  /** Latitude and longitude in degrees. */
  datatype Coordinates = Coordinates(lat: real, lon: real)

  /** A city-table row with its coordinates (the LAT and LON columns). */
  datatype GeoRow = GeoRow(city: string, totalRevenue: int, totalUnitsSold: int, lat: real, lon: real)

  /** The only cities the map knows. */
  const Gazetteer: map<string, Coordinates> := map[
    "Madrid" := Coordinates(40.4168, -3.7038),
    "San Rafael" := Coordinates(37.9735, -122.5311),
    "NYC" := Coordinates(40.7128, -74.0060),
    "Singapore" := Coordinates(1.3521, 103.8198),
    "Paris" := Coordinates(48.8566, 2.3522)]

  /** The city has an entry in the gazetteer (its LAT/LON are not NaN). */
  predicate Known(c: CityMetrics)
  {
    c.city in Gazetteer
  }

  /** The row with the gazetteer's coordinates of its city. */
  function Locate(c: CityMetrics): GeoRow
    requires Known(c)
  {
    GeoRow(c.city, c.totalRevenue, c.totalUnitsSold, Gazetteer[c.city].lat, Gazetteer[c.city].lon)
  }

  /** The row without its coordinates. */
  function Unlocate(g: GeoRow): CityMetrics
  {
    CityMetrics(g.city, g.totalRevenue, g.totalUnitsSold)
  }

  /** The map's rows: exactly the input rows whose city is in the gazetteer, in
      input order, each with that city's coordinates. */
  function Enrich(cities: seq<CityMetrics>): (r: seq<GeoRow>)
    ensures |r| == |Filter(cities, Known)|
    ensures forall i :: 0 <= i < |r| ==> Unlocate(r[i]) == Filter(cities, Known)[i]
    ensures forall i :: 0 <= i < |r| ==>
              r[i].city in Gazetteer && Gazetteer[r[i].city] == Coordinates(r[i].lat, r[i].lon)
  {
    var known := Filter(cities, Known);
    assert forall i :: 0 <= i < |known| ==> known[i] in known;
    seq(|known|, i requires 0 <= i < |known| => Locate(known[i]))
  }

  /** Enrichment works row by row: it distributes over concatenation, and one
      row yields its located self when its city is known and nothing otherwise. */
  lemma EnrichConcat(a: seq<CityMetrics>, b: seq<CityMetrics>)
    ensures Enrich(a + b) == Enrich(a) + Enrich(b)
    ensures forall c :: Enrich([c]) == if Known(c) then [Locate(c)] else []
  {
    FilterConcat(a, b, Known);
    var ka, kb := Filter(a, Known), Filter(b, Known);
    assert Filter(a + b, Known) == ka + kb;
    assert |Enrich(a + b)| == |Enrich(a) + Enrich(b)|;
    forall i | 0 <= i < |Enrich(a + b)|
      ensures Enrich(a + b)[i] == (Enrich(a) + Enrich(b))[i]
    {
      if i < |ka| {
        assert (ka + kb)[i] == ka[i];
      } else {
        assert (ka + kb)[i] == kb[i - |ka|];
      }
    }
    forall c
      ensures Enrich([c]) == if Known(c) then [Locate(c)] else []
    {
      assert [c][1..] == [];
    }
  }

  /** A city missing from the gazetteer is dropped whatever its revenue. */
  lemma UnknownCityDropped()
    ensures Enrich([CityMetrics("Atlantis", 900000000, 40), CityMetrics("Paris", 500, 1)]) ==
            [GeoRow("Paris", 500, 1, 48.8566, 2.3522)]
  {
    assert "Atlantis" !in Gazetteer;
    EnrichConcat([CityMetrics("Atlantis", 900000000, 40)], [CityMetrics("Paris", 500, 1)]);
  }
}
