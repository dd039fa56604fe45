/** The Elasticsearch queries the two read handlers build, as plain values. */
module Queries {

  /** The default search radius, `DISTANCE`. */
  const DefaultDistance: string := "200km"

  /** The only threshold `handlerCluster` ever asks for. */
  const ClusterThreshold: real := 0.9

  /** `elastic.NewGeoDistanceQuery(field).Distance(distance).Lat(lat).Lon(lon)` and
      `elastic.NewRangeQuery(field).Gte(gte)`. */
  datatype Query =
    | GeoDistance(field: string, distance: string, lat: real, lon: real)
    | Range(field: string, gte: real)

  /** The radius string of a search: the `range` query parameter in kilometres, `DISTANCE`
      when the parameter is empty or absent (Go's `Get` returns "" for both). */
  function Radius(rangeParam: string): (r: string)
    ensures |r| >= 2 && r[|r| - 2..] == "km"
    ensures rangeParam == "" ==> r == DefaultDistance
    ensures rangeParam != "" ==> r[..|r| - 2] == rangeParam
  {
    if rangeParam == "" then DefaultDistance else rangeParam + "km"
  }

  /** Distinct parameters give distinct radii, except that an explicit "200" names the default. */
  lemma RadiusInjective(a: string, b: string)
    requires Radius(a) == Radius(b)
    ensures a == b || (a == "" && b == "200") || (a == "200" && b == "")
  {
  }

  /** The query of `handlerSearch`: a distance query on the posts' "location" field. */
  function SearchQuery(lat: real, lon: real, rangeParam: string): (q: Query)
    ensures q.GeoDistance? && q.field == "location"
    ensures q.lat == lat && q.lon == lon
    ensures rangeParam == "" ==> q.distance == DefaultDistance
    ensures rangeParam != "" ==> q.distance == rangeParam + "km"
  {
    GeoDistance("location", Radius(rangeParam), lat, lon)
  }

  /** The query of `handlerCluster`: the caller names the field, the lower bound is fixed. */
  function ClusterQuery(term: string): (q: Query)
    ensures q.Range? && q.field == term && q.gte == ClusterThreshold
  {
    Range(term, ClusterThreshold)
  }
}
