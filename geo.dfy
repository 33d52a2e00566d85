/**
 * Geometry as the explorer sees it. Coordinates, polygons and buffers are
 * values; the spatial predicate itself belongs to the geometry engine, a
 * library outside the model, and is passed around as a function value.
 */
module Geo {
  /** A position in the map's planar reference, longitude first as in GeoJSON. */
  datatype Coord = Coord(lon: real, lat: real)

  datatype Geometry =
    | Point(at: Coord)
    | Polyline(path: seq<Coord>)
    | Polygon(rings: seq<seq<Coord>>)
      /** The engine's buffer of `meters` around `center`, kept symbolic. */
    | Buffer(center: Coord, meters: real)

  /** The engine's "intersects" test of a query geometry against a station point. */
  type Intersects = (Geometry, Coord) -> bool
}
