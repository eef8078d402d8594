/** The geometries the renderers consume, and the geometry-library queries
    (centroid and envelope corners) they ask of them. */
module Geometries {

  /** One coordinate, `x` the longitude and `y` the latitude. */
  datatype Coord = Coord(x: real, y: real)

  /** The geometry kinds the API v3 renderers distinguish. A LinearRing is a
      LineString here; Multi* geometries are Collections. */
  datatype Geometry =
    | Point(c: Coord)
    | LineString(coords: seq<Coord>)
    | Polygon(shell: seq<Coord>, holes: seq<seq<Coord>>)
    | Collection(children: seq<Geometry>)

  /** Queries answered by the geometry library, not computed here. */
  datatype Queries = Queries(
    centroid: Geometry -> Coord,
    lowerLeft: Geometry -> Coord,
    upperRight: Geometry -> Coord)
}
