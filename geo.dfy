/** Positions, rectangles and the items the library clusters. */
module Geo {

  datatype Option<T> = None | Some(value: T)

  /** A latitude/longitude pair, here in whole units. */
  datatype Position = Position(lat: int, lng: int)

  /** A `LatLngBounds`: the south-west and north-east corners of an axis-aligned rectangle. */
  datatype Bounds = Bounds(south: int, west: int, north: int, east: int)

  /** A `ClusterItem`: its position, whether it is shown and whether it may join a cluster.
      `id` stands for the rest of the application's value, which decides equality. */
  datatype Item = Item(id: int, position: Position, visible: bool, clusterable: bool)

  function Min(a: int, b: int): int { if a <= b then a else b }
  function Max(a: int, b: int): int { if a <= b then b else a }

  /** The corners are in order, as the `LatLngBounds` constructor demands. */
  predicate WellFormed(b: Bounds)
  {
    b.south <= b.north && b.west <= b.east
  }

  /** `LatLngBounds.contains`. */
  predicate Contains(b: Bounds, p: Position)
  {
    b.south <= p.lat <= b.north && b.west <= p.lng <= b.east
  }

  /** Every point of `inner` is a point of `outer`. */
  predicate Encloses(outer: Bounds, inner: Bounds)
  {
    outer.south <= inner.south && inner.north <= outer.north &&
    outer.west <= inner.west && inner.east <= outer.east
  }

  /** `new LatLngBounds(p, p)`: the rectangle holding exactly one point. */
  function PointBounds(p: Position): (b: Bounds)
    ensures WellFormed(b)
    ensures forall q :: Contains(b, q) <==> q == p
  {
    Bounds(p.lat, p.lng, p.lat, p.lng)
  }

  /** `LatLngBounds.including`: the smallest rectangle holding `b` and `p`. */
  function Including(b: Bounds, p: Position): (r: Bounds)
    ensures Contains(r, p) && Encloses(r, b)
    ensures WellFormed(b) ==> WellFormed(r)
    ensures forall o :: Encloses(o, b) && Contains(o, p) ==> Encloses(o, r)
    ensures Contains(b, p) ==> r == b
  {
    Bounds(Min(b.south, p.lat), Min(b.west, p.lng), Max(b.north, p.lat), Max(b.east, p.lng))
  }

  /** `LatLngBounds.getCenter`: the midpoint of each side, rounded down. */
  function Center(b: Bounds): (c: Position)
    ensures 2 * c.lat <= b.south + b.north <= 2 * c.lat + 1
    ensures 2 * c.lng <= b.west + b.east <= 2 * c.lng + 1
    ensures WellFormed(b) ==> Contains(b, c)
  {
    Position((b.south + b.north) / 2, (b.west + b.east) / 2)
  }
}
