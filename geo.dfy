/**
 * The map projection of the timeline view: latitude/longitude scaled linearly
 * into the map image's box and shifted by its offset, and the inverse formula
 * the debug tools use to turn a point on the map back into coordinates.
 * Rotation is kept in the configuration but, as in the view, it only turns
 * the background picture and takes no part in either formula.
 */
module Geo {

  datatype Bounds = Bounds(minLat: real, maxLat: real, minLng: real, maxLng: real)
  datatype Size = Size(width: real, height: real)
  /** A point in the map container's pixel space. */
  datatype Point = Point(x: real, y: real)
  datatype LatLng = LatLng(lat: real, lng: real)
  datatype MapConfig = MapConfig(bounds: Bounds, size: Size, offset: Point, rotation: real)

  /** The view's initial `mapBounds`, `mapSize`, `mapOffset` and `mapRotation`. */
  const DefaultConfig: MapConfig :=
    MapConfig(Bounds(22.0, 51.9, -124.3, -66.0), Size(1100.0, 700.0), Point(50.0, 50.0), 0.0)

  /** Neither span of the bounds is empty, so projecting divides by non-zero numbers. */
  predicate Projectable(c: MapConfig) {
    c.bounds.maxLng != c.bounds.minLng && c.bounds.maxLat != c.bounds.minLat
  }

  /** The map box has a non-zero width and height, so the inverse divides by non-zero numbers. */
  predicate Unprojectable(c: MapConfig) {
    c.size.width != 0.0 && c.size.height != 0.0
  }

  /**
   * `getScreenPosition`: the distance from the offset is proportional to the
   * distance from the western and northern edges of the bounds.
   */
  function ScreenPosition(c: MapConfig, ll: LatLng): (p: Point)
    requires Projectable(c)
    ensures (p.x - c.offset.x) * (c.bounds.maxLng - c.bounds.minLng) == (ll.lng - c.bounds.minLng) * c.size.width
    ensures (p.y - c.offset.y) * (c.bounds.maxLat - c.bounds.minLat) == (c.bounds.maxLat - ll.lat) * c.size.height
  {
    var b := c.bounds;
    var x := ((ll.lng - b.minLng) / (b.maxLng - b.minLng)) * c.size.width;
    var y := ((b.maxLat - ll.lat) / (b.maxLat - b.minLat)) * c.size.height;
    Point(x + c.offset.x, y + c.offset.y)
  }

  /**
   * The inverse written out in `handleMapClick` and `exportCustomPositions`:
   * the same proportion as `ScreenPosition`, solved for the coordinates.
   */
  function Unproject(c: MapConfig, p: Point): (ll: LatLng)
    requires Unprojectable(c)
    ensures (p.x - c.offset.x) * (c.bounds.maxLng - c.bounds.minLng) == (ll.lng - c.bounds.minLng) * c.size.width
    ensures (p.y - c.offset.y) * (c.bounds.maxLat - c.bounds.minLat) == (c.bounds.maxLat - ll.lat) * c.size.height
  {
    var b := c.bounds;
    var x := p.x - c.offset.x;
    var y := p.y - c.offset.y;
    LatLng(b.maxLat - (y / c.size.height) * (b.maxLat - b.minLat),
           (x / c.size.width) * (b.maxLng - b.minLng) + b.minLng)
  }

  /** Scaling into a box and back is the identity. */
  lemma ScaleRoundTrip(v: real, span: real, extent: real)
    requires span != 0.0 && extent != 0.0
    ensures ((v / span) * extent / extent) * span == v
  {
    var q := v / span;
    assert q * extent / extent == q;
    assert q * span == v;
  }

  /** Projecting and then unprojecting gives back the coordinates. */
  lemma UnprojectScreenPosition(c: MapConfig, ll: LatLng)
    requires Projectable(c) && Unprojectable(c)
    ensures Unproject(c, ScreenPosition(c, ll)) == ll
  {
    var b := c.bounds;
    ScaleRoundTrip(ll.lng - b.minLng, b.maxLng - b.minLng, c.size.width);
    ScaleRoundTrip(b.maxLat - ll.lat, b.maxLat - b.minLat, c.size.height);
  }

  /** Unprojecting and then projecting gives back the point. */
  lemma ScreenPositionUnproject(c: MapConfig, p: Point)
    requires Projectable(c) && Unprojectable(c)
    ensures ScreenPosition(c, Unproject(c, p)) == p
  {
    var b := c.bounds;
    ScaleRoundTrip(p.x - c.offset.x, c.size.width, b.maxLng - b.minLng);
    ScaleRoundTrip(p.y - c.offset.y, c.size.height, b.maxLat - b.minLat);
  }

  /** `v / span * extent` is strictly increasing in `v` for positive span and extent. */
  lemma ScaleIncreasing(u: real, v: real, span: real, extent: real)
    requires u < v && span > 0.0 && extent > 0.0
    ensures (u / span) * extent < (v / span) * extent
  {
    assert u / span < v / span;
  }

  /** With bounds and size the usual way round, north is up and east is right. */
  lemma NorthUpEastRight(c: MapConfig, a: LatLng, b: LatLng)
    requires c.bounds.maxLat > c.bounds.minLat && c.bounds.maxLng > c.bounds.minLng
    requires c.size.width > 0.0 && c.size.height > 0.0
    ensures a.lat > b.lat ==> ScreenPosition(c, a).y < ScreenPosition(c, b).y
    ensures a.lng > b.lng ==> ScreenPosition(c, a).x > ScreenPosition(c, b).x
  {
    var bd := c.bounds;
    if a.lat > b.lat {
      ScaleIncreasing(bd.maxLat - a.lat, bd.maxLat - b.lat, bd.maxLat - bd.minLat, c.size.height);
    }
    if a.lng > b.lng {
      ScaleIncreasing(b.lng - bd.minLng, a.lng - bd.minLng, bd.maxLng - bd.minLng, c.size.width);
      assert ScreenPosition(c, a).x - c.offset.x == ((a.lng - bd.minLng) / (bd.maxLng - bd.minLng)) * c.size.width;
      assert ScreenPosition(c, b).x - c.offset.x == ((b.lng - bd.minLng) / (bd.maxLng - bd.minLng)) * c.size.width;
    }
  }

  /** The north-west corner of the bounds lands on the offset, the south-east one a box size away. */
  lemma CornersOnBox(c: MapConfig)
    requires Projectable(c)
    ensures ScreenPosition(c, LatLng(c.bounds.maxLat, c.bounds.minLng)) == c.offset
    ensures ScreenPosition(c, LatLng(c.bounds.minLat, c.bounds.maxLng)) ==
            Point(c.offset.x + c.size.width, c.offset.y + c.size.height)
  {
  }

  /** The view's initial configuration can be used both ways. */
  lemma DefaultConfigInvertible()
    ensures Projectable(DefaultConfig) && Unprojectable(DefaultConfig)
  {
  }
}
