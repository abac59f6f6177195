/** Point-in-polygon test on integer coordinates. Coordinates are micro-degrees (the source
    stores six decimal places); x is longitude and y is latitude. `Contains` is the even-odd
    ray-casting rule with the boundary excluded, which is what Shapely's `contains` answers for
    a simple polygon: a point on an edge or a vertex is not contained. */
module Geometry {

  datatype Point = Point(x: int, y: int)

  /** A polygon's outer ring, as the coordinate list of a GeoJSON polygon. The ring is closed
      implicitly: the last vertex is joined to the first (a repeated closing vertex only adds
      a zero-length edge). */
  type Ring = seq<Point>

  function Min(a: int, b: int): int { if a <= b then a else b }
  function Max(a: int, b: int): int { if a <= b then b else a }

  /** Twice the signed area of the triangle (a, b, p): zero exactly when p is on line ab. */
  function Cross(a: Point, b: Point, p: Point): int
  {
    (b.x - a.x) * (p.y - a.y) - (b.y - a.y) * (p.x - a.x)
  }

  predicate OnSegment(p: Point, a: Point, b: Point)
  {
    && Cross(a, b, p) == 0
    && Min(a.x, b.x) <= p.x <= Max(a.x, b.x)
    && Min(a.y, b.y) <= p.y <= Max(a.y, b.y)
  }

  /** Does the ray from p towards +x cross the edge ab? The edge counts when it straddles the
      horizontal line through p (half-open in y) and meets it strictly to the right of p.
      The intersection abscissa is compared by cross-multiplication, so no division occurs. */
  predicate RayCrosses(p: Point, a: Point, b: Point)
  {
    && ((a.y > p.y) != (b.y > p.y))
    && (if b.y > a.y
        then (p.x - a.x) * (b.y - a.y) < (p.y - a.y) * (b.x - a.x)
        else (p.x - a.x) * (b.y - a.y) > (p.y - a.y) * (b.x - a.x))
  }

  function Next(ring: Ring, i: nat): nat
    requires i < |ring|
  {
    if i + 1 < |ring| then i + 1 else 0
  }

  /** Number of edges, among edges i, i+1, ..., |ring|-1, that the ray from p crosses. */
  function CrossingsFrom(ring: Ring, p: Point, i: nat): nat
    requires i <= |ring|
    decreases |ring| - i
  {
    if i == |ring| then 0
    else (if RayCrosses(p, ring[i], ring[Next(ring, i)]) then 1 else 0) + CrossingsFrom(ring, p, i + 1)
  }

  predicate OnBoundary(ring: Ring, p: Point)
  {
    exists i :: 0 <= i < |ring| && OnSegment(p, ring[i], ring[Next(ring, i)])
  }

  /** Strict interior by the even-odd rule. */
  predicate Contains(ring: Ring, p: Point)
  {
    !OnBoundary(ring, p) && CrossingsFrom(ring, p, 0) % 2 == 1
  }

  // ---------------------------------------------------------------------------------------
  // Axis-aligned rectangles: the reference shape

  /** The closed five-vertex ring of the box [x0, x1] x [y0, y1], counter-clockwise. */
  function Box(x0: int, y0: int, x1: int, y1: int): Ring
  {
    [Point(x0, y0), Point(x1, y0), Point(x1, y1), Point(x0, y1), Point(x0, y0)]
  }

  lemma ProductNegative(a: int, b: int)
    requires b > 0
    ensures a * b < 0 <==> a < 0
    ensures a * b == 0 <==> a == 0
  {
    if a < 0 {
      assert a * b <= a;
    } else if a > 0 {
      assert a * b >= b;
    }
  }

  lemma BoxCrossings(x0: int, y0: int, x1: int, y1: int, p: Point)
    requires x0 < x1 && y0 < y1
    ensures CrossingsFrom(Box(x0, y0, x1, y1), p, 0)
         == (if y0 <= p.y < y1 then (if p.x < x1 then 1 else 0) + (if p.x < x0 then 1 else 0) else 0)
  {
    var r := Box(x0, y0, x1, y1);
    ProductNegative(p.x - x1, y1 - y0);
    ProductNegative(p.x - x0, y1 - y0);
    var c1 := if y0 <= p.y < y1 && p.x < x1 then 1 else 0;
    var c3 := if y0 <= p.y < y1 && p.x < x0 then 1 else 0;
    assert RayCrosses(p, r[1], r[2]) <==> y0 <= p.y < y1 && p.x < x1;
    assert (p.x - x0) * (y0 - y1) == -((p.x - x0) * (y1 - y0));
    assert RayCrosses(p, r[3], r[4]) <==> y0 <= p.y < y1 && p.x < x0;
    assert CrossingsFrom(r, p, 5) == 0;
    assert CrossingsFrom(r, p, 4) == 0 by {
      assert !RayCrosses(p, r[4], r[Next(r, 4)]);
    }
    assert CrossingsFrom(r, p, 3) == c3;
    assert CrossingsFrom(r, p, 2) == c3 by {
      assert !RayCrosses(p, r[2], r[3]);
    }
    assert CrossingsFrom(r, p, 1) == c1 + c3;
    assert CrossingsFrom(r, p, 0) == c1 + c3 by {
      assert !RayCrosses(p, r[0], r[1]);
    }
  }

  /** A point lies on an axis-parallel side exactly when it has the side's fixed coordinate
      and lies within the side's range. */
  lemma HorizontalSide(a: Point, b: Point, p: Point)
    requires a.y == b.y && a.x != b.x
    ensures OnSegment(p, a, b) <==> p.y == a.y && Min(a.x, b.x) <= p.x <= Max(a.x, b.x)
  {
    assert Cross(a, b, p) == (b.x - a.x) * (p.y - a.y);
    if b.x > a.x {
      ProductNegative(p.y - a.y, b.x - a.x);
    } else {
      ProductNegative(p.y - a.y, a.x - b.x);
      assert (b.x - a.x) * (p.y - a.y) == -((a.x - b.x) * (p.y - a.y));
    }
  }

  lemma VerticalSide(a: Point, b: Point, p: Point)
    requires a.x == b.x && a.y != b.y
    ensures OnSegment(p, a, b) <==> p.x == a.x && Min(a.y, b.y) <= p.y <= Max(a.y, b.y)
  {
    assert Cross(a, b, p) == -((b.y - a.y) * (p.x - a.x));
    if b.y > a.y {
      ProductNegative(p.x - a.x, b.y - a.y);
    } else {
      ProductNegative(p.x - a.x, a.y - b.y);
      assert (b.y - a.y) * (p.x - a.x) == -((a.y - b.y) * (p.x - a.x));
    }
  }

  lemma BoxBoundary(x0: int, y0: int, x1: int, y1: int, p: Point)
    requires x0 < x1 && y0 < y1
    ensures OnBoundary(Box(x0, y0, x1, y1), p)
        <==> (((p.x == x0 || p.x == x1) && y0 <= p.y <= y1)
              || ((p.y == y0 || p.y == y1) && x0 <= p.x <= x1))
  {
    var r := Box(x0, y0, x1, y1);
    HorizontalSide(r[0], r[1], p);
    VerticalSide(r[1], r[2], p);
    HorizontalSide(r[2], r[3], p);
    VerticalSide(r[3], r[4], p);
    assert OnSegment(p, r[4], r[0]) ==> p == Point(x0, y0);
    assert Next(r, 4) == 0;
    if OnBoundary(r, p) {
      var i :| 0 <= i < |r| && OnSegment(p, r[i], r[Next(r, i)]);
      assert i == 0 || i == 1 || i == 2 || i == 3 || i == 4;
    }
    if p.y == y0 && x0 <= p.x <= x1 {
      assert OnSegment(p, r[0], r[Next(r, 0)]);
    } else if p.x == x1 && y0 <= p.y <= y1 {
      assert OnSegment(p, r[1], r[Next(r, 1)]);
    } else if p.y == y1 && x0 <= p.x <= x1 {
      assert OnSegment(p, r[2], r[Next(r, 2)]);
    } else if p.x == x0 && y0 <= p.y <= y1 {
      assert OnSegment(p, r[3], r[Next(r, 3)]);
    }
  }

  /** Ray casting agrees with the obvious answer on boxes: a point is contained exactly when it
      is strictly inside both coordinate ranges. */
  lemma BoxContains(x0: int, y0: int, x1: int, y1: int, p: Point)
    requires x0 < x1 && y0 < y1
    ensures Contains(Box(x0, y0, x1, y1), p) <==> x0 < p.x < x1 && y0 < p.y < y1
  {
    BoxCrossings(x0, y0, x1, y1, p);
    BoxBoundary(x0, y0, x1, y1, p);
  }

  /** A point strictly above or strictly below every vertex is never contained: no edge
      straddles its horizontal line. */
  lemma {:induction false} OutsideLatitudeBand(ring: Ring, p: Point, i: nat)
    requires i <= |ring|
    requires (forall j :: 0 <= j < |ring| ==> ring[j].y < p.y)
          || (forall j :: 0 <= j < |ring| ==> ring[j].y > p.y)
    ensures CrossingsFrom(ring, p, i) == 0
    ensures i == 0 ==> !Contains(ring, p)
    decreases |ring| - i
  {
    if i < |ring| {
      OutsideLatitudeBand(ring, p, i + 1);
      assert !RayCrosses(p, ring[i], ring[Next(ring, i)]);
    }
  }
}
