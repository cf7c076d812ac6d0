/** The math helpers at the top of the engine: box overlap, clamping and distance tests.

    `getDistance` takes a square root; every use of it compares the distance with a
    non-negative radius, which is modelled as a comparison of squared distances. */
module Geometry {
  import opened Types

  /** A box given by its centre and full extents, as `isColliding` reads its arguments. */
  datatype Box = Box(x: real, y: real, width: real, height: real)

  /** A rectangle given by its top-left corner, as `rectIntersect` reads its arguments. */
  datatype Rect = Rect(x: real, y: real, w: real, h: real)

  /** The same box given by its top-left corner. */
  function CornerRect(b: Box): Rect
  {
    Rect(b.x - b.width / 2.0, b.y - b.height / 2.0, b.width, b.height)
  }

  /** Strict overlap of two top-left rectangles: touching edges do not count. */
  function RectIntersect(r1: Rect, r2: Rect): (r: bool)
    ensures r ==> r1.x < r2.x + r2.w && r2.x < r1.x + r1.w
    ensures r ==> r1.y < r2.y + r2.h && r2.y < r1.y + r1.h
  {
    r1.x < r2.x + r2.w &&
    r1.x + r1.w > r2.x &&
    r1.y < r2.y + r2.h &&
    r1.y + r1.h > r2.y
  }

  /** A point strictly inside a rectangle. */
  predicate Inside(p: Vec, r: Rect)
  {
    r.x < p.x < r.x + r.w && r.y < p.y < r.y + r.h
  }

  /** For rectangles of positive size, `rectIntersect` holds exactly when some point lies
      strictly inside both; the centre of the overlap is such a point. */
  lemma RectIntersectCommonPoint(r1: Rect, r2: Rect)
    requires r1.w > 0.0 && r1.h > 0.0 && r2.w > 0.0 && r2.h > 0.0
    ensures RectIntersect(r1, r2) <==> exists p :: Inside(p, r1) && Inside(p, r2)
  {
    if RectIntersect(r1, r2) {
      var loX := if r1.x > r2.x then r1.x else r2.x;
      var hiX := if r1.x + r1.w < r2.x + r2.w then r1.x + r1.w else r2.x + r2.w;
      var loY := if r1.y > r2.y then r1.y else r2.y;
      var hiY := if r1.y + r1.h < r2.y + r2.h then r1.y + r1.h else r2.y + r2.h;
      var p := Vec((loX + hiX) / 2.0, (loY + hiY) / 2.0);
      assert Inside(p, r1) && Inside(p, r2);
    }
  }

  /** The order of the two rectangles does not matter. */
  lemma RectIntersectSymmetric(r1: Rect, r2: Rect)
    ensures RectIntersect(r1, r2) <==> RectIntersect(r2, r1)
  {
  }

  /** Rectangles that only share an edge do not intersect. */
  lemma TouchingApart(r1: Rect, r2: Rect)
    requires r2.x == r1.x + r1.w || r2.y == r1.y + r1.h
    ensures !RectIntersect(r1, r2) && !RectIntersect(r2, r1)
  {
  }

  /** Overlap of two centred boxes; it is the corner-based test on the same boxes. */
  function IsColliding(r1: Box, r2: Box): (r: bool)
    ensures r <==> RectIntersect(CornerRect(r1), CornerRect(r2))
  {
    r1.x - r1.width / 2.0 < r2.x + r2.width / 2.0 &&
    r1.x + r1.width / 2.0 > r2.x - r2.width / 2.0 &&
    r1.y - r1.height / 2.0 < r2.y + r2.height / 2.0 &&
    r1.y + r1.height / 2.0 > r2.y - r2.height / 2.0
  }

  lemma CollidingSymmetric(a: Box, b: Box)
    ensures IsColliding(a, b) <==> IsColliding(b, a)
  {
  }

  /** `Math.min(Math.max(val, min), max)`. */
  function Clamp(val: real, min: real, max: real): (r: real)
    ensures r <= max
    ensures min <= max ==> min <= r
    ensures min <= val <= max ==> r == val
    ensures val < min <= max ==> r == min
    ensures min <= max < val ==> r == max
  {
    var lo := if val > min then val else min;
    if lo < max then lo else max
  }

  function DistSq(a: Vec, b: Vec): real
  {
    (b.x - a.x) * (b.x - a.x) + (b.y - a.y) * (b.y - a.y)
  }

  /** `getDistance(a, b) < radius`, for a non-negative radius. */
  predicate Within(a: Vec, b: Vec, radius: real)
  {
    DistSq(a, b) < radius * radius
  }

  /** `getDistance(a, b) > radius`, for a non-negative radius. */
  predicate Beyond(a: Vec, b: Vec, radius: real)
  {
    DistSq(a, b) > radius * radius
  }

  /** Outside the open interval (lo, hi) on one axis, as the fence tests read. */
  predicate OutOfBounds(p: Vec, lo: real, hiX: real, hiY: real)
  {
    p.x < lo || p.x > hiX || p.y < lo || p.y > hiY
  }
}
