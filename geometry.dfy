/**
 * Canvas points and the axis-aligned boxes the physics engine keeps for every body.
 * Coordinates are whole pixels; a Euclidean distance test `hypot(dx, dy) > r` is
 * expressed exactly as `dx*dx + dy*dy > r*r`.
 */
module Geometry {

  /** A point on the canvas, relative to its top-left corner. */
  datatype Point = Point(x: int, y: int)

  /** An inclusive axis-aligned box, as the engine's `bounds` `{min, max}`. */
  datatype Bounds = Bounds(min: Point, max: Point)

  function SqDist(p: Point, q: Point): int
  {
    (p.x - q.x) * (p.x - q.x) + (p.y - q.y) * (p.y - q.y)
  }

  /** `p` is strictly more than `r` pixels away from `q`. */
  predicate FartherThan(p: Point, q: Point, r: nat)
  {
    SqDist(p, q) > r * r
  }

  /** The engine's point-in-bounds test: inclusive on every side. */
  predicate Contains(b: Bounds, p: Point)
  {
    b.min.x <= p.x <= b.max.x && b.min.y <= p.y <= b.max.y
  }

  function Min(a: int, b: int): int { if a <= b then a else b }
  function Max(a: int, b: int): int { if a <= b then b else a }

  /** The smallest box holding both `b` and `p`. */
  function Extend(b: Bounds, p: Point): (r: Bounds)
    ensures Contains(r, p)
    ensures forall q :: Contains(b, q) ==> Contains(r, q)
  {
    Bounds(Point(Min(b.min.x, p.x), Min(b.min.y, p.y)),
           Point(Max(b.max.x, p.x), Max(b.max.y, p.y)))
  }

  /** The box spanned by a non-empty list of vertices. */
  function BoundingBox(vs: seq<Point>): (b: Bounds)
    requires |vs| >= 1
    ensures forall i :: 0 <= i < |vs| ==> Contains(b, vs[i])
    ensures b.min.x <= b.max.x && b.min.y <= b.max.y
  {
    if |vs| == 1 then Bounds(vs[0], vs[0])
    else
      var rest := BoundingBox(vs[1..]);
      assert forall i :: 1 <= i < |vs| ==> vs[i] == vs[1..][i - 1];
      Extend(rest, vs[0])
  }
}
