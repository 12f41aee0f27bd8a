/**
 * Turning a finished pen stroke into a body: the stroke is thinned out and a
 * polygon is built only when enough vertices are left.
 */
module Stroke {
  import opened Wrappers
  import opened Geometry
  import opened Bodies

  /** An intermediate point survives only if it is this far from its predecessor. */
  const SimplifyDistance: nat := 10
  /** The fewest simplified vertices the polygon constructor is given. */
  const MinVertices: nat := 3

  /**
   * Whether the point at index `i` survives simplification: the first and the last
   * point always do; any other point only if it lies more than `SimplifyDistance`
   * from the input point just before it (not from the last point kept).
   */
  predicate Keep(points: seq<Point>, i: nat)
    requires i < |points|
  {
    i == 0 || i == |points| - 1 || FartherThan(points[i], points[i - 1], SimplifyDistance)
  }

  /** The indices from `from` on that survive, in increasing order. */
  function KeptFrom(points: seq<Point>, from: nat): (idx: seq<nat>)
    requires from <= |points|
    decreases |points| - from
    ensures |idx| <= |points| - from
    ensures forall j :: 0 <= j < |idx| ==> from <= idx[j] < |points| && Keep(points, idx[j])
    ensures forall j, k :: 0 <= j < k < |idx| ==> idx[j] < idx[k]
    ensures forall i :: from <= i < |points| && Keep(points, i) ==> i in idx
  {
    if from == |points| then []
    else if Keep(points, from) then [from] + KeptFrom(points, from + 1)
    else KeptFrom(points, from + 1)
  }

  /** The indices of the input points that survive simplification. */
  function KeptIndices(points: seq<Point>): seq<nat>
  {
    KeptFrom(points, 0)
  }

  /** The simplified stroke: the input filtered by `Keep`, order preserved. */
  function Simplify(points: seq<Point>): (r: seq<Point>)
    ensures |r| == |KeptIndices(points)| <= |points|
    ensures forall j :: 0 <= j < |r| ==> r[j] == points[KeptIndices(points)[j]]
  {
    var idx := KeptIndices(points);
    seq(|idx|, j requires 0 <= j < |idx| => points[idx[j]])
  }

  /**
   * The simplified stroke is an order-preserving subsequence of the input, and an
   * index is kept exactly when `Keep` holds for it.
   */
  lemma SimplifyIsFilter(points: seq<Point>)
    ensures forall j, k :: 0 <= j < k < |KeptIndices(points)| ==>
              KeptIndices(points)[j] < KeptIndices(points)[k]
    ensures forall i :: 0 <= i < |points| ==> (i in KeptIndices(points) <==> Keep(points, i))
  {
  }

  /** A non-empty stroke keeps its first and its last point, and they end the result. */
  lemma SimplifyKeepsEnds(points: seq<Point>)
    requires |points| >= 1
    ensures |Simplify(points)| >= 1
    ensures Simplify(points)[0] == points[0]
    ensures Simplify(points)[|Simplify(points)| - 1] == points[|points| - 1]
  {
    var idx := KeptIndices(points);
    assert Keep(points, 0) && 0 in idx;
    assert Keep(points, |points| - 1) && |points| - 1 in idx;
  }

  /** A stroke of two or more points keeps at least two after simplification. */
  lemma SimplifyKeepsTwo(points: seq<Point>)
    requires |points| >= 2
    ensures |Simplify(points)| >= 2
  {
    var idx := KeptIndices(points);
    assert Keep(points, 0) && 0 in idx;
    assert Keep(points, |points| - 1) && |points| - 1 in idx;
  }

  /**
   * The body built from a finished stroke, or `None`: strokes of fewer than two
   * points and strokes that simplify to fewer than `MinVertices` vertices give no
   * body. The body's box is the stand-in box of `FromVertices`, taken at the moment
   * the body is made.
   */
  function CreatePhysicsBody(points: seq<Point>): (r: Option<Body>)
    ensures r.Some? <==> |points| >= 2 && |Simplify(points)| >= MinVertices
    ensures r.Some? ==> !IsReserved(r.value.name)
    ensures r.Some? ==> forall j :: 0 <= j < |Simplify(points)| ==>
              Contains(r.value.bounds, Simplify(points)[j])
    ensures r.Some? ==> Contains(r.value.bounds, points[0])
  {
    if |points| < 2 then None
    else
      var vertices := Simplify(points);
      if |vertices| >= MinVertices then
        SimplifyKeepsEnds(points);
        Some(FromVertices(vertices))
      else None
  }

  /** There is no two-point "line" body: a stroke of at most two points gives nothing. */
  lemma NoLineBody(points: seq<Point>)
    requires |points| <= 2
    ensures CreatePhysicsBody(points) == None
  {
  }

  /** Three points whose middle one is too close to the first give no body. */
  lemma CloseMiddlePointDropped(a: Point, b: Point, c: Point)
    requires !FartherThan(b, a, SimplifyDistance)
    ensures Simplify([a, b, c]) == [a, c]
    ensures CreatePhysicsBody([a, b, c]) == None
  {
    var pts := [a, b, c];
    assert !Keep(pts, 1);
    assert KeptFrom(pts, 2) == [2];
    assert KeptFrom(pts, 1) == [2];
    assert KeptIndices(pts) == [0, 2];
  }

  /** Three points each more than the threshold from the one before give a body. */
  lemma SpreadTriangleBuilt(a: Point, b: Point, c: Point)
    requires FartherThan(b, a, SimplifyDistance)
    ensures Simplify([a, b, c]) == [a, b, c]
    ensures CreatePhysicsBody([a, b, c]).Some?
  {
    var pts := [a, b, c];
    assert Keep(pts, 1);
    assert KeptFrom(pts, 2) == [2];
    assert KeptFrom(pts, 1) == [1, 2];
    assert KeptIndices(pts) == [0, 1, 2];
  }
}
