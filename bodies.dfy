/**
 * The bodies of the physics world as the canvas sees them: a label and a box.
 * Positions, velocities and shapes belong to the engine and are not modelled.
 */
module Bodies {
  import opened Geometry

  /** `name` is the engine's `label` (a reserved word in Dafny). */
  datatype Body = Body(name: string, bounds: Bounds)

  const WallLabel: string := "wall"
  const PlayerLabel: string := "player"
  const BalloonLabel: string := "balloon"
  /** The label the engine gives a body created without one. */
  const DefaultLabel: string := "Body"

  /** The labels of the level's own pieces, which the eraser must not touch. */
  predicate IsReserved(name: string)
  {
    name == WallLabel || name == PlayerLabel || name == BalloonLabel
  }

  /** A rectangle centred at (cx, cy); its box is the rectangle itself. */
  function Rectangle(name: string, cx: int, cy: int, width: nat, height: nat): (b: Body)
    ensures b.name == name && Contains(b.bounds, Point(cx, cy))
  {
    Body(name, Bounds(Point(cx - width / 2, cy - height / 2), Point(cx + width / 2, cy + height / 2)))
  }

  /** A circle centred at (cx, cy); its box is the circumscribed square. */
  function Circle(name: string, cx: int, cy: int, radius: nat): (b: Body)
    ensures b.name == name && Contains(b.bounds, Point(cx, cy))
  {
    Body(name, Bounds(Point(cx - radius, cy - radius), Point(cx + radius, cy + radius)))
  }

  /**
   * The world a level starts with: the four walls (bottom, top, left, right),
   * the player's ball and the balloon, in the order they are added.
   */
  function InitialWorld(): (w: seq<Body>)
    ensures |w| == 6
    ensures forall i :: 0 <= i < |w| ==> IsReserved(w[i].name)
    ensures forall i :: 0 <= i < 4 ==> w[i].name == WallLabel
    ensures w[4].name == PlayerLabel && w[5].name == BalloonLabel
  {
    [ Rectangle(WallLabel, 400, 610, 810, 20),
      Rectangle(WallLabel, 400, -10, 810, 20),
      Rectangle(WallLabel, -10, 300, 20, 620),
      Rectangle(WallLabel, 810, 300, 20, 620),
      Circle(PlayerLabel, 50, 300, 15),
      Circle(BalloonLabel, 700, 300, 20) ]
  }

  /**
   * The engine's polygon constructor, seen from the canvas: a body with the default
   * label. Its box is a stand-in: the bounding box of the vertices as drawn, not the
   * engine's box of the polygon moved so that its centroid sits on the first vertex.
   */
  function FromVertices(vs: seq<Point>): (b: Body)
    requires |vs| >= 1
    ensures !IsReserved(b.name)
    ensures forall i :: 0 <= i < |vs| ==> Contains(b.bounds, vs[i])
  {
    Body(DefaultLabel, BoundingBox(vs))
  }
}
