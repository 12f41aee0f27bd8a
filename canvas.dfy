/**
 * The canvas's input and editing controller: the selected tool, the stroke being
 * drawn, the world's bodies, the level counter and the end-of-game flag, and the
 * handlers for the mouse, the tool buttons, the level buttons and the engine's
 * collision events.
 */
module Canvas {
  import opened Wrappers
  import opened Geometry
  import opened Bodies
  import opened Stroke
  import opened Eraser
  import opened Level
  import opened Goal

  datatype Tool = Pen | EraserTool | Pin

  /** A moving pointer is sampled only if it is more than this far from the last sample. */
  const SampleDistance: nat := 5

  /** Consecutive samples of a stroke are more than `SampleDistance` apart. */
  predicate Spaced(stroke: seq<Point>)
  {
    forall i :: 0 < i < |stroke| ==> FartherThan(stroke[i], stroke[i - 1], SampleDistance)
  }

  /** The body a release adds to the world, if any. */
  function Released(tool: Tool, stroke: seq<Point>): (r: Option<Body>)
    ensures r.Some? <==> tool == Pen && CreatePhysicsBody(stroke).Some?
    ensures r.Some? ==> r.value == CreatePhysicsBody(stroke).value
  {
    if tool == EraserTool || |stroke| < 2 then None
    else if tool == Pen then CreatePhysicsBody(stroke)
    else None
  }

  class PhysicsCanvas {
    var tool: Tool
    var isDrawing: bool
    var drawPoints: seq<Point>
    var world: seq<Body>
    var currentLevel: int
    var gameEnded: bool

    /**
     * A stroke is in progress exactly when it has a sample, never with the eraser,
     * and its samples are spaced; the level is a valid one.
     */
    ghost predicate Valid()
      reads this
    {
      && (isDrawing <==> |drawPoints| >= 1)
      && (tool == EraserTool ==> !isDrawing)
      && Spaced(drawPoints)
      && currentLevel >= FirstLevel
    }

    /** The canvas as first shown: the pen, no stroke, level one, its pieces, no goal yet. */
    constructor ()
      ensures Valid()
      ensures tool == Pen && !isDrawing && drawPoints == []
      ensures currentLevel == FirstLevel && world == InitialWorld() && !gameEnded
    {
      tool := Pen;
      isDrawing := false;
      drawPoints := [];
      currentLevel := FirstLevel;
      world := InitialWorld();
      gameEnded := false;
    }

    /**
     * A press at `p`. With the eraser it removes the first erasable body under `p`
     * and leaves the stroke alone; with any other tool it starts a stroke at `p`.
     */
    method MouseDown(p: Point)
      requires Valid()
      modifies this
      ensures Valid()
      ensures tool == old(tool) && currentLevel == old(currentLevel) && gameEnded == old(gameEnded)
      ensures old(tool) == EraserTool ==>
                world == EraseAt(old(world), p) && isDrawing == old(isDrawing) && drawPoints == old(drawPoints)
      ensures old(tool) != EraserTool ==> world == old(world) && isDrawing && drawPoints == [p]
    {
      if tool == EraserTool {
        var hit := FindErasable(world, p);
        if hit.Some? {
          world := world[..hit.value] + world[hit.value + 1..];
        }
        return;
      }
      isDrawing := true;
      drawPoints := [p];
    }

    /**
     * A move to `p`. While a stroke is in progress, `p` is appended when it is more
     * than `SampleDistance` from the last sample; nothing else ever changes.
     */
    method MouseMove(p: Point)
      requires Valid()
      modifies this
      ensures Valid()
      ensures tool == old(tool) && isDrawing == old(isDrawing) && world == old(world)
      ensures currentLevel == old(currentLevel) && gameEnded == old(gameEnded)
      ensures (old(isDrawing) && old(tool) != EraserTool &&
               FartherThan(p, old(drawPoints)[|old(drawPoints)| - 1], SampleDistance)) ==>
                drawPoints == old(drawPoints) + [p]
      ensures !(old(isDrawing) && old(tool) != EraserTool &&
               FartherThan(p, old(drawPoints)[|old(drawPoints)| - 1], SampleDistance)) ==>
                drawPoints == old(drawPoints)
    {
      if !isDrawing || tool == EraserTool {
        return;
      }
      var lastPoint := drawPoints[|drawPoints| - 1];
      if FartherThan(p, lastPoint, SampleDistance) {
        drawPoints := drawPoints + [p];
      }
    }

    /**
     * A release, or the pointer leaving the canvas. With the pen and a stroke that
     * yields a body, that body joins the end of the world; in every case the stroke
     * ends and is discarded.
     */
    method MouseUp()
      requires Valid()
      modifies this
      ensures Valid()
      ensures !isDrawing && drawPoints == []
      ensures tool == old(tool) && currentLevel == old(currentLevel) && gameEnded == old(gameEnded)
      ensures Released(old(tool), old(drawPoints)).Some? ==>
                world == old(world) + [Released(old(tool), old(drawPoints)).value]
      ensures Released(old(tool), old(drawPoints)).None? ==> world == old(world)
    {
      if tool == EraserTool || |drawPoints| < 2 {
        isDrawing := false;
        drawPoints := [];
        return;
      }
      if tool == Pen {
        var body := CreatePhysicsBody(drawPoints);
        if body.Some? {
          world := world + [body.value];
        }
      }
      isDrawing := false;
      drawPoints := [];
    }

    /** Choosing a tool abandons any stroke in progress. */
    method ToolChange(newTool: Tool)
      requires Valid()
      modifies this
      ensures Valid()
      ensures tool == newTool && !isDrawing && drawPoints == []
      ensures world == old(world) && currentLevel == old(currentLevel) && gameEnded == old(gameEnded)
    {
      tool := newTool;
      isDrawing := false;
      drawPoints := [];
    }

    /**
     * A level button. When the counter actually changes, the level is rebuilt from
     * its fixed pieces, which discards every drawn body; the end-of-game flag and
     * the stroke are left as they are.
     */
    method LevelChange(d: Direction)
      requires Valid()
      modifies this
      ensures Valid()
      ensures currentLevel == ChangeLevel(old(currentLevel), d)
      ensures currentLevel != old(currentLevel) ==> world == InitialWorld()
      ensures currentLevel == old(currentLevel) ==> world == old(world)
      ensures tool == old(tool) && isDrawing == old(isDrawing) && drawPoints == old(drawPoints)
      ensures gameEnded == old(gameEnded)
    {
      var next := ChangeLevel(currentLevel, d);
      if next != currentLevel {
        world := InitialWorld();
      }
      currentLevel := next;
    }

    /**
     * One collision-start event: the game ends once any of its pairs is the ball
     * and the balloon. The flag is a latch; nothing here lowers it.
     */
    method CollisionStart(pairs: seq<Pair>)
      requires Valid()
      modifies this`gameEnded
      ensures Valid()
      ensures gameEnded == (old(gameEnded) || HasGoalPair(pairs))
    {
      for i := 0 to |pairs|
        invariant gameEnded == (old(gameEnded) || exists j :: 0 <= j < i && IsGoalPair(pairs[j]))
      {
        if IsGoalPair(pairs[i]) {
          gameEnded := true;
        }
      }
    }
  }

  /**
   * At the moment a pen release adds its body to the end of the world, an eraser
   * click where the stroke started would remove one body.
   */
  lemma DrawnStrokeIsErasable(world: seq<Body>, stroke: seq<Point>)
    requires Released(Pen, stroke).Some?
    ensures Erasable(Released(Pen, stroke).value, stroke[0])
    ensures |EraseAt(world + [Released(Pen, stroke).value], stroke[0])| == |world|
  {
    var b := Released(Pen, stroke).value;
    EraseHitsAddedBody(world, b, stroke[0]);
  }
}
