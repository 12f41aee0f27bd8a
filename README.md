# PhysicsCanvas input and editing controller

This project models the controller inside the game's `PhysicsCanvas` component. The
component shows one physics world: walls, the red player ball and the yellow balloon.
The user draws shapes with the pen, which become bodies in the world, and removes
drawn shapes with the eraser. Two buttons step a level counter. The game ends when
the ball touches the balloon.

The model is split into modules:

- `Geometry`: integer canvas points and inclusive boxes.
- `Bodies`: a body's name (the engine's `label`) and box, the reserved names, and the
  world a level starts with.
- `Stroke`: stroke simplification and `CreatePhysicsBody`.
- `Eraser`: the eraser's hit test and removal.
- `Level`: the level counter.
- `Goal`: the ball/balloon pair test.
- `Canvas`: a class `PhysicsCanvas` holding the component's state (`tool`,
  `isDrawing`, `drawPoints`, `world`, `currentLevel`, `gameEnded`), with one method
  per event handler.

The class invariant `Valid()` is stronger than the code needs. A stroke is in
progress exactly when it has at least one sample. No stroke is in progress while the
eraser is selected. Consecutive samples are more than 5 pixels apart. The level is
at least 1. So the read of `drawPoints[drawPoints.length - 1]` in the mouse-move
handler is always safe, and that handler's eraser test never changes the outcome.

Abstractions:

- Coordinates are integers. `Math.hypot(dx, dy) > r` is written as
  `dx*dx + dy*dy > r*r`, which is exact for integers.
- The engine's polygon constructor becomes `Bodies.FromVertices`. It gives a body
  with the engine's default label `"Body"`. Its box is a stand-in: the bounding box
  of the vertices as drawn (see "## Left out").
- The engine's `Bounds.contains` is an inclusive box test.
- The world is a flat sequence of bodies, in the order they were added.

Behaviour of the code that the model keeps as written:

- An intermediate stroke point is compared with the input point just before it,
  not with the last point kept.
- A stroke that simplifies to two points gives no body.
- Nothing in the component resets `gameEnded`, not even a level change.
- The component has no turn-taking, networking, push, reset or out-of-bounds
  handling.

## Model

| member | source | states |
|---|---|---|
| `Bodies.InitialWorld` | src/components/PhysicsCanvas.tsx:35-72 | a level starts with six bodies in the order they are added: four walls, then `player`, then `balloon`; every one has a reserved name |
| `Bodies.Rectangle` | src/components/PhysicsCanvas.tsx:43-48 | a wall rectangle carries the given name, and its box holds its centre |
| `Bodies.Circle` | src/components/PhysicsCanvas.tsx:56-70 | the ball and the balloon carry the given name, and their boxes hold their centres |
| `Bodies.FromVertices` | src/components/PhysicsCanvas.tsx:109-126 | the engine's body for a polygon never has a reserved name; the model's stand-in box covers every vertex it was built from |
| `Stroke.KeptFrom` | src/components/PhysicsCanvas.tsx:99-104 | the surviving indices are strictly increasing and lie in range; an index appears exactly when the filter keeps it; there are no more of them than input points |
| `Stroke.Simplify` | src/components/PhysicsCanvas.tsx:99-104 | the simplified stroke is no longer than the input, and each of its points is the input point at the matching surviving index |
| `Stroke.SimplifyIsFilter` | src/components/PhysicsCanvas.tsx:99-104 | simplification preserves order, and index `i` survives if and only if it is the first or the last index or point `i` is more than 10 from input point `i-1` |
| `Stroke.SimplifyKeepsEnds` | src/components/PhysicsCanvas.tsx:100 | a non-empty stroke's simplification starts with the first input point and ends with the last input point |
| `Stroke.SimplifyKeepsTwo` | src/components/PhysicsCanvas.tsx:100 | a stroke of at least two points still has at least two after simplification |
| `Stroke.CreatePhysicsBody` | src/components/PhysicsCanvas.tsx:95-129 | a body is made if and only if the stroke has at least 2 points and simplifies to at least 3 vertices; that body has no reserved name, and the model's stand-in box holds every simplified vertex and the stroke's first point |
| `Stroke.NoLineBody` | src/components/PhysicsCanvas.tsx:96-128 | a stroke of at most two points never gives a body: there is no line case |
| `Stroke.CloseMiddlePointDropped` | src/components/PhysicsCanvas.tsx:101-108 | a three-point stroke whose middle point is within 10 of the first loses that point and gives no body |
| `Stroke.SpreadTriangleBuilt` | src/components/PhysicsCanvas.tsx:101-126 | a three-point stroke whose middle point is more than 10 from the first keeps all three points and gives a body |
| `Eraser.FirstErasable` | src/components/PhysicsCanvas.tsx:144-152 | gives no index exactly when no body both contains the click and has an unreserved name; otherwise gives the first index that does, and no earlier body qualifies |
| `Eraser.FindErasable` | src/components/PhysicsCanvas.tsx:141-152 | the in-order scan with early exit stops at exactly the first qualifying body, or reports none when there is none |
| `Eraser.EraseRemovesFirstMatch` | src/components/PhysicsCanvas.tsx:144-152 | with no qualifying body the world is unchanged; otherwise exactly the first qualifying body is removed and the rest keep their order |
| `Eraser.EraseRemovesAtMostOne` | src/components/PhysicsCanvas.tsx:149-150 | a click removes at most one body, and every remaining body was in the world before |
| `Eraser.EraseKeepsReserved` | src/components/PhysicsCanvas.tsx:145-148 | the number of copies of any `wall`, `player` or `balloon` body is the same after an eraser click |
| `Eraser.EraseOnInitialWorld` | src/components/PhysicsCanvas.tsx:43-72 | on a freshly built level the eraser removes nothing, wherever the click is |
| `Eraser.EraseHitsAddedBody` | src/components/PhysicsCanvas.tsx:145-150 | an unreserved body that contains the click and sits at the end of the world guarantees that the click removes one body |
| `Level.ChangeLevel` | src/components/PhysicsCanvas.tsx:201-203 | "next" raises the level by one; "prev" lowers it by one when above level 1 and otherwise stays at 1, never going below 1 |
| `Level.LevelStaysValid` | src/components/PhysicsCanvas.tsx:202 | from any level of at least 1, every sequence of button presses stays at or above 1 and ends within `|presses|` of the starting level, in either direction |
| `Level.PrevUndoesNext` | src/components/PhysicsCanvas.tsx:202 | "prev" after "next" returns to the starting level |
| `Level.NextUndoesPrev` | src/components/PhysicsCanvas.tsx:202 | "next" after "prev" returns to the starting level if and only if that level is above 1 |
| `Goal.GoalIgnoresOrder` | src/components/PhysicsCanvas.tsx:76-79 | swapping the two bodies of every pair does not change whether an event has a goal pair |
| `Goal.IsGoalPair` | src/components/PhysicsCanvas.tsx:76-79 | a goal pair consists of two differently named reserved bodies |
| `Goal.GoalSplits` | src/components/PhysicsCanvas.tsx:75-82 | a goal pair is found in the whole list if and only if it is found in one of its parts, so latching the flag over two events ends where latching over their joined pairs does |
| `Goal.DrawnBodyNeverScores` | src/components/PhysicsCanvas.tsx:76-79 | a pair that involves a non-reserved body, such as a drawn shape, is never a goal pair |
| `Canvas.Released` | src/components/PhysicsCanvas.tsx:178-189 | a release adds a body if and only if the tool is the pen and the stroke gives a body; the added body is the one built from the stroke |
| `Canvas.DrawnStrokeIsErasable` | src/components/PhysicsCanvas.tsx:184-187 | at the moment a pen release adds its body, that body is erasable at the stroke's start point, so an eraser click there on that world removes one body (the first qualifying one, which may be an older drawn body) |
| `Canvas.PhysicsCanvas.constructor` | src/components/PhysicsCanvas.tsx:11-15 | the canvas starts with the pen, no stroke, level 1, the level's fixed pieces and the game not ended |
| `Canvas.PhysicsCanvas.MouseDown` | src/components/PhysicsCanvas.tsx:131-158 | with the eraser, the world becomes the world after erasing at the click, and the stroke, the tool, the level and the flag stay as they were; with the pen or pin, a stroke starts holding only the click point and the world is unchanged |
| `Canvas.PhysicsCanvas.MouseMove` | src/components/PhysicsCanvas.tsx:160-175 | the stroke grows by exactly the new point if and only if a stroke is in progress, the tool is not the eraser and the point is more than 5 from the last sample; nothing else changes |
| `Canvas.PhysicsCanvas.MouseUp` | src/components/PhysicsCanvas.tsx:177-193 | the stroke always ends empty; the world gains exactly the released body when there is one and is otherwise unchanged; tool, level and flag stay as they were |
| `Canvas.PhysicsCanvas.ToolChange` | src/components/PhysicsCanvas.tsx:195-199 | the new tool is selected and any stroke in progress is abandoned; the world, the level and the flag are unchanged |
| `Canvas.PhysicsCanvas.LevelChange` | src/components/PhysicsCanvas.tsx:201-203 | the level moves as `ChangeLevel` says; the world is rebuilt to the fixed pieces exactly when the level value changes; the stroke, the tool and the flag are untouched |
| `Canvas.PhysicsCanvas.CollisionStart` | src/components/PhysicsCanvas.tsx:74-83 | afterwards the game has ended if and only if it had ended already or some pair of the event is the ball and the balloon, in either order; the flag is never lowered |

## Left out

- Rendering is not modelled: the engine runner and renderer, the SVG preview of the stroke, the tool and level buttons' styling, and the end-of-game overlay with its `window.location.reload`.
- The end-of-game overlay covers the canvas. Once `gameEnded` is set, no mouse-down, mouse-move or mouse-up reaches the canvas. One mouse-leave can, and it finishes a stroke in progress. The model accepts every event, which over-approximates what the user can do.
- The physics simulation is not modelled, because it is the engine's job. That covers gravity, friction and restitution options, stepping, and the actual collision detection. Collision events are inputs to `CollisionStart`.
- `Bodies.FromVertices`: the engine decomposes the polygon and moves its centroid to the stroke's first point. The model's box is the vertices' own bounding box instead. The two boxes differ: the stroke (0,0), (30,0), (0,30) has the engine box [-10,20] in both axes, which misses (0,30), while the model's box holds it.
- `Stroke.CreatePhysicsBody`: a stroke whose kept vertices are collinear, such as (0,0), (20,0), (40,0), makes a body in the model. The engine's polygon then has zero area, so its centroid and box are not finite and no click is inside it. The model gives that body the finite stand-in box.
- `Canvas.PhysicsCanvas.MouseDown`: the model's world keeps every body's box as it was created. In the source, drawn bodies are dynamic and gravity keeps moving them, so the eraser tests against the boxes from the moment the bodies were added, not where the bodies are now.
- `Bodies.Circle`: the engine approximates circles by polygons; the model uses the circumscribed square as the box.
- `Bodies.InitialWorld`: the level rebuild does not depend on the level number. The code is a fixed set of literals, and the model reproduces it only as names and boxes. It leaves out `World.clear`, `Engine.clear` and the collision listener that each rebuild registers again. Extra listeners only set the same flag.
- Mouse coordinates are taken as already relative to the canvas. The `getBoundingClientRect` offset and the unmounted-canvas early return both depend on the browser.
- `Canvas.PhysicsCanvas.MouseMove`: the model applies each event to the state left by the previous one. React state updates are batched, and the handler reads `drawPoints` from the last render. So between two renders it may compare against a stale last sample. The model does not capture that.
- The other files are not part of this model. The video chat, the peer-to-peer connection setup and the socket context are I/O, and `App.tsx` only composes components.
