/**
 * The eraser: a click removes the first body, in world order, whose box holds
 * the click and which is not one of the level's own pieces.
 */
module Eraser {
  import opened Wrappers
  import opened Geometry
  import opened Bodies

  predicate Erasable(b: Body, p: Point)
  {
    Contains(b.bounds, p) && !IsReserved(b.name)
  }

  /** The index of the first erasable body, or `None` when there is none. */
  function FirstErasable(world: seq<Body>, p: Point): (r: Option<nat>)
    ensures r.None? <==> forall i :: 0 <= i < |world| ==> !Erasable(world[i], p)
    ensures r.Some? ==> r.value < |world| && Erasable(world[r.value], p)
    ensures r.Some? ==> forall i :: 0 <= i < r.value ==> !Erasable(world[i], p)
  {
    if world == [] then None
    else if Erasable(world[0], p) then Some(0)
    else
      match FirstErasable(world[1..], p)
      case None => None
      case Some(k) => Some(k + 1)
  }

  /** The world after an eraser click at `p`. */
  function EraseAt(world: seq<Body>, p: Point): seq<Body>
  {
    match FirstErasable(world, p)
    case None => world
    case Some(k) => world[..k] + world[k + 1..]
  }

  /** The scan the click handler runs: bodies in order, stopping at the first hit. */
  method FindErasable(world: seq<Body>, p: Point) returns (hit: Option<nat>)
    ensures hit.None? <==> forall i :: 0 <= i < |world| ==> !Erasable(world[i], p)
    ensures hit.Some? ==> hit.value < |world| && Erasable(world[hit.value], p)
    ensures hit.Some? ==> forall i :: 0 <= i < hit.value ==> !Erasable(world[i], p)
    ensures hit == FirstErasable(world, p)
  {
    for i := 0 to |world|
      invariant forall j :: 0 <= j < i ==> !Erasable(world[j], p)
    {
      if Erasable(world[i], p) {
        return Some(i);
      }
    }
    return None;
  }

  /**
   * A click removes exactly one body when some body is erasable, the first such,
   * and keeps every other body in its order; otherwise the world is unchanged.
   */
  lemma EraseRemovesFirstMatch(world: seq<Body>, p: Point)
    ensures (forall i :: 0 <= i < |world| ==> !Erasable(world[i], p)) ==> EraseAt(world, p) == world
    ensures (exists i :: 0 <= i < |world| && Erasable(world[i], p)) ==>
              exists k :: 0 <= k < |world| && Erasable(world[k], p)
                && (forall i :: 0 <= i < k ==> !Erasable(world[i], p))
                && EraseAt(world, p) == world[..k] + world[k + 1..]
  {
    var f := FirstErasable(world, p);
    if f.Some? {
      var k := f.value;
      assert EraseAt(world, p) == world[..k] + world[k + 1..];
    }
  }

  /** At most one body goes, and what is left is a sub-multiset of the world. */
  lemma EraseRemovesAtMostOne(world: seq<Body>, p: Point)
    ensures |world| - 1 <= |EraseAt(world, p)| <= |world|
    ensures multiset(EraseAt(world, p)) <= multiset(world)
  {
    var f := FirstErasable(world, p);
    if f.Some? {
      var k := f.value;
      assert world == world[..k] + [world[k]] + world[k + 1..];
      assert multiset(world) == multiset(world[..k]) + multiset{world[k]} + multiset(world[k + 1..]);
    }
  }

  /** Walls, the player's ball and the balloon are never erased. */
  lemma EraseKeepsReserved(world: seq<Body>, p: Point, b: Body)
    requires IsReserved(b.name)
    ensures multiset(EraseAt(world, p))[b] == multiset(world)[b]
  {
    var f := FirstErasable(world, p);
    if f.Some? {
      var k := f.value;
      assert world == world[..k] + [world[k]] + world[k + 1..];
      assert multiset(world) == multiset(world[..k]) + multiset{world[k]} + multiset(world[k + 1..]);
      assert world[k] != b;
    }
  }

  /** On a freshly built level the eraser has nothing to remove. */
  lemma EraseOnInitialWorld(p: Point)
    ensures EraseAt(InitialWorld(), p) == InitialWorld()
  {
  }

  /**
   * An unreserved body at the end of the world whose box holds the click guarantees
   * that the click removes one body.
   */
  lemma EraseHitsAddedBody(world: seq<Body>, b: Body, p: Point)
    requires !IsReserved(b.name) && Contains(b.bounds, p)
    ensures |EraseAt(world + [b], p)| == |world|
  {
    var w := world + [b];
    assert Erasable(w[|world|], p);
    EraseRemovesAtMostOne(w, p);
  }
}
