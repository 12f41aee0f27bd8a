/** Goal detection: the game ends when the player's ball touches the balloon. */
module Goal {
  import opened Bodies

  /** Two bodies that have just started touching, as the engine reports them. */
  datatype Pair = Pair(bodyA: Body, bodyB: Body)

  /** The pair is the ball and the balloon, in either order. */
  predicate IsGoalPair(pair: Pair)
    ensures IsGoalPair(pair) ==> IsReserved(pair.bodyA.name) && IsReserved(pair.bodyB.name)
    ensures IsGoalPair(pair) ==> pair.bodyA.name != pair.bodyB.name
  {
    (pair.bodyA.name == PlayerLabel && pair.bodyB.name == BalloonLabel) ||
    (pair.bodyA.name == BalloonLabel && pair.bodyB.name == PlayerLabel)
  }

  /** Some pair of one collision event is the ball and the balloon. */
  predicate HasGoalPair(pairs: seq<Pair>)
  {
    exists i :: 0 <= i < |pairs| && IsGoalPair(pairs[i])
  }

  function Swap(pair: Pair): (r: Pair)
    ensures r.bodyA == pair.bodyB && r.bodyB == pair.bodyA
  {
    Pair(pair.bodyB, pair.bodyA)
  }

  function SwapAll(pairs: seq<Pair>): (r: seq<Pair>)
    ensures |r| == |pairs| && forall i :: 0 <= i < |pairs| ==> r[i] == Swap(pairs[i])
  {
    seq(|pairs|, i requires 0 <= i < |pairs| => Swap(pairs[i]))
  }

  /** Which body the engine calls A and which B does not matter. */
  lemma GoalIgnoresOrder(pairs: seq<Pair>)
    ensures HasGoalPair(SwapAll(pairs)) <==> HasGoalPair(pairs)
  {
  }

  /**
   * Splitting one event's pairs into two events detects the goal just the same: a
   * latch `ended` raised by `a` and then by `b` ends where one event `a + b` leaves it.
   */
  lemma GoalSplits(ended: bool, a: seq<Pair>, b: seq<Pair>)
    ensures HasGoalPair(a + b) <==> HasGoalPair(a) || HasGoalPair(b)
    ensures ((ended || HasGoalPair(a)) || HasGoalPair(b)) == (ended || HasGoalPair(a + b))
  {
    if HasGoalPair(a + b) {
      var i :| 0 <= i < |a + b| && IsGoalPair((a + b)[i]);
      if i >= |a| { assert IsGoalPair(b[i - |a|]); }
    }
    if HasGoalPair(b) {
      var i :| 0 <= i < |b| && IsGoalPair(b[i]);
      assert (a + b)[|a| + i] == b[i];
    }
    if HasGoalPair(a) {
      var i :| 0 <= i < |a| && IsGoalPair(a[i]);
      assert (a + b)[i] == a[i];
    }
  }

  /** A drawn body never takes part in a goal pair. */
  lemma DrawnBodyNeverScores(pair: Pair)
    requires !IsReserved(pair.bodyA.name) || !IsReserved(pair.bodyB.name)
    ensures !IsGoalPair(pair)
  {
  }
}
