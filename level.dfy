/** The level counter behind the "previous" and "next" buttons. */
module Level {

  datatype Direction = Prev | Next

  /** The first level; the counter starts here and "previous" never goes below it. */
  const FirstLevel: int := 1

  /** The level after pressing one of the two buttons on level `level`. */
  function ChangeLevel(level: int, d: Direction): (r: int)
    ensures d == Next ==> r == level + 1
    ensures d == Prev ==> r >= FirstLevel && r <= if level > FirstLevel then level else FirstLevel
    ensures d == Prev && level > FirstLevel ==> r == level - 1
  {
    match d
    case Next => level + 1
    case Prev => if level - 1 >= FirstLevel then level - 1 else FirstLevel
  }

  /** The level after pressing the buttons in `presses`, first to last. */
  function LevelAfter(level: int, presses: seq<Direction>): int
    decreases |presses|
  {
    if presses == [] then level
    else LevelAfter(ChangeLevel(level, presses[0]), presses[1..])
  }

  /**
   * From any level at or above the first, no sequence of presses leaves the valid
   * range, and each press moves the counter by at most one.
   */
  lemma {:induction false} LevelStaysValid(level: int, presses: seq<Direction>)
    requires level >= FirstLevel
    ensures LevelAfter(level, presses) >= FirstLevel
    ensures level - |presses| <= LevelAfter(level, presses) <= level + |presses|
    decreases |presses|
  {
    if presses != [] {
      LevelStaysValid(ChangeLevel(level, presses[0]), presses[1..]);
    }
  }

  /** "Previous" undoes "next". */
  lemma PrevUndoesNext(level: int)
    requires level >= FirstLevel
    ensures ChangeLevel(ChangeLevel(level, Next), Prev) == level
  {
  }

  /** "Next" undoes "previous" everywhere except on the first level. */
  lemma NextUndoesPrev(level: int)
    ensures ChangeLevel(ChangeLevel(level, Prev), Next) == level <==> level > FirstLevel
  {
  }
}
