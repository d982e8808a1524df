/**
 * A move candidate: a board cell and the heuristic score the computer gave it.
 * A datatype value is immutable, as the record's get-only properties are.
 */
module MoveValue {

  datatype Move = Move(x: int, y: int, score: int)

  /** Each accessor returns what was passed to the constructor, and a move is fully determined by them. */
  lemma MoveAccessors(x: int, y: int, score: int, m: Move)
    ensures Move(x, y, score).x == x && Move(x, y, score).y == y && Move(x, y, score).score == score
    ensures Move(m.x, m.y, m.score) == m
  {
  }
}
