/**
 * The eight compass directions and the unit offset each one stands for.
 * North points to smaller y (the board's y axis grows downwards).
 */
module DirectionHelper {
  import opened Board

  datatype Direction = North | NorthEast | East | SouthEast | South | SouthWest | West | NorthWest

  /** The directions in the order the rule engine visits them. */
  const AllDirections: seq<Direction> :=
    [North, NorthEast, East, SouthEast, South, SouthWest, West, NorthWest]

  /** A one-step offset: both components in {-1, 0, 1}, not both zero. */
  predicate IsUnit(o: Point) {
    -1 <= o.x <= 1 && -1 <= o.y <= 1 && o != Point(0, 0)
  }

  /** The offset one step in direction `d`. */
  function DirectionToPoint(d: Direction): (o: Point)
    ensures IsUnit(o)
  {
    match d
    case North => Point(0, -1)
    case NorthEast => Point(1, -1)
    case East => Point(1, 0)
    case SouthEast => Point(1, 1)
    case South => Point(0, 1)
    case SouthWest => Point(-1, 1)
    case West => Point(-1, 0)
    case NorthWest => Point(-1, -1)
  }

  /** The opposite compass direction. */
  function Opposite(d: Direction): Direction {
    match d
    case North => South
    case NorthEast => SouthWest
    case East => West
    case SouthEast => NorthWest
    case South => North
    case SouthWest => NorthEast
    case West => East
    case NorthWest => SouthEast
  }

  /** Every direction is visited, and each exactly once. */
  lemma AllDirectionsComplete()
    ensures |AllDirections| == 8
    ensures forall d: Direction :: d in AllDirections
    ensures forall i, j | 0 <= i < j < |AllDirections| :: AllDirections[i] != AllDirections[j]
  {
    forall d: Direction
      ensures d in AllDirections
    {
      var i := match d
        case North => 0 case NorthEast => 1 case East => 2 case SouthEast => 3
        case South => 4 case SouthWest => 5 case West => 6 case NorthWest => 7;
      assert AllDirections[i] == d;
    }
  }

  /** Different directions have different offsets. */
  lemma DirectionToPointInjective(d1: Direction, d2: Direction)
    ensures DirectionToPoint(d1) == DirectionToPoint(d2) ==> d1 == d2
  {
  }

  /** The table covers every unit offset: each one is some direction's offset. */
  lemma DirectionToPointSurjective(o: Point)
    requires IsUnit(o)
    ensures exists d :: DirectionToPoint(d) == o
  {
    var d :=
      if o.x == 0 then (if o.y < 0 then North else South)
      else if o.x > 0 then (if o.y < 0 then NorthEast else if o.y == 0 then East else SouthEast)
      else (if o.y < 0 then NorthWest else if o.y == 0 then West else SouthWest);
    assert DirectionToPoint(d) == o;
  }

  /** Opposite directions have negated offsets. */
  lemma OppositeNegates(d: Direction)
    ensures DirectionToPoint(Opposite(d)) == Point(-DirectionToPoint(d).x, -DirectionToPoint(d).y)
    ensures Opposite(Opposite(d)) == d && Opposite(d) != d
  {
  }
}
