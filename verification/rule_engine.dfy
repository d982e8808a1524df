/**
 * The rules of Othello: when a player may place a stone, and which stones a
 * placed stone captures.
 *
 * The queries are functions of a grid value (they never change the board);
 * the two ray walks that the game writes as `do ... while (true)` loops are
 * methods over the board array, each proved against the function that
 * specifies it.
 */
module RuleEngine {
  import opened Board
  import opened DirectionHelper

  // ---------------------------------------------------------------------------
  // Rays

  /** The cell k steps away from (x, y) along the offset o, one step at a time. */
  function Ray(x: int, y: int, o: Point, k: nat): Point {
    if k == 0 then Point(x, y)
    else Point(Ray(x, y, o, k - 1).x + o.x, Ray(x, y, o, k - 1).y + o.y)
  }

  /** The k cells of the ray that follow its start, nearest first. */
  function RaySteps(x: int, y: int, o: Point, k: nat): (s: seq<Point>)
    ensures |s| == k
    ensures forall j | 0 <= j < k :: s[j] == Ray(x, y, o, j + 1)
  {
    if k == 0 then [] else RaySteps(x, y, o, k - 1) + [Ray(x, y, o, k)]
  }

  /** The k-th cell of a ray is (x + k * o.x, y + k * o.y). */
  lemma {:induction false} RayClosedForm(x: int, y: int, o: Point, k: nat)
    ensures Ray(x, y, o, k) == Point(x + k * o.x, y + k * o.y)
  {
    if k > 0 {
      RayClosedForm(x, y, o, k - 1);
    }
  }

  /** Scaling by a unit component: k * u is k, -k or 0. */
  lemma UnitScale(k: int, u: int)
    requires -1 <= u <= 1
    ensures k * u == (if u > 0 then k else if u < 0 then -k else 0)
  {
    if u > 0 {
    } else if u < 0 {
    }
  }

  /**
   * Distance to the board edge along o: while a walk is on the board this is
   * positive, and every step along o lowers it.
   */
  function EdgeDistance(p: Point, o: Point): int {
    (if o.x > 0 then Size - p.x else if o.x < 0 then p.x + 1 else 0) +
    (if o.y > 0 then Size - p.y else if o.y < 0 then p.y + 1 else 0)
  }

  /** How many steps (a, c) is away from (x, y), counting a diagonal step as one. */
  function RayIndex(x: int, y: int, a: int, c: int): int {
    var dx := if a >= x then a - x else x - a;
    var dy := if c >= y then c - y else y - c;
    if dx >= dy then dx else dy
  }

  /** (a, c) is one of the steps 1 .. i from (x, y) along o. */
  predicate WithinSteps(x: int, y: int, o: Point, i: int, a: int, c: int) {
    var j := RayIndex(x, y, a, c);
    1 <= j <= i && Ray(x, y, o, j) == Point(a, c)
  }

  /** (a, c) lies on the ray from (x, y) in direction d, not counting (x, y) itself. */
  predicate OnRay(x: int, y: int, d: Direction, a: int, c: int) {
    var i := RayIndex(x, y, a, c);
    i >= 1 && Ray(x, y, DirectionToPoint(d), i) == Point(a, c)
  }

  /** The k-th cell of a ray is k steps away from its origin. */
  lemma RayIndexOfRay(x: int, y: int, o: Point, k: nat)
    requires IsUnit(o)
    ensures RayIndex(x, y, Ray(x, y, o, k).x, Ray(x, y, o, k).y) == k
  {
    RayClosedForm(x, y, o, k);
    UnitScale(k, o.x);
    UnitScale(k, o.y);
  }

  /** The k-th cell of the ray in direction d is on that ray (for k >= 1). */
  lemma RayIsOnRay(x: int, y: int, d: Direction, k: nat)
    requires k >= 1
    ensures OnRay(x, y, d, Ray(x, y, DirectionToPoint(d), k).x, Ray(x, y, DirectionToPoint(d), k).y)
  {
    RayIndexOfRay(x, y, DirectionToPoint(d), k);
  }

  /** The eight rays from a cell are disjoint: a cell lies on at most one of them. */
  lemma RaysDisjoint(x: int, y: int, d1: Direction, d2: Direction, a: int, c: int)
    requires OnRay(x, y, d1, a, c) && OnRay(x, y, d2, a, c)
    ensures d1 == d2
  {
    var i := RayIndex(x, y, a, c);
    var o1, o2 := DirectionToPoint(d1), DirectionToPoint(d2);
    RayClosedForm(x, y, o1, i);
    RayClosedForm(x, y, o2, i);
    UnitScale(i, o1.x);
    UnitScale(i, o1.y);
    UnitScale(i, o2.x);
    UnitScale(i, o2.y);
    DirectionToPointInjective(d1, d2);
  }

  // ---------------------------------------------------------------------------
  // Cell queries

  /** On the board and holding the opponent's colour. */
  predicate IsEnemyColor(g: Grid, black: bool, p: Point)
    requires IsMatrix(g)
  {
    OnBoard(p.x, p.y) && g[p.x][p.y] == Enemy(black)
  }

  /** On the board and holding the mover's colour. */
  predicate IsFriendColor(g: Grid, black: bool, p: Point)
    requires IsMatrix(g)
  {
    OnBoard(p.x, p.y) && g[p.x][p.y] == Friend(black)
  }

  /** Off the board, or holding a stone. */
  predicate IsBusy(g: Grid, x: int, y: int)
    requires IsMatrix(g)
  {
    !OnBoard(x, y) || g[x][y] != None
  }

  /** On the board and holding a stone. */
  predicate IsSet(g: Grid, p: Point)
    requires IsMatrix(g)
  {
    OnBoard(p.x, p.y) && g[p.x][p.y] != None
  }

  /** Some cell next to (x, y) holds a stone. */
  predicate HasNeighbours(g: Grid, x: int, y: int)
    requires IsMatrix(g)
  {
    exists d | d in AllDirections ::
      IsSet(g, Point(x + DirectionToPoint(d).x, y + DirectionToPoint(d).y))
  }

  /**
   * What the cell queries mean: a set cell holds either the mover's or the
   * opponent's colour, never both; the two colours swap with the mover; a
   * busy cell is off the board or set.
   */
  lemma CellQueriesMeaning(g: Grid, black: bool, p: Point)
    requires IsMatrix(g)
    ensures IsSet(g, p) <==> IsEnemyColor(g, black, p) || IsFriendColor(g, black, p)
    ensures !(IsEnemyColor(g, black, p) && IsFriendColor(g, black, p))
    ensures IsEnemyColor(g, black, p) <==> IsFriendColor(g, !black, p)
    ensures IsBusy(g, p.x, p.y) <==> !OnBoard(p.x, p.y) || IsSet(g, p)
  {
  }

  /** HasNeighbours holds exactly when one of the up to eight cells around (x, y) holds a stone. */
  lemma HasNeighboursMeaning(g: Grid, x: int, y: int)
    requires IsMatrix(g)
    ensures HasNeighbours(g, x, y) <==>
      exists a, c | OnBoard(a, c) && IsUnit(Point(a - x, c - y)) :: g[a][c] != None
  {
    if HasNeighbours(g, x, y) {
      var d :| d in AllDirections && IsSet(g, Point(x + DirectionToPoint(d).x, y + DirectionToPoint(d).y));
      var o := DirectionToPoint(d);
      var a, c := x + o.x, y + o.y;
      assert Point(a - x, c - y) == o;
      assert OnBoard(a, c) && g[a][c] != None;
    } else {
      forall a, c | OnBoard(a, c) && IsUnit(Point(a - x, c - y))
        ensures g[a][c] == None
      {
        DirectionToPointSurjective(Point(a - x, c - y));
        var d :| DirectionToPoint(d) == Point(a - x, c - y);
        AllDirectionsComplete();
        assert d in AllDirections;
        assert Point(x + DirectionToPoint(d).x, y + DirectionToPoint(d).y) == Point(a, c);
      }
    }
  }

  /** The board bounds end every walk: from a cell on the board, eight or more steps in any direction leave it. */
  lemma RayLeavesBoard(x: int, y: int, o: Point, k: nat)
    requires OnBoard(x, y) && IsUnit(o) && k >= Size
    ensures !OnBoard(Ray(x, y, o, k).x, Ray(x, y, o, k).y)
  {
    RayClosedForm(x, y, o, k);
    UnitScale(k, o.x);
    UnitScale(k, o.y);
  }

  // ---------------------------------------------------------------------------
  // Legality

  /**
   * The length of the run of enemy stones found at steps k, k + 1, ... from
   * (x, y) along o: it stops at the first cell that is off the board, empty
   * or friendly.
   */
  function RunFrom(g: Grid, black: bool, x: int, y: int, o: Point, k: nat): (n: nat)
    requires IsMatrix(g) && IsUnit(o)
    decreases EdgeDistance(Ray(x, y, o, k), o)
  {
    var p := Ray(x, y, o, k);
    if OnBoard(p.x, p.y) && g[p.x][p.y] == Enemy(black) then
      1 + RunFrom(g, black, x, y, o, k + 1)
    else
      0
  }

  /** Every cell of the run holds an enemy stone. */
  lemma {:induction false} RunEnemies(g: Grid, black: bool, x: int, y: int, o: Point, k: nat, i: int)
    requires IsMatrix(g) && IsUnit(o) && k <= i
    ensures i < k + RunFrom(g, black, x, y, o, k) ==> IsEnemyColor(g, black, Ray(x, y, o, i))
    decreases EdgeDistance(Ray(x, y, o, k), o)
  {
    var p := Ray(x, y, o, k);
    if i > k && OnBoard(p.x, p.y) && g[p.x][p.y] == Enemy(black) {
      RunEnemies(g, black, x, y, o, k + 1, i);
    }
  }

  /** The cell just past the run does not hold an enemy stone. */
  lemma {:induction false} RunStops(g: Grid, black: bool, x: int, y: int, o: Point, k: nat)
    requires IsMatrix(g) && IsUnit(o)
    ensures !IsEnemyColor(g, black, Ray(x, y, o, k + RunFrom(g, black, x, y, o, k)))
    decreases EdgeDistance(Ray(x, y, o, k), o)
  {
    var p := Ray(x, y, o, k);
    if OnBoard(p.x, p.y) && g[p.x][p.y] == Enemy(black) {
      RunStops(g, black, x, y, o, k + 1);
    }
  }

  /**
   * The walk that decides whether a stone at (x, y) captures along o, from
   * step k on: leaving the board or meeting an empty cell ends it without a
   * capture, a friendly stone ends it with a capture when enemy stones were
   * passed on the way (k > 1), and an enemy stone lets it go on.
   */
  predicate ClosesFrom(g: Grid, black: bool, x: int, y: int, o: Point, k: nat)
    requires IsMatrix(g) && IsUnit(o)
    decreases EdgeDistance(Ray(x, y, o, k), o)
  {
    var p := Ray(x, y, o, k);
    if !OnBoard(p.x, p.y) || g[p.x][p.y] == None then false
    else if g[p.x][p.y] == Friend(black) then k > 1
    else ClosesFrom(g, black, x, y, o, k + 1)
  }

  /**
   * The walk captures exactly when the enemy run it crosses is non-empty and
   * the cell just past the run holds a friendly stone.
   */
  lemma {:induction false} ClosesFromRun(g: Grid, black: bool, x: int, y: int, o: Point, k: nat)
    requires IsMatrix(g) && IsUnit(o) && k >= 1
    ensures ClosesFrom(g, black, x, y, o, k) <==>
      k + RunFrom(g, black, x, y, o, k) > 1 &&
      IsFriendColor(g, black, Ray(x, y, o, k + RunFrom(g, black, x, y, o, k)))
    decreases EdgeDistance(Ray(x, y, o, k), o)
  {
    var p := Ray(x, y, o, k);
    if OnBoard(p.x, p.y) && g[p.x][p.y] == Enemy(black) {
      ClosesFromRun(g, black, x, y, o, k + 1);
    }
  }

  /** The run of enemy stones next to (x, y) in direction d. */
  function Run(g: Grid, black: bool, x: int, y: int, d: Direction): nat
    requires IsMatrix(g)
  {
    RunFrom(g, black, x, y, DirectionToPoint(d), 1)
  }

  /** A stone of the mover's colour at (x, y) would capture in direction d. */
  predicate IsLegalLine(g: Grid, black: bool, x: int, y: int, d: Direction)
    requires IsMatrix(g)
  {
    ClosesFrom(g, black, x, y, DirectionToPoint(d), 1)
  }

  /** The move (x, y) is legal for the given colour. */
  function CanMove(g: Grid, black: bool, x: int, y: int): (r: bool)
    requires IsMatrix(g)
    ensures r ==> OnBoard(x, y) && g[x][y] == None
  {
    if IsBusy(g, x, y) || !HasNeighbours(g, x, y) then false
    else exists d | d in AllDirections :: IsLegalLine(g, black, x, y, d)
  }

  /**
   * Steps 1 .. k - 1 from (x, y) along o hold enemy stones, there is at least
   * one of them, and step k holds a friendly stone.
   */
  predicate ClosedRun(g: Grid, black: bool, x: int, y: int, o: Point, k: nat)
    requires IsMatrix(g)
  {
    k >= 2 && IsFriendColor(g, black, Ray(x, y, o, k)) &&
    forall i: nat | 1 <= i < k :: IsEnemyColor(g, black, Ray(x, y, o, i))
  }

  /**
   * A direction captures exactly when the cells along it are: one or more
   * enemy stones, and then a friendly stone, with no gap and before the edge.
   */
  lemma IsLegalLineMeaning(g: Grid, black: bool, x: int, y: int, d: Direction)
    requires IsMatrix(g)
    ensures IsLegalLine(g, black, x, y, d) <==>
      exists k: nat :: ClosedRun(g, black, x, y, DirectionToPoint(d), k)
  {
    var o := DirectionToPoint(d);
    var n := Run(g, black, x, y, d);
    ClosesFromRun(g, black, x, y, o, 1);
    if IsLegalLine(g, black, x, y, d) {
      forall i: nat | 1 <= i < n + 1
        ensures IsEnemyColor(g, black, Ray(x, y, o, i))
      {
        RunEnemies(g, black, x, y, o, 1, i);
      }
      assert ClosedRun(g, black, x, y, o, n + 1);
    }
    if k: nat :| ClosedRun(g, black, x, y, o, k) {
      RunEnemies(g, black, x, y, o, 1, k);
      RunStops(g, black, x, y, o, 1);
    }
  }

  /** A capturing direction always has an occupied neighbour in that direction. */
  lemma LegalLineHasNeighbour(g: Grid, black: bool, x: int, y: int, d: Direction)
    requires IsMatrix(g) && IsLegalLine(g, black, x, y, d)
    ensures IsSet(g, Point(x + DirectionToPoint(d).x, y + DirectionToPoint(d).y))
  {
    var o := DirectionToPoint(d);
    RunEnemies(g, black, x, y, o, 1, 1);
    assert Ray(x, y, o, 1) == Point(x + o.x, y + o.y);
  }

  /**
   * The neighbour pre-filter changes nothing: a move is legal exactly when the
   * cell is on the board, empty, and some direction captures.
   */
  lemma CanMoveMeaning(g: Grid, black: bool, x: int, y: int)
    requires IsMatrix(g)
    ensures CanMove(g, black, x, y) <==>
      OnBoard(x, y) && g[x][y] == None && exists d :: IsLegalLine(g, black, x, y, d)
  {
    AllDirectionsComplete();
    if OnBoard(x, y) && g[x][y] == None && exists d :: IsLegalLine(g, black, x, y, d) {
      var d :| IsLegalLine(g, black, x, y, d);
      LegalLineHasNeighbour(g, black, x, y, d);
      assert d in AllDirections;
    }
  }

  /** The board array holds the grid g. */
  ghost predicate Holds(tiles: array2<Tile>, g: Grid)
    reads tiles
  {
    tiles.Length0 == Size && tiles.Length1 == Size && IsMatrix(g) &&
    forall a, c | OnBoard(a, c) :: tiles[a, c] == g[a][c]
  }

  /**
   * One step of a walk along o: the cell reached at step k + 1 is the cell of
   * step k moved by o, and what that cell holds decides the walk from there.
   */
  lemma WalkStep(g: Grid, black: bool, x: int, y: int, o: Point, k: nat, a: int, c: int)
    requires IsMatrix(g) && IsUnit(o) && Point(a, c) == Ray(x, y, o, k)
    ensures Point(a + o.x, c + o.y) == Ray(x, y, o, k + 1)
    ensures !OnBoard(a + o.x, c + o.y) || g[a + o.x][c + o.y] == None ==>
      !ClosesFrom(g, black, x, y, o, k + 1)
    ensures OnBoard(a + o.x, c + o.y) && g[a + o.x][c + o.y] == Friend(black) ==>
      ClosesFrom(g, black, x, y, o, k + 1) == (k >= 1)
    ensures !(OnBoard(a + o.x, c + o.y) && g[a + o.x][c + o.y] == Enemy(black)) ==>
      RunFrom(g, black, x, y, o, k + 1) == 0
    ensures OnBoard(a + o.x, c + o.y) && g[a + o.x][c + o.y] == Enemy(black) ==>
      ClosesFrom(g, black, x, y, o, k + 1) == ClosesFrom(g, black, x, y, o, k + 2) &&
      RunFrom(g, black, x, y, o, k + 1) == 1 + RunFrom(g, black, x, y, o, k + 2)
  {
  }

  /** An enemy stone next to (x, y) followed by a friendly stone is a closed run of length one. */
  lemma ShortRun(g: Grid, black: bool, x: int, y: int, o: Point)
    requires IsMatrix(g) && IsUnit(o)
    requires IsEnemyColor(g, black, Ray(x, y, o, 1)) && IsFriendColor(g, black, Ray(x, y, o, 2))
    ensures ClosesFrom(g, black, x, y, o, 1) && RunFrom(g, black, x, y, o, 1) == 1
  {
    assert RunFrom(g, black, x, y, o, 2) == 0;
  }

  /** The walk of MoveIsLegal along the offset dir. */
  method WalkRun(tiles: array2<Tile>, ghost g: Grid, black: bool, x: int, y: int, dir: Point) returns (legal: bool)
    requires Holds(tiles, g) && IsUnit(dir)
    ensures legal == ClosesFrom(g, black, x, y, dir, 1)
  {
    var targetX, targetY := x + dir.x, y + dir.y;
    assert Point(targetX, targetY) == Ray(x, y, dir, 1);
    if !OnBoard(targetX, targetY) {
      return false;
    }
    if tiles[targetX, targetY] == None || tiles[targetX, targetY] == Friend(black) {
      return false;
    }
    ghost var n := RunFrom(g, black, x, y, dir, 1);
    ghost var k: nat := 1;
    while true
      invariant Point(targetX, targetY) == Ray(x, y, dir, k)
      invariant k + RunFrom(g, black, x, y, dir, k + 1) == n
      invariant ClosesFrom(g, black, x, y, dir, 1) == ClosesFrom(g, black, x, y, dir, k + 1)
      decreases n - k
    {
      WalkStep(g, black, x, y, dir, k, targetX, targetY);
      targetX, targetY := targetX + dir.x, targetY + dir.y;
      k := k + 1;
      if !OnBoard(targetX, targetY) || tiles[targetX, targetY] == None {
        return false;
      }
      if tiles[targetX, targetY] == Friend(black) {
        return true;
      }
      // the remaining case is an enemy stone: the walk goes on
    }
  }

  /** Whether a stone of the mover's colour at (x, y) would capture in direction d. */
  method MoveIsLegal(tiles: array2<Tile>, ghost g: Grid, black: bool, x: int, y: int, d: Direction)
    returns (legal: bool)
    requires Holds(tiles, g)
    ensures legal == IsLegalLine(g, black, x, y, d)
  {
    var dir := DirectionToPoint(d);
    legal := WalkRun(tiles, g, black, x, y, dir);
  }

  /** The array holds exactly the grid g. */
  lemma HoldsMatrix(tiles: array2<Tile>, g: Grid)
    requires Holds(tiles, g)
    ensures MatrixOf(tiles) == g
  {
    MatrixExtensionality(MatrixOf(tiles), g);
  }

  // ---------------------------------------------------------------------------
  // Capture

  /** A stone placed at (x, y) captures (a, c) along o: o closes a run and (a, c) is in it. */
  predicate CapturedAlong(g: Grid, black: bool, x: int, y: int, o: Point, a: int, c: int)
    requires IsMatrix(g) && IsUnit(o)
  {
    ClosesFrom(g, black, x, y, o, 1) && WithinSteps(x, y, o, RunFrom(g, black, x, y, o, 1), a, c)
  }

  /** A stone placed at (x, y) captures (a, c) in direction d. */
  predicate Captured(g: Grid, black: bool, x: int, y: int, d: Direction, a: int, c: int)
    requires IsMatrix(g)
  {
    CapturedAlong(g, black, x, y, DirectionToPoint(d), a, c)
  }

  /** The board after the captures along the offset o alone. */
  ghost function FlipRay(g: Grid, black: bool, x: int, y: int, o: Point): (r: Grid)
    requires IsMatrix(g) && IsUnit(o)
    ensures IsMatrix(r)
  {
    seq(Size, a requires 0 <= a < Size =>
      seq(Size, c requires 0 <= c < Size =>
        if CapturedAlong(g, black, x, y, o, a, c) then Friend(black) else g[a][c]))
  }

  /** The board after the captures in direction d alone. */
  ghost function FlipLine(g: Grid, black: bool, x: int, y: int, d: Direction): (r: Grid)
    requires IsMatrix(g)
    ensures IsMatrix(r)
  {
    FlipRay(g, black, x, y, DirectionToPoint(d))
  }

  /** Some direction of ds captures (a, c). */
  ghost predicate CapturedBy(g: Grid, black: bool, x: int, y: int, ds: seq<Direction>, a: int, c: int)
    requires IsMatrix(g)
  {
    exists d | d in ds :: Captured(g, black, x, y, d, a, c)
  }

  /** The board after the captures in every direction of ds. */
  ghost function FlippedBy(g: Grid, black: bool, x: int, y: int, ds: seq<Direction>): (r: Grid)
    requires IsMatrix(g)
    ensures IsMatrix(r)
  {
    seq(Size, a requires 0 <= a < Size =>
      seq(Size, c requires 0 <= c < Size =>
        if CapturedBy(g, black, x, y, ds, a, c) then Friend(black) else g[a][c]))
  }

  /** The board after a stone at (x, y) captured in all eight directions. */
  ghost function Flipped(g: Grid, black: bool, x: int, y: int): (r: Grid)
    requires IsMatrix(g)
    ensures IsMatrix(r)
  {
    FlippedBy(g, black, x, y, AllDirections)
  }

  /** A captured cell lies on the ray of its direction, within the enemy run. */
  lemma CapturedOnRay(g: Grid, black: bool, x: int, y: int, d: Direction, a: int, c: int)
    requires IsMatrix(g) && Captured(g, black, x, y, d, a, c)
    ensures OnRay(x, y, d, a, c) && RayIndex(x, y, a, c) <= Run(g, black, x, y, d)
    ensures IsEnemyColor(g, black, Point(a, c))
  {
    RunEnemies(g, black, x, y, DirectionToPoint(d), 1, RayIndex(x, y, a, c));
  }

  /** g and h hold the same tiles on every board cell of the ray from (x, y) along o. */
  ghost predicate AgreeOnRay(g: Grid, h: Grid, x: int, y: int, o: Point)
    requires IsMatrix(g) && IsMatrix(h)
  {
    forall i: nat | i >= 1 && OnBoard(Ray(x, y, o, i).x, Ray(x, y, o, i).y) ::
      g[Ray(x, y, o, i).x][Ray(x, y, o, i).y] == h[Ray(x, y, o, i).x][Ray(x, y, o, i).y]
  }

  /** Two grids that agree on every cell of a ray have the same runs along it. */
  lemma {:induction false} RunFromAgree(g: Grid, h: Grid, black: bool, x: int, y: int, o: Point, k: nat)
    requires IsMatrix(g) && IsMatrix(h) && IsUnit(o) && k >= 1
    requires AgreeOnRay(g, h, x, y, o)
    ensures RunFrom(g, black, x, y, o, k) == RunFrom(h, black, x, y, o, k)
    decreases EdgeDistance(Ray(x, y, o, k), o)
  {
    var p := Ray(x, y, o, k);
    if OnBoard(p.x, p.y) {
      assert g[p.x][p.y] == h[p.x][p.y];
      if g[p.x][p.y] == Enemy(black) {
        RunFromAgree(g, h, black, x, y, o, k + 1);
      }
    }
  }

  /** Captures in one direction only depend on the cells of that ray. */
  lemma CapturedAgree(g: Grid, h: Grid, black: bool, x: int, y: int, d: Direction)
    requires IsMatrix(g) && IsMatrix(h)
    requires AgreeOnRay(g, h, x, y, DirectionToPoint(d))
    ensures Run(g, black, x, y, d) == Run(h, black, x, y, d)
    ensures IsLegalLine(g, black, x, y, d) == IsLegalLine(h, black, x, y, d)
  {
    var o := DirectionToPoint(d);
    RunFromAgree(g, h, black, x, y, o, 1);
    ClosesFromRun(g, black, x, y, o, 1);
    ClosesFromRun(h, black, x, y, o, 1);
    var n := Run(g, black, x, y, d);
    var p := Ray(x, y, o, n + 1);
    if OnBoard(p.x, p.y) {
      assert g[p.x][p.y] == h[p.x][p.y];
    }
  }

  /** The captures of ds leave every cell of another direction's ray as it was. */
  lemma FlippedByAgreesOffItsRays(g: Grid, black: bool, x: int, y: int, ds: seq<Direction>, d: Direction)
    requires IsMatrix(g) && d !in ds
    ensures AgreeOnRay(FlippedBy(g, black, x, y, ds), g, x, y, DirectionToPoint(d))
  {
    var o := DirectionToPoint(d);
    var h := FlippedBy(g, black, x, y, ds);
    forall i: nat | i >= 1 && OnBoard(Ray(x, y, o, i).x, Ray(x, y, o, i).y)
      ensures h[Ray(x, y, o, i).x][Ray(x, y, o, i).y] == g[Ray(x, y, o, i).x][Ray(x, y, o, i).y]
    {
      var p := Ray(x, y, o, i);
      RayIsOnRay(x, y, d, i);
      FlippedByAt(g, black, x, y, ds, p.x, p.y);
      if e :| e in ds && Captured(g, black, x, y, e, p.x, p.y) {
        CapturedOnRay(g, black, x, y, e, p.x, p.y);
        RaysDisjoint(x, y, d, e, p.x, p.y);
      }
    }
  }

  /** The cell (a, c) of FlipLine. */
  lemma FlipLineAt(g: Grid, black: bool, x: int, y: int, d: Direction, a: int, c: int)
    requires IsMatrix(g) && OnBoard(a, c)
    ensures FlipLine(g, black, x, y, d)[a][c] ==
      if Captured(g, black, x, y, d, a, c) then Friend(black) else g[a][c]
  {
  }

  /** The cell (a, c) of FlippedBy. */
  lemma FlippedByAt(g: Grid, black: bool, x: int, y: int, ds: seq<Direction>, a: int, c: int)
    requires IsMatrix(g) && OnBoard(a, c)
    ensures FlippedBy(g, black, x, y, ds)[a][c] ==
      if CapturedBy(g, black, x, y, ds, a, c) then Friend(black) else g[a][c]
  {
  }

  /** A cell is captured by ds + [d] when ds or d captures it. */
  lemma CapturedByAppend(g: Grid, black: bool, x: int, y: int, ds: seq<Direction>, d: Direction, a: int, c: int)
    requires IsMatrix(g)
    ensures CapturedBy(g, black, x, y, ds + [d], a, c) <==>
      CapturedBy(g, black, x, y, ds, a, c) || Captured(g, black, x, y, d, a, c)
  {
    if CapturedBy(g, black, x, y, ds + [d], a, c) {
      var e :| e in ds + [d] && Captured(g, black, x, y, e, a, c);
      assert e in ds || e == d;
    }
    if Captured(g, black, x, y, d, a, c) {
      assert d in ds + [d];
    }
    if CapturedBy(g, black, x, y, ds, a, c) {
      var e :| e in ds && Captured(g, black, x, y, e, a, c);
      assert e in ds + [d];
    }
  }

  /** One cell of FlipStep. */
  lemma FlipStepCell(g: Grid, h: Grid, black: bool, x: int, y: int, ds: seq<Direction>, d: Direction, a: int, c: int)
    requires IsMatrix(g) && OnBoard(a, c) && d !in ds
    requires h == FlippedBy(g, black, x, y, ds)
    requires Run(g, black, x, y, d) == Run(h, black, x, y, d)
    requires IsLegalLine(g, black, x, y, d) == IsLegalLine(h, black, x, y, d)
    ensures FlipLine(h, black, x, y, d)[a][c] == FlippedBy(g, black, x, y, ds + [d])[a][c]
  {
    FlipLineAt(h, black, x, y, d, a, c);
    FlippedByAt(g, black, x, y, ds, a, c);
    FlippedByAt(g, black, x, y, ds + [d], a, c);
    CapturedByAppend(g, black, x, y, ds, d, a, c);
  }

  /** Adding the captures of one more direction to those of ds. */
  lemma FlipStep(g: Grid, black: bool, x: int, y: int, ds: seq<Direction>, d: Direction)
    requires IsMatrix(g) && d !in ds
    ensures FlipLine(FlippedBy(g, black, x, y, ds), black, x, y, d) == FlippedBy(g, black, x, y, ds + [d])
  {
    var h := FlippedBy(g, black, x, y, ds);
    FlippedByAgreesOffItsRays(g, black, x, y, ds, d);
    CapturedAgree(h, g, black, x, y, d);
    var l, r := FlipLine(h, black, x, y, d), FlippedBy(g, black, x, y, ds + [d]);
    forall a, c | OnBoard(a, c)
      ensures l[a][c] == r[a][c]
    {
      FlipStepCell(g, h, black, x, y, ds, d, a, c);
    }
    MatrixExtensionality(l, r);
  }

  /** With no direction, nothing is captured. */
  lemma FlippedByNone(g: Grid, black: bool, x: int, y: int)
    requires IsMatrix(g)
    ensures FlippedBy(g, black, x, y, []) == g
  {
    MatrixExtensionality(FlippedBy(g, black, x, y, []), g);
  }

  /** When the walk along o finds no run closed by a friendly stone, nothing flips. */
  lemma NoCaptureLeavesRay(g: Grid, black: bool, x: int, y: int, o: Point)
    requires IsMatrix(g) && IsUnit(o) && !ClosesFrom(g, black, x, y, o, 1)
    ensures FlipRay(g, black, x, y, o) == g
  {
    MatrixExtensionality(FlipRay(g, black, x, y, o), g);
  }

  /**
   * The walk of FlipAtInDirection along the offset dir: it collects the enemy
   * run next to (x, y) and reports whether a friendly stone closes it.
   */
  method CollectRun(tiles: array2<Tile>, ghost g: Grid, black: bool, x: int, y: int, dir: Point)
    returns (changes: seq<Point>, closed: bool)
    requires Holds(tiles, g) && IsUnit(dir)
    ensures closed == ClosesFrom(g, black, x, y, dir, 1)
    ensures closed ==> |changes| == RunFrom(g, black, x, y, dir, 1)
    ensures changes == RaySteps(x, y, dir, |changes|)
  {
    ghost var n := RunFrom(g, black, x, y, dir, 1);
    var targetX, targetY := x, y;
    changes := [];
    ghost var k: nat := 0;
    while true
      invariant k == |changes|
      invariant Point(targetX, targetY) == Ray(x, y, dir, k)
      invariant k + RunFrom(g, black, x, y, dir, k + 1) == n
      invariant ClosesFrom(g, black, x, y, dir, 1) == ClosesFrom(g, black, x, y, dir, k + 1)
      invariant changes == RaySteps(x, y, dir, k)
      decreases n - k
    {
      WalkStep(g, black, x, y, dir, k, targetX, targetY);
      targetX, targetY := targetX + dir.x, targetY + dir.y;
      if !OnBoard(targetX, targetY) || tiles[targetX, targetY] == None {
        return changes, false;
      }
      if tiles[targetX, targetY] == Friend(black) {
        return changes, |changes| > 0;
      }
      // the remaining case is an enemy stone
      assert g[targetX][targetY] == Enemy(black);
      changes := changes + [Point(targetX, targetY)];
      k := k + 1;
    }
  }

  /** The captures along the offset dir: collect the run, and recolour it if it is closed. */
  method FlipRun(tiles: array2<Tile>, black: bool, x: int, y: int, dir: Point)
    requires tiles.Length0 == Size && tiles.Length1 == Size && IsUnit(dir)
    modifies tiles
    ensures MatrixOf(tiles) == FlipRay(old(MatrixOf(tiles)), black, x, y, dir)
  {
    ghost var g := MatrixOf(tiles);
    var changes, closed := CollectRun(tiles, g, black, x, y, dir);
    if !closed {
      NoCaptureLeavesRay(g, black, x, y, dir);
      return;
    }
    forall j | 0 <= j < |changes|
      ensures OnBoard(changes[j].x, changes[j].y)
    {
      RunEnemies(g, black, x, y, dir, 1, j + 1);
    }
    Paint(tiles, changes, Friend(black));
    forall a, c | OnBoard(a, c)
      ensures MatrixOf(tiles)[a][c] == FlipRay(g, black, x, y, dir)[a][c]
    {
      RunCells(x, y, dir, changes, a, c);
    }
    MatrixExtensionality(MatrixOf(tiles), FlipRay(g, black, x, y, dir));
  }

  /** The cells collected by the walk are exactly the first |changes| steps of the ray. */
  lemma RunCells(x: int, y: int, o: Point, changes: seq<Point>, a: int, c: int)
    requires IsUnit(o)
    requires forall j | 0 <= j < |changes| :: changes[j] == Ray(x, y, o, j + 1)
    ensures Point(a, c) in changes <==> WithinSteps(x, y, o, |changes|, a, c)
  {
    if Point(a, c) in changes {
      var j :| 0 <= j < |changes| && changes[j] == Point(a, c);
      RayIndexOfRay(x, y, o, j + 1);
    }
    if WithinSteps(x, y, o, |changes|, a, c) {
      var j := RayIndex(x, y, a, c);
      assert changes[j - 1] == Point(a, c);
    }
  }

  /** The recolouring loop of FlipAtInDirection: every listed cell gets the tile t, and no other cell changes. */
  method Paint(tiles: array2<Tile>, cells: seq<Point>, t: Tile)
    requires tiles.Length0 == Size && tiles.Length1 == Size
    requires forall j | 0 <= j < |cells| :: OnBoard(cells[j].x, cells[j].y)
    modifies tiles
    ensures forall a, c | OnBoard(a, c) ::
      tiles[a, c] == if Point(a, c) in cells then t else old(tiles[a, c])
  {
    for i := 0 to |cells|
      invariant forall a, c | OnBoard(a, c) ::
        tiles[a, c] == if Point(a, c) in cells[..i] then t else old(tiles[a, c])
    {
      var p := cells[i];
      tiles[p.x, p.y] := t;
      assert cells[..i + 1] == cells[..i] + [p];
    }
    assert cells[..|cells|] == cells;
  }

  /** FlipAtInDirection: the captures of a stone placed at (x, y), in direction d only. */
  method FlipAtInDirection(tiles: array2<Tile>, black: bool, d: Direction, x: int, y: int)
    requires tiles.Length0 == Size && tiles.Length1 == Size
    modifies tiles
    ensures MatrixOf(tiles) == FlipLine(old(MatrixOf(tiles)), black, x, y, d)
  {
    var dir := DirectionToPoint(d);
    FlipRun(tiles, black, x, y, dir);
  }

  /** FlipAt: the captures of a stone placed at (x, y), direction by direction. */
  method FlipAt(tiles: array2<Tile>, black: bool, x: int, y: int)
    requires tiles.Length0 == Size && tiles.Length1 == Size
    modifies tiles
    ensures MatrixOf(tiles) == Flipped(old(MatrixOf(tiles)), black, x, y)
  {
    ghost var g := MatrixOf(tiles);
    FlippedByNone(g, black, x, y);
    AllDirectionsComplete();
    for i := 0 to |AllDirections|
      invariant MatrixOf(tiles) == FlippedBy(g, black, x, y, AllDirections[..i])
    {
      FlipStep(g, black, x, y, AllDirections[..i], AllDirections[i]);
      FlipAtInDirection(tiles, black, AllDirections[i], x, y);
      assert AllDirections[..i + 1] == AllDirections[..i] + [AllDirections[i]];
    }
    assert AllDirections[..|AllDirections|] == AllDirections;
  }

  /**
   * The legality test of the game: the cell must be on the board and free,
   * have an occupied neighbour, and some direction's walk must capture.
   */
  method CanMoveAt(tiles: array2<Tile>, ghost g: Grid, black: bool, x: int, y: int) returns (r: bool)
    requires Holds(tiles, g)
    ensures r == CanMove(g, black, x, y)
  {
    if !OnBoard(x, y) || tiles[x, y] != None {
      return false;
    }
    HoldsMatrix(tiles, g);
    if !HasNeighbours(MatrixOf(tiles), x, y) {
      return false;
    }
    for i := 0 to |AllDirections|
      invariant forall j | 0 <= j < i :: !IsLegalLine(g, black, x, y, AllDirections[j])
    {
      var legal := MoveIsLegal(tiles, g, black, x, y, AllDirections[i]);
      if legal {
        return true;
      }
    }
    return false;
  }

  // ---------------------------------------------------------------------------
  // What a capture changes

  /**
   * The run of direction d is the contiguous block of enemy stones next to
   * (x, y): every one of its cells is an enemy stone and the cell after it is not.
   */
  lemma RunMeaning(g: Grid, black: bool, x: int, y: int, d: Direction)
    requires IsMatrix(g)
    ensures forall i: nat | 1 <= i <= Run(g, black, x, y, d) ::
      IsEnemyColor(g, black, Ray(x, y, DirectionToPoint(d), i))
    ensures !IsEnemyColor(g, black, Ray(x, y, DirectionToPoint(d), Run(g, black, x, y, d) + 1))
  {
    var o := DirectionToPoint(d);
    forall i: nat | 1 <= i <= Run(g, black, x, y, d)
      ensures IsEnemyColor(g, black, Ray(x, y, o, i))
    {
      RunEnemies(g, black, x, y, o, 1, i);
    }
    RunStops(g, black, x, y, o, 1);
  }

  /**
   * Direction d captures (a, c) exactly when it closes a run and (a, c) is one
   * of the steps 1 .. Run of that run.
   */
  lemma CapturedMeaning(g: Grid, black: bool, x: int, y: int, d: Direction, a: int, c: int)
    requires IsMatrix(g)
    ensures Captured(g, black, x, y, d, a, c) <==>
      IsLegalLine(g, black, x, y, d) &&
      exists k: nat | 1 <= k <= Run(g, black, x, y, d) :: Ray(x, y, DirectionToPoint(d), k) == Point(a, c)
  {
    var o := DirectionToPoint(d);
    if k: nat :| 1 <= k <= Run(g, black, x, y, d) && Ray(x, y, o, k) == Point(a, c) {
      RayIndexOfRay(x, y, o, k);
    }
  }

  /** Where two grids agree along d and d closes a run of one stone in h, g captures exactly that stone. */
  lemma CapturedSingle(g: Grid, h: Grid, black: bool, x: int, y: int, d: Direction, a: int, c: int)
    requires IsMatrix(g) && IsMatrix(h) && AgreeOnRay(g, h, x, y, DirectionToPoint(d))
    requires IsLegalLine(h, black, x, y, d) && Run(h, black, x, y, d) == 1
    ensures Captured(g, black, x, y, d, a, c) <==> Point(a, c) == Ray(x, y, DirectionToPoint(d), 1)
  {
    CapturedAgree(g, h, black, x, y, d);
    CapturedMeaning(g, black, x, y, d, a, c);
  }

  /** Where two grids agree along d and d closes no run in h, g captures nothing along d. */
  lemma CapturedNothing(g: Grid, h: Grid, black: bool, x: int, y: int, d: Direction, a: int, c: int)
    requires IsMatrix(g) && IsMatrix(h) && AgreeOnRay(g, h, x, y, DirectionToPoint(d))
    requires !IsLegalLine(h, black, x, y, d)
    ensures !Captured(g, black, x, y, d, a, c)
  {
    CapturedAgree(g, h, black, x, y, d);
    CapturedMeaning(g, black, x, y, d, a, c);
  }

  /**
   * A capture only turns enemy stones into the mover's colour; a cell that
   * changes lies on one of the eight rays from (x, y), inside the run of a
   * direction that closes it. So (x, y) itself, empty cells, friendly cells
   * and cells off the rays keep their tiles.
   */
  lemma FlippedFrame(g: Grid, black: bool, x: int, y: int, a: int, c: int)
    requires IsMatrix(g) && OnBoard(a, c)
    ensures Flipped(g, black, x, y)[a][c] == g[a][c] ||
      (g[a][c] == Enemy(black) && Flipped(g, black, x, y)[a][c] == Friend(black))
    ensures Flipped(g, black, x, y)[a][c] != g[a][c] ==>
      (a != x || c != y) &&
      exists d :: IsLegalLine(g, black, x, y, d) && OnRay(x, y, d, a, c) &&
        RayIndex(x, y, a, c) <= Run(g, black, x, y, d)
  {
    FlippedByAt(g, black, x, y, AllDirections, a, c);
    if e :| e in AllDirections && Captured(g, black, x, y, e, a, c) {
      CapturedOnRay(g, black, x, y, e, a, c);
    }
  }

  /** A capture recolours enemy stones into the mover's colour and changes nothing else. */
  lemma FlippedRecolours(g: Grid, black: bool, x: int, y: int)
    requires IsMatrix(g)
    ensures Recolours(g, Flipped(g, black, x, y), Enemy(black), Friend(black))
  {
    forall a, c | OnBoard(a, c)
      ensures Flipped(g, black, x, y)[a][c] == g[a][c] ||
        (g[a][c] == Enemy(black) && Flipped(g, black, x, y)[a][c] == Friend(black))
    {
      FlippedFrame(g, black, x, y, a, c);
    }
  }

  /** A direction that closes a run captures at least its first cell, the neighbour of (x, y). */
  lemma LegalLineFlips(g: Grid, black: bool, x: int, y: int, d: Direction)
    requires IsMatrix(g) && IsLegalLine(g, black, x, y, d)
    ensures var p := Ray(x, y, DirectionToPoint(d), 1);
      OnBoard(p.x, p.y) && Flipped(g, black, x, y)[p.x][p.y] != g[p.x][p.y]
  {
    var o := DirectionToPoint(d);
    var p := Ray(x, y, o, 1);
    ClosesFromRun(g, black, x, y, o, 1);
    RunEnemies(g, black, x, y, o, 1, 1);
    CapturedMeaning(g, black, x, y, d, p.x, p.y);
    AllDirectionsComplete();
    FlippedByAt(g, black, x, y, AllDirections, p.x, p.y);
  }

  /**
   * After a legal move's captures, at least one stone changed colour, the
   * mover's count rose by the number of changed cells and the opponent's
   * count fell by the same number.
   */
  lemma FlippedCounts(g: Grid, black: bool, x: int, y: int)
    requires IsMatrix(g)
    ensures Count(Flipped(g, black, x, y), Friend(black)) == Count(g, Friend(black)) + Changes(g, Flipped(g, black, x, y))
    ensures Count(Flipped(g, black, x, y), Enemy(black)) == Count(g, Enemy(black)) - Changes(g, Flipped(g, black, x, y))
    ensures CanMove(g, black, x, y) ==> Changes(g, Flipped(g, black, x, y)) >= 1
  {
    var h := Flipped(g, black, x, y);
    FlippedRecolours(g, black, x, y);
    RecolourCounts(g, h, Enemy(black), Friend(black));
    if CanMove(g, black, x, y) {
      var d :| d in AllDirections && IsLegalLine(g, black, x, y, d);
      LegalLineFlips(g, black, x, y, d);
      var p := Ray(x, y, DirectionToPoint(d), 1);
      ChangesPositive(g, h, p.x, p.y);
    }
  }

  /** A stone put at (x, y) leaves the cells of every ray from (x, y) as they were. */
  lemma PlacingKeepsRays(g: Grid, x: int, y: int, t: Tile, o: Point)
    requires IsMatrix(g) && OnBoard(x, y) && IsUnit(o)
    ensures AgreeOnRay(Place(g, x, y, t), g, x, y, o)
  {
    forall i: nat | i >= 1 && OnBoard(Ray(x, y, o, i).x, Ray(x, y, o, i).y)
      ensures Place(g, x, y, t)[Ray(x, y, o, i).x][Ray(x, y, o, i).y] == g[Ray(x, y, o, i).x][Ray(x, y, o, i).y]
    {
      RayIndexOfRay(x, y, o, i);
    }
  }

  /** Putting the stone at (x, y) first does not change what it captures. */
  lemma PlacedCaptures(g: Grid, black: bool, x: int, y: int, t: Tile, d: Direction, a: int, c: int)
    requires IsMatrix(g) && OnBoard(x, y)
    ensures Captured(Place(g, x, y, t), black, x, y, d, a, c) == Captured(g, black, x, y, d, a, c)
  {
    PlacingKeepsRays(g, x, y, t, DirectionToPoint(d));
    CapturedAgree(Place(g, x, y, t), g, black, x, y, d);
  }

  /**
   * The program puts the mover's stone down before it captures. Capturing
   * after placing gives the same board as placing after capturing: the stone
   * at (x, y) is never captured and does not change any ray from it.
   */
  lemma FlipAfterPlacing(g: Grid, black: bool, x: int, y: int, t: Tile)
    requires IsMatrix(g) && OnBoard(x, y)
    ensures Flipped(Place(g, x, y, t), black, x, y) == Place(Flipped(g, black, x, y), x, y, t)
  {
    var h := Place(g, x, y, t);
    forall a, c | OnBoard(a, c)
      ensures Flipped(h, black, x, y)[a][c] == Place(Flipped(g, black, x, y), x, y, t)[a][c]
    {
      FlippedByAt(h, black, x, y, AllDirections, a, c);
      FlippedByAt(g, black, x, y, AllDirections, a, c);
      if a == x && c == y {
        FlippedFrame(h, black, x, y, a, c);
      } else {
        forall d ensures Captured(h, black, x, y, d, a, c) == Captured(g, black, x, y, d, a, c) {
          PlacedCaptures(g, black, x, y, t, d, a, c);
        }
      }
    }
    MatrixExtensionality(Flipped(h, black, x, y), Place(Flipped(g, black, x, y), x, y, t));
  }

  /**
   * A legal move still captures at least one stone when, as in the program,
   * the mover's stone is put on the board before the captures.
   */
  lemma PlacedMoveFlips(g: Grid, black: bool, x: int, y: int)
    requires IsMatrix(g) && CanMove(g, black, x, y)
    ensures var h := Place(g, x, y, Friend(black));
      Changes(h, Flipped(h, black, x, y)) >= 1
  {
    var h := Place(g, x, y, Friend(black));
    var d :| d in AllDirections && IsLegalLine(g, black, x, y, d);
    LegalLineFlips(g, black, x, y, d);
    var o := DirectionToPoint(d);
    var p := Ray(x, y, o, 1);
    RayIndexOfRay(x, y, o, 1);
    FlipAfterPlacing(g, black, x, y, Friend(black));
    ChangesPositive(h, Flipped(h, black, x, y), p.x, p.y);
  }

  /** The captures of the directions of ds applied one direction after the other. */
  ghost function FlipLines(g: Grid, black: bool, x: int, y: int, ds: seq<Direction>): (r: Grid)
    requires IsMatrix(g)
    ensures IsMatrix(r)
    decreases |ds|
  {
    if ds == [] then g
    else FlipLine(FlipLines(g, black, x, y, ds[..|ds| - 1]), black, x, y, ds[|ds| - 1])
  }

  /** Applying distinct directions one by one gives their joint captures on the original board. */
  lemma {:induction false} FlipLinesJoint(g: Grid, black: bool, x: int, y: int, ds: seq<Direction>)
    requires IsMatrix(g)
    requires forall i, j | 0 <= i < j < |ds| :: ds[i] != ds[j]
    ensures FlipLines(g, black, x, y, ds) == FlippedBy(g, black, x, y, ds)
    decreases |ds|
  {
    if ds == [] {
      FlippedByNone(g, black, x, y);
    } else {
      var init, d := ds[..|ds| - 1], ds[|ds| - 1];
      FlipLinesJoint(g, black, x, y, init);
      FlipStep(g, black, x, y, init, d);
      assert init + [d] == ds;
    }
  }

  /**
   * The order of the directions does not matter: any two orders of the same
   * distinct directions leave the same board.
   */
  lemma FlipOrderIrrelevant(g: Grid, black: bool, x: int, y: int, ds: seq<Direction>, es: seq<Direction>)
    requires IsMatrix(g)
    requires forall i, j | 0 <= i < j < |ds| :: ds[i] != ds[j]
    requires forall i, j | 0 <= i < j < |es| :: es[i] != es[j]
    requires forall d :: d in ds <==> d in es
    ensures FlipLines(g, black, x, y, ds) == FlipLines(g, black, x, y, es)
  {
    FlipLinesJoint(g, black, x, y, ds);
    FlipLinesJoint(g, black, x, y, es);
    forall a, c | OnBoard(a, c)
      ensures FlippedBy(g, black, x, y, ds)[a][c] == FlippedBy(g, black, x, y, es)[a][c]
    {
      FlippedByAt(g, black, x, y, ds, a, c);
      FlippedByAt(g, black, x, y, es, a, c);
    }
    MatrixExtensionality(FlippedBy(g, black, x, y, ds), FlippedBy(g, black, x, y, es));
  }
}
