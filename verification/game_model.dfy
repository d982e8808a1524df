/**
 * The state of one game: the 8x8 board, the two scores, the pass counter,
 * the game status and the difficulty. The board is an array that the game
 * updates in place.
 */
module GameModel {
  import opened Board
  import opened DirectionHelper
  import opened RuleEngine

  /** Whose turn it is, or that no game is running. */
  datatype GameStatus = NotStarted | PlayerTurnBlack | ComputerTurnWhite

  /** How much noise the computer adds to its move scores. */
  datatype Difficulty = Easy | Medium | Hard

  /** The opening layout: two white and two black stones crossed in the centre. */
  function InitialTile(x: int, y: int): Tile {
    if (x == 3 && y == 3) || (x == 4 && y == 4) then White
    else if (x == 3 && y == 4) || (x == 4 && y == 3) then Black
    else None
  }

  /** The opening board as a value. */
  function InitialGrid(): (g: Grid)
    ensures IsMatrix(g)
    ensures forall x, y | OnBoard(x, y) :: g[x][y] == InitialTile(x, y)
  {
    seq(Size, x => seq(Size, y => InitialTile(x, y)))
  }

  class Game {
    const tiles: array2<Tile>
    var gameStatus: GameStatus
    var playerScore: int
    var computerScore: int
    var passCount: int
    var difficulty: Difficulty

    /** The board array is 8x8. */
    ghost predicate Valid()
      reads this
    {
      tiles.Length0 == Size && tiles.Length1 == Size
    }

    /** The current board, as a value. */
    ghost function Cells(): (g: Grid)
      reads this, tiles
      requires Valid()
      ensures IsMatrix(g)
    {
      MatrixOf(tiles)
    }

    /** A new game starts from the opening layout; no difficulty has been chosen, so it is the first one. */
    constructor()
      ensures Valid() && fresh(tiles)
      ensures Cells() == InitialGrid()
      ensures gameStatus == NotStarted && playerScore == 2 && computerScore == 2 && passCount == 0
      ensures difficulty == Easy
    {
      tiles := new Tile[Size, Size];
      difficulty := Easy;
      new;
      Reset();
    }

    /**
     * Back to the opening layout, with two stones each, no passes and no game
     * running. The difficulty is kept.
     */
    method Reset()
      requires Valid()
      modifies this, tiles
      ensures Valid()
      ensures Cells() == InitialGrid()
      ensures playerScore == 2 && computerScore == 2
      ensures gameStatus == NotStarted && passCount == 0
      ensures difficulty == old(difficulty)
    {
      gameStatus := NotStarted;
      for y := 0 to Size
        modifies tiles
        invariant forall a, c | 0 <= a < Size && 0 <= c < y :: tiles[a, c] == None
      {
        for x := 0 to Size
          modifies tiles
          invariant forall a, c | 0 <= a < Size && 0 <= c < y :: tiles[a, c] == None
          invariant forall a | 0 <= a < x :: tiles[a, y] == None
        {
          tiles[x, y] := None;
        }
      }
      tiles[3, 3] := White;
      tiles[3, 4] := Black;
      tiles[4, 3] := Black;
      tiles[4, 4] := White;
      playerScore := 2;
      computerScore := 2;
      passCount := 0;
      assert forall a, c | OnBoard(a, c) :: tiles[a, c] == InitialTile(a, c);
      MatrixExtensionality(Cells(), InitialGrid());
    }

    /** The cell (x, y) holds no stone. */
    function IsFree(x: int, y: int): (r: bool)
      reads this, tiles
      requires Valid() && OnBoard(x, y)
      ensures r <==> !IsBusy(Cells(), x, y)
    {
      GetTileAt(x, y) == None
    }

    /** The tile at (x, y). */
    function GetTileAt(x: int, y: int): (t: Tile)
      reads this, tiles
      requires Valid() && OnBoard(x, y)
      ensures t == Cells()[x][y]
    {
      tiles[x, y]
    }

    /** Puts `color` at (x, y); every other cell keeps its tile. */
    method SetTileAt(x: int, y: int, color: Tile)
      requires Valid() && OnBoard(x, y)
      modifies tiles
      ensures GetTileAt(x, y) == color
      ensures forall a, c | OnBoard(a, c) && (a != x || c != y) :: Cells()[a][c] == old(Cells())[a][c]
      ensures Cells() == Place(old(Cells()), x, y, color)
    {
      ghost var g := Cells();
      tiles[x, y] := color;
      MatrixExtensionality(Cells(), Place(g, x, y, color));
    }

    /** Recounts the board: the player's score is the black stones, the computer's the white ones. */
    method CalculateScore()
      requires Valid()
      modifies this
      ensures Cells() == old(Cells())
      ensures playerScore == Count(Cells(), Black) && computerScore == Count(Cells(), White)
      ensures playerScore + computerScore <= 64
      ensures gameStatus == old(gameStatus) && passCount == old(passCount) && difficulty == old(difficulty)
    {
      ghost var g := Cells();
      var black, white := 0, 0;
      for y := 0 to Size
        invariant black == RowsCount(g, Black, y) && white == RowsCount(g, White, y)
      {
        for x := 0 to Size
          invariant black == RowsCount(g, Black, y) + RowCount(g, Black, y, x)
          invariant white == RowsCount(g, White, y) + RowCount(g, White, y, x)
        {
          match tiles[x, y]
          case Black => black := black + 1;
          case White => white := white + 1;
          case None =>
        }
      }
      playerScore := black;
      computerScore := white;
      CountsSumToBoard(g);
    }

    /** Some cell of the board is a legal move for the given colour. */
    method ColourCanMove(black: bool) returns (r: bool)
      requires Valid()
      ensures r <==> exists x, y | OnBoard(x, y) :: CanMove(Cells(), black, x, y)
    {
      assert Holds(tiles, Cells());
      r := ScanForMove(tiles, Cells(), black);
    }

    /** Black has a legal move somewhere. */
    method BlackCanMove() returns (r: bool)
      requires Valid()
      ensures r <==> exists x, y | OnBoard(x, y) :: CanMove(Cells(), true, x, y)
    {
      r := ColourCanMove(true);
    }

    /** Black may place a stone at (x, y): the cell is on the board and empty and some direction captures. */
    method BlackCanMoveAt(x: int, y: int) returns (r: bool)
      requires Valid()
      ensures r <==>
        OnBoard(x, y) && Cells()[x][y] == None && exists d :: IsLegalLine(Cells(), true, x, y, d)
    {
      r := CanMoveAt(tiles, Cells(), true, x, y);
      CanMoveMeaning(Cells(), true, x, y);
    }

    /** White has a legal move somewhere. */
    method WhiteCanMove() returns (r: bool)
      requires Valid()
      ensures r <==> exists x, y | OnBoard(x, y) :: CanMove(Cells(), false, x, y)
    {
      r := ColourCanMove(false);
    }

    /** The captures of a black stone placed at (x, y). */
    method BlackFlipAt(x: int, y: int)
      requires Valid()
      modifies tiles
      ensures Cells() == Flipped(old(Cells()), true, x, y)
    {
      FlipAt(tiles, true, x, y);
    }

    /** The captures of a white stone placed at (x, y). */
    method WhiteFlipAt(x: int, y: int)
      requires Valid()
      modifies tiles
      ensures Cells() == Flipped(old(Cells()), false, x, y)
    {
      FlipAt(tiles, false, x, y);
    }

    /**
     * The game is over after more than two passes in a row, or when the board
     * has no black stone, no white stone or no empty cell left.
     */
    method CheckGameOverState() returns (over: bool)
      requires Valid()
      ensures over <==>
        passCount > 2 ||
        (forall x, y | OnBoard(x, y) :: Cells()[x][y] != Black) ||
        (forall x, y | OnBoard(x, y) :: Cells()[x][y] != White) ||
        (forall x, y | OnBoard(x, y) :: Cells()[x][y] != None)
    {
      ghost var g := Cells();
      if passCount > 2 {
        return true;
      }
      var blackCount, whiteCount, noneCount := 0, 0, 0;
      for y := 0 to Size
        invariant blackCount == RowsCount(g, Black, y)
        invariant whiteCount == RowsCount(g, White, y)
        invariant noneCount == RowsCount(g, None, y)
      {
        for x := 0 to Size
          invariant blackCount == RowsCount(g, Black, y) + RowCount(g, Black, y, x)
          invariant whiteCount == RowsCount(g, White, y) + RowCount(g, White, y, x)
          invariant noneCount == RowsCount(g, None, y) + RowCount(g, None, y, x)
        {
          var tile := GetTileAt(x, y);
          match tile
          case Black => blackCount := blackCount + 1;
          case White => whiteCount := whiteCount + 1;
          case None => noneCount := noneCount + 1;
        }
      }
      CountZero(g, Black);
      CountZero(g, White);
      CountZero(g, None);
      return blackCount == 0 || whiteCount == 0 || noneCount == 0;
    }
  }

  /**
   * The board scan behind Game.BlackCanMove and Game.WhiteCanMove: rows from the top,
   * cells from the left, stopping at the first legal move of the given colour.
   */
  method ScanForMove(tiles: array2<Tile>, ghost g: Grid, black: bool) returns (r: bool)
    requires Holds(tiles, g)
    ensures r <==> exists x, y | OnBoard(x, y) :: CanMove(g, black, x, y)
  {
    for y := 0 to Size
      invariant forall a, c | 0 <= a < Size && 0 <= c < y :: !CanMove(g, black, a, c)
    {
      for x := 0 to Size
        invariant forall a, c | 0 <= a < Size && 0 <= c < y :: !CanMove(g, black, a, c)
        invariant forall a | 0 <= a < x :: !CanMove(g, black, a, y)
      {
        var legal := CanMoveAt(tiles, g, black, x, y);
        if legal {
          return true;
        }
      }
    }
    return false;
  }

  /** Each row of the opening board: rows 3 and 4 hold one stone of each colour, the others none. */
  lemma InitialRowCounts(y: int)
    requires 0 <= y < Size
    ensures RowCount(InitialGrid(), Black, y, Size) == (if y == 3 || y == 4 then 1 else 0)
    ensures RowCount(InitialGrid(), White, y, Size) == (if y == 3 || y == 4 then 1 else 0)
    ensures RowCount(InitialGrid(), None, y, Size) == (if y == 3 || y == 4 then 6 else 8)
  {
    var g := InitialGrid();
    if y == 3 || y == 4 {
      RowCountSingle(g, Black, y, Size, 7 - y);
      RowCountSingle(g, White, y, Size, y);
    } else {
      RowCountZero(g, Black, y, Size);
      RowCountZero(g, White, y, Size);
    }
    RowCountsPartition(g, y, Size);
  }

  /** The rows 0 .. m - 1 of the opening board. */
  lemma {:induction false} InitialRowsCounts(m: int)
    requires 0 <= m <= Size
    ensures var r := (if m > 3 then 1 else 0) + (if m > 4 then 1 else 0);
      RowsCount(InitialGrid(), Black, m) == r && RowsCount(InitialGrid(), White, m) == r &&
      RowsCount(InitialGrid(), None, m) == 8 * m - 2 * r
  {
    if m > 0 {
      InitialRowsCounts(m - 1);
      InitialRowCounts(m - 1);
    }
  }

  /** The opening board holds two black stones, two white ones and 60 empty cells. */
  lemma InitialCounts()
    ensures Count(InitialGrid(), Black) == 2 && Count(InitialGrid(), White) == 2
    ensures Count(InitialGrid(), None) == 60
  {
    InitialRowsCounts(Size);
  }

  // ---------------------------------------------------------------------------
  // The opening position

  /**
   * The cells of the opening board along a capturing ray for Black: a white
   * stone next to the start, then a black one, possibly after one more white
   * stone. Only four starts and offsets fit.
   */
  lemma OpeningRayShape(x: int, y: int, ox: int, oy: int)
    requires OnBoard(x, y) && InitialTile(x, y) == None && IsUnit(Point(ox, oy))
    requires InitialTile(x + ox, y + oy) == White
    requires InitialTile(x + 2 * ox, y + 2 * oy) == Black ||
      (InitialTile(x + 2 * ox, y + 2 * oy) == White && InitialTile(x + 3 * ox, y + 3 * oy) == Black)
    ensures (x == 2 && y == 3 && ox == 1 && oy == 0) || (x == 3 && y == 2 && ox == 0 && oy == 1) ||
      (x == 4 && y == 5 && ox == 0 && oy == -1) || (x == 5 && y == 4 && ox == -1 && oy == 0)
  {
  }

  /** A black stone on the opening board that captures along o is one of four cases. */
  lemma OpeningRayOnly(x: int, y: int, o: Point)
    requires OnBoard(x, y) && InitialTile(x, y) == None && IsUnit(o)
    requires ClosesFrom(InitialGrid(), true, x, y, o, 1)
    ensures (x == 2 && y == 3 && o == Point(1, 0)) || (x == 3 && y == 2 && o == Point(0, 1)) ||
      (x == 4 && y == 5 && o == Point(0, -1)) || (x == 5 && y == 4 && o == Point(-1, 0))
  {
    var g := InitialGrid();
    WalkStep(g, true, x, y, o, 0, x, y);
    WalkStep(g, true, x, y, o, 1, x + o.x, y + o.y);
    OpeningRayShape(x, y, o.x, o.y);
  }

  /** On the opening board a black stone at (x, y) captures the white stone next to it along o. */
  lemma OpeningRayCaptures(x: int, y: int, o: Point)
    requires (x == 2 && y == 3 && o == Point(1, 0)) || (x == 3 && y == 2 && o == Point(0, 1)) ||
      (x == 4 && y == 5 && o == Point(0, -1)) || (x == 5 && y == 4 && o == Point(-1, 0))
    ensures IsUnit(o) && ClosesFrom(InitialGrid(), true, x, y, o, 1)
    ensures RunFrom(InitialGrid(), true, x, y, o, 1) == 1
  {
    OpeningRayCapturesOn(InitialGrid(), x, y, o);
  }

  /** The same captures on any board whose four centre cells hold the opening stones. */
  lemma OpeningRayCapturesOn(g: Grid, x: int, y: int, o: Point)
    requires IsMatrix(g) && g[3][3] == White && g[4][3] == Black && g[4][4] == White && g[3][4] == Black
    requires (x == 2 && y == 3 && o == Point(1, 0)) || (x == 3 && y == 2 && o == Point(0, 1)) ||
      (x == 4 && y == 5 && o == Point(0, -1)) || (x == 5 && y == 4 && o == Point(-1, 0))
    ensures IsUnit(o) && ClosesFrom(g, true, x, y, o, 1)
    ensures RunFrom(g, true, x, y, o, 1) == 1
  {
    ShortRun(g, true, x, y, o);
  }

  /** From the opening position Black's legal moves are exactly (2, 3), (3, 2), (4, 5) and (5, 4). */
  lemma OpeningBlackMoves(x: int, y: int)
    ensures CanMove(InitialGrid(), true, x, y) <==>
      (x == 2 && y == 3) || (x == 3 && y == 2) || (x == 4 && y == 5) || (x == 5 && y == 4)
  {
    var g := InitialGrid();
    CanMoveMeaning(g, true, x, y);
    if CanMove(g, true, x, y) {
      var d :| IsLegalLine(g, true, x, y, d);
      OpeningRayOnly(x, y, DirectionToPoint(d));
    } else if (x == 2 && y == 3) || (x == 3 && y == 2) || (x == 4 && y == 5) || (x == 5 && y == 4) {
      var d := if y == 3 then East else if y == 2 then South else if y == 5 then North else West;
      OpeningRayCaptures(x, y, DirectionToPoint(d));
      assert IsLegalLine(g, true, x, y, d);
    }
  }

  /** The opening board with a black stone put at (2, 3). */
  function OpeningAfterPlacing(): (g: Grid)
    ensures IsMatrix(g)
    ensures forall a, c | OnBoard(a, c) :: g[a][c] == if a == 2 && c == 3 then Black else InitialTile(a, c)
  {
    Place(InitialGrid(), 2, 3, Black)
  }

  /** After the black stone at (2, 3), only the eastward run captures, and it is the one white stone (3, 3). */
  lemma OpeningMoveCaptured(d: Direction, a: int, c: int)
    ensures Captured(OpeningAfterPlacing(), true, 2, 3, d, a, c) <==> d == East && a == 3 && c == 3
  {
    var g, h, o := OpeningAfterPlacing(), InitialGrid(), DirectionToPoint(d);
    PlacingKeepsRays(h, 2, 3, Black, o);
    if d == East {
      OpeningRayCaptures(2, 3, o);
      CapturedSingle(g, h, true, 2, 3, d, a, c);
    } else {
      OpeningOnlyEast(d);
      CapturedNothing(g, h, true, 2, 3, d, a, c);
    }
  }

  /** On the opening board a black stone at (2, 3) closes no run except the eastward one. */
  lemma OpeningOnlyEast(d: Direction)
    requires d != East
    ensures !IsLegalLine(InitialGrid(), true, 2, 3, d)
  {
    if IsLegalLine(InitialGrid(), true, 2, 3, d) {
      OpeningRayOnly(2, 3, DirectionToPoint(d));
    }
  }

  /**
   * From the opening position, a black stone at (2, 3) captures the white
   * stone at (3, 3) and nothing else.
   */
  lemma OpeningMoveFlips()
    ensures Flipped(OpeningAfterPlacing(), true, 2, 3) ==
      Place(OpeningAfterPlacing(), 3, 3, Black)
  {
    var g := OpeningAfterPlacing();
    var r := Place(g, 3, 3, Black);
    AllDirectionsComplete();
    forall a, c | OnBoard(a, c)
      ensures Flipped(g, true, 2, 3)[a][c] == r[a][c]
    {
      FlippedByAt(g, true, 2, 3, AllDirections, a, c);
      if a == 3 && c == 3 {
        OpeningMoveCaptured(East, a, c);
        assert East in AllDirections;
      } else {
        forall d ensures !Captured(g, true, 2, 3, d, a, c) {
          OpeningMoveCaptured(d, a, c);
        }
      }
    }
    MatrixExtensionality(Flipped(g, true, 2, 3), r);
  }

  /** Putting the black stone turns one empty cell black. */
  lemma PlacingChanges()
    ensures Recolours(InitialGrid(), OpeningAfterPlacing(), None, Black)
    ensures Changes(InitialGrid(), OpeningAfterPlacing()) == 1
  {
    ChangesSingle(InitialGrid(), OpeningAfterPlacing(), 2, 3);
  }

  /** Putting the black stone adds one black stone to the opening counts. */
  lemma PlacingCounts()
    ensures Count(OpeningAfterPlacing(), Black) == 3 && Count(OpeningAfterPlacing(), White) == 2
  {
    var g0, g1 := InitialGrid(), OpeningAfterPlacing();
    InitialCounts();
    PlacingChanges();
    RecolourCounts(g0, g1, None, Black);
    CountsSumToBoard(g1);
  }

  /** The first move changes exactly one cell besides the placed stone. */
  lemma OpeningMoveChanges()
    ensures Changes(OpeningAfterPlacing(), Flipped(OpeningAfterPlacing(), true, 2, 3)) == 1
  {
    var g1 := OpeningAfterPlacing();
    OpeningMoveFlips();
    ChangesSingle(g1, Flipped(g1, true, 2, 3), 3, 3);
  }

  /** After that first move the board holds four black stones and one white stone. */
  lemma OpeningMoveCounts()
    ensures Count(Flipped(OpeningAfterPlacing(), true, 2, 3), Black) == 4
    ensures Count(Flipped(OpeningAfterPlacing(), true, 2, 3), White) == 1
  {
    var g1 := OpeningAfterPlacing();
    PlacingCounts();
    OpeningMoveChanges();
    FlippedRecolours(g1, true, 2, 3);
    RecolourCounts(g1, Flipped(g1, true, 2, 3), White, Black);
  }

  /**
   * The first move of a game: a new game, a black stone put at (2, 3), its
   * captures, and the recount give the player 4 and the computer 1.
   */
  method OpeningMoveScores() returns (player: int, computer: int)
    ensures player == 4 && computer == 1
  {
    var game := new Game();
    game.SetTileAt(2, 3, Black);
    game.BlackFlipAt(2, 3);
    game.CalculateScore();
    OpeningMoveCounts();
    player, computer := game.playerScore, game.computerScore;
  }
}
