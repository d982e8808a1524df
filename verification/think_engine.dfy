/**
 * The computer player: a one-ply choice among the legal moves, guided by a
 * fixed positional score matrix, a "situation" bonus and difficulty noise.
 * The random generator is replaced by an explicit sequence of its draws.
 */
module ThinkModel {
  import opened Board
  import opened RuleEngine
  import opened MoveValue
  import opened GameModel

  // ---------------------------------------------------------------------
  // The positional score matrix
  // ---------------------------------------------------------------------

  /** The values written into the top-left quadrant, indexed [x][y]. */
  function QuadrantScore(x: int, y: int): (s: int)
    requires 0 <= x < 4 && 0 <= y < 4
    ensures 10 <= s <= 90
    ensures s == 90 <==> x == 0 && y == 0
  {
    [[90, 10, 80, 50],
     [10, 10, 70, 40],
     [80, 70, 60, 30],
     [50, 40, 30, 20]][x][y]
  }

  /** Folds a board coordinate onto the quadrant: 0 .. 3 stay, 4 .. 7 mirror to 3 .. 0. */
  function Fold(i: int): int {
    if i < 4 then i else 7 - i
  }

  /** The positional value of a cell: the quadrant mirrored left to right and top to bottom. */
  function BaseScore(x: int, y: int): (s: int)
    requires OnBoard(x, y)
    ensures 10 <= s <= 90
  {
    QuadrantScore(Fold(x), Fold(y))
  }

  /** The base matrix is mirror-symmetric about both middle lines, and symmetric under transpose. */
  lemma BaseScoreSymmetric(x: int, y: int)
    requires OnBoard(x, y)
    ensures BaseScore(x, y) == BaseScore(7 - x, y) == BaseScore(x, 7 - y)
    ensures BaseScore(x, y) == BaseScore(y, x)
  {
  }

  /** The four corners are worth 90, the most any cell is worth, and no other cell is. */
  lemma BaseScoreCorners(x: int, y: int)
    requires OnBoard(x, y)
    ensures BaseScore(0, 0) == BaseScore(7, 0) == BaseScore(0, 7) == BaseScore(7, 7) == 90
    ensures BaseScore(x, y) == 90 <==> (x == 0 || x == 7) && (y == 0 || y == 7)
  {
  }

  /**
   * Fills score with the positional values: the quadrant is written cell by
   * cell, copied to the right half, and then the top half to the bottom half.
   */
  method CreateBasicScoreMatrix(score: array2<int>)
    requires score.Length0 == Size && score.Length1 == Size
    modifies score
    ensures forall x, y | OnBoard(x, y) :: score[x, y] == BaseScore(x, y)
  {
    WriteQuadrantRow(score, 0, [90, 10, 80, 50]);
    WriteQuadrantRow(score, 1, [10, 10, 70, 40]);
    WriteQuadrantRow(score, 2, [80, 70, 60, 30]);
    WriteQuadrantRow(score, 3, [50, 40, 30, 20]);
    MirrorLeftRight(score);
    MirrorTopBottom(score);
  }

  /** The literal writes of one quadrant row: cells (0, c) .. (3, c) get the given values. */
  method WriteQuadrantRow(score: array2<int>, c: int, values: seq<int>)
    requires score.Length0 == Size && score.Length1 == Size
    requires 0 <= c < 4 && |values| == 4
    requires forall a | 0 <= a < 4 :: values[a] == QuadrantScore(a, c)
    modifies score
    ensures forall a | 0 <= a < 4 :: score[a, c] == QuadrantScore(a, c)
    ensures forall a, b | OnBoard(a, b) && !(0 <= a < 4 && b == c) :: score[a, b] == old(score[a, b])
  {
    score[0, c] := values[0];
    score[1, c] := values[1];
    score[2, c] := values[2];
    score[3, c] := values[3];
  }

  /** The first copy loop: the left quadrant is mirrored into the right one. */
  method MirrorLeftRight(score: array2<int>)
    requires score.Length0 == Size && score.Length1 == Size
    requires forall a, c | 0 <= a < 4 && 0 <= c < 4 :: score[a, c] == QuadrantScore(a, c)
    modifies score
    ensures forall a, c | 0 <= a < Size && 0 <= c < 4 :: score[a, c] == BaseScore(a, c)
    ensures forall a, c | 0 <= a < Size && 4 <= c < Size :: score[a, c] == old(score[a, c])
  {
    for y := 0 to 4
      invariant forall a, c | 0 <= a < 4 && 0 <= c < 4 :: score[a, c] == QuadrantScore(a, c)
      invariant forall a, c | 4 <= a < Size && 0 <= c < y :: score[a, c] == QuadrantScore(7 - a, c)
      invariant forall a, c | 0 <= a < Size && 4 <= c < Size :: score[a, c] == old(score[a, c])
    {
      for x := 0 to 4
        invariant forall a, c | 0 <= a < 4 && 0 <= c < 4 :: score[a, c] == QuadrantScore(a, c)
        invariant forall a, c | 4 <= a < Size && 0 <= c < y :: score[a, c] == QuadrantScore(7 - a, c)
        invariant forall a | 8 - x <= a < Size :: score[a, y] == QuadrantScore(7 - a, y)
        invariant forall a, c | 0 <= a < Size && 4 <= c < Size :: score[a, c] == old(score[a, c])
      {
        score[7 - x, y] := score[x, y];
      }
    }
  }

  /** The second copy loop: the top half is mirrored into the bottom half. */
  method MirrorTopBottom(score: array2<int>)
    requires score.Length0 == Size && score.Length1 == Size
    requires forall a, c | 0 <= a < Size && 0 <= c < 4 :: score[a, c] == BaseScore(a, c)
    modifies score
    ensures forall a, c | OnBoard(a, c) :: score[a, c] == BaseScore(a, c)
  {
    for y := 0 to 4
      invariant forall a, c | 0 <= a < Size && 0 <= c < 4 :: score[a, c] == BaseScore(a, c)
      invariant forall a, c | 0 <= a < Size && 8 - y <= c < Size :: score[a, c] == BaseScore(a, c)
    {
      for x := 0 to Size
        invariant forall a, c | 0 <= a < Size && 0 <= c < 4 :: score[a, c] == BaseScore(a, c)
        invariant forall a, c | 0 <= a < Size && 8 - y <= c < Size :: score[a, c] == BaseScore(a, c)
        invariant forall a, c | 0 <= a < x && c == 7 - y :: score[a, c] == BaseScore(a, c)
      {
        score[x, 7 - y] := score[x, y];
      }
    }
  }

  // ---------------------------------------------------------------------
  // Difficulty
  // ---------------------------------------------------------------------

  /** How far the noise may move a score at each difficulty. */
  function Variation(d: Difficulty): (v: int)
    ensures 0 < v <= 25
  {
    match d
    case Easy => 25
    case Medium => 15
    case Hard => 5
  }

  /** Draws of Random.Next(2v), one per cell, in the order the cells are visited. */
  predicate ValidNoise(d: Difficulty, noise: seq<int>) {
    |noise| == 64 && forall i | 0 <= i < |noise| :: 0 <= noise[i] < 2 * Variation(d)
  }

  /** The score a cell ends up with: its base value moved by its own draw. */
  function FinalScore(d: Difficulty, noise: seq<int>, x: int, y: int): int
    requires ValidNoise(d, noise) && OnBoard(x, y)
  {
    BaseScore(x, y) + noise[y * 8 + x] - Variation(d)
  }

  // ---------------------------------------------------------------------
  // The legal cells, row by row
  // ---------------------------------------------------------------------

  /** Which cells are legal moves for the given colour, as a matrix of flags. */
  function LegalMap(g: Grid, black: bool): (legal: Matrix<bool>)
    requires IsMatrix(g)
    ensures IsMatrix(legal)
    ensures forall x, y | OnBoard(x, y) :: legal[x][y] == CanMove(g, black, x, y)
  {
    seq(Size, x requires 0 <= x < Size => seq(Size, y requires 0 <= y < Size => CanMove(g, black, x, y)))
  }

  /** p comes before q in the scan: rows from the top, and from the left within a row. */
  predicate Before(p: Point, q: Point) {
    p.y < q.y || (p.y == q.y && p.x < q.x)
  }

  /** The flagged cells among the first n cells of row y, from the left. */
  function RowCells(legal: Matrix<bool>, y: int, n: nat): (cells: seq<Point>)
    requires IsMatrix(legal) && 0 <= y < Size && n <= Size
    ensures forall i | 0 <= i < |cells| :: cells[i].y == y && 0 <= cells[i].x < n && legal[cells[i].x][y]
  {
    if n == 0 then [] else RowCells(legal, y, n - 1) + (if legal[n - 1][y] then [Point(n - 1, y)] else [])
  }

  /** The flagged cells of the first m rows, in scan order. */
  function Scanned(legal: Matrix<bool>, m: nat): (cells: seq<Point>)
    requires IsMatrix(legal) && m <= Size
    ensures forall i | 0 <= i < |cells| ::
      0 <= cells[i].x < Size && 0 <= cells[i].y < m && legal[cells[i].x][cells[i].y]
  {
    if m == 0 then [] else Scanned(legal, m - 1) + RowCells(legal, m - 1, Size)
  }

  /** A row lists its flagged cells from left to right. */
  lemma {:induction false} RowCellsSorted(legal: Matrix<bool>, y: int, n: nat)
    requires IsMatrix(legal) && 0 <= y < Size && n <= Size
    ensures forall i, j | 0 <= i < j < |RowCells(legal, y, n)| ::
      Before(RowCells(legal, y, n)[i], RowCells(legal, y, n)[j])
  {
    if n > 0 {
      RowCellsSorted(legal, y, n - 1);
    }
  }

  /** The scan lists the flagged cells in strictly increasing scan order. */
  lemma {:induction false} ScannedSorted(legal: Matrix<bool>, m: nat)
    requires IsMatrix(legal) && m <= Size
    ensures forall i, j | 0 <= i < j < |Scanned(legal, m)| :: Before(Scanned(legal, m)[i], Scanned(legal, m)[j])
  {
    if m > 0 {
      ScannedSorted(legal, m - 1);
      RowCellsSorted(legal, m - 1, Size);
      var a, b := Scanned(legal, m - 1), RowCells(legal, m - 1, Size);
      assert Scanned(legal, m) == a + b;
      forall i, j | 0 <= i < j < |a + b|
        ensures Before((a + b)[i], (a + b)[j])
      {
        if j < |a| {
        } else if i >= |a| {
          assert (a + b)[i] == b[i - |a|] && (a + b)[j] == b[j - |a|];
        } else {
          assert (a + b)[i] == a[i] && (a + b)[j] == b[j - |a|];
        }
      }
    }
  }

  /** Every flagged cell among the first n of row y is listed. */
  lemma {:induction false} RowCellsComplete(legal: Matrix<bool>, y: int, n: nat, x: int)
    requires IsMatrix(legal) && 0 <= y < Size && n <= Size && 0 <= x < n && legal[x][y]
    ensures Point(x, y) in RowCells(legal, y, n)
  {
    if x < n - 1 {
      RowCellsComplete(legal, y, n - 1, x);
    }
  }

  /** Every flagged cell of the first m rows is listed. */
  lemma {:induction false} ScannedComplete(legal: Matrix<bool>, m: nat, x: int, y: int)
    requires IsMatrix(legal) && m <= Size && OnBoard(x, y) && y < m && legal[x][y]
    ensures Point(x, y) in Scanned(legal, m)
  {
    if y < m - 1 {
      ScannedComplete(legal, m - 1, x, y);
    } else {
      RowCellsComplete(legal, y, Size, x);
    }
  }

  /** The full scan is empty exactly when no cell is flagged. */
  lemma ScannedEmpty(legal: Matrix<bool>)
    requires IsMatrix(legal)
    ensures Scanned(legal, Size) == [] <==> forall x, y | OnBoard(x, y) :: !legal[x][y]
  {
    var cells := Scanned(legal, Size);
    if cells != [] {
      assert legal[cells[0].x][cells[0].y];
    }
    forall x, y | OnBoard(x, y) && legal[x][y]
      ensures cells != []
    {
      ScannedComplete(legal, Size, x, y);
    }
  }

  /** The position of a flagged cell in the full scan. */
  lemma ScannedIndex(legal: Matrix<bool>, x: int, y: int) returns (j: nat)
    requires IsMatrix(legal) && OnBoard(x, y) && legal[x][y]
    ensures j < |Scanned(legal, Size)| && Scanned(legal, Size)[j] == Point(x, y)
  {
    ScannedComplete(legal, Size, x, y);
    j :| 0 <= j < |Scanned(legal, Size)| && Scanned(legal, Size)[j] == Point(x, y);
  }

  /** moves pairs each listed cell with its entry of score, in the same order. */
  predicate Scores(moves: seq<Move>, cells: seq<Point>, score: array2<int>)
    reads score
    requires score.Length0 == Size && score.Length1 == Size
  {
    |moves| == |cells| &&
    forall i | 0 <= i < |cells| :: 0 <= cells[i].x < Size && 0 <= cells[i].y < Size &&
      moves[i] == Move(cells[i].x, cells[i].y, score[cells[i].x, cells[i].y])
  }

  /** Appending a cell and its scored move keeps the two lists in step. */
  lemma ScoresAppend(moves: seq<Move>, cells: seq<Point>, score: array2<int>, x: int, y: int)
    requires score.Length0 == Size && score.Length1 == Size && OnBoard(x, y)
    requires Scores(moves, cells, score)
    ensures Scores(moves + [Move(x, y, score[x, y])], cells + [Point(x, y)], score)
  {
  }

  /** The moves the engine weighs: each flagged cell with its final score. */
  function Candidates(legal: Matrix<bool>, d: Difficulty, noise: seq<int>): (moves: seq<Move>)
    requires IsMatrix(legal) && ValidNoise(d, noise)
  {
    var cells := Scanned(legal, Size);
    seq(|cells|, i requires 0 <= i < |cells| =>
      Move(cells[i].x, cells[i].y, FinalScore(d, noise, cells[i].x, cells[i].y)))
  }

  /** Scoring the flagged cells from a matrix that holds the final scores gives the candidates. */
  lemma ScoredCandidates(legal: Matrix<bool>, d: Difficulty, noise: seq<int>, moves: seq<Move>, score: array2<int>)
    requires IsMatrix(legal) && ValidNoise(d, noise) && score.Length0 == Size && score.Length1 == Size
    requires forall x, y | OnBoard(x, y) :: score[x, y] == FinalScore(d, noise, x, y)
    requires Scores(moves, Scanned(legal, Size), score)
    ensures moves == Candidates(legal, d, noise)
  {
  }

  /**
   * The position of the move OrderByDescending(score).FirstOrDefault() picks:
   * a highest score, and the first of them, since that sort is stable.
   */
  function BestIndex(moves: seq<Move>): (i: nat)
    requires moves != []
    ensures i < |moves|
    ensures forall j | 0 <= j < |moves| :: moves[j].score <= moves[i].score
    ensures forall j | 0 <= j < i :: moves[j].score < moves[i].score
  {
    if |moves| == 1 then 0
    else
      var k := BestIndex(moves[1..]) + 1;
      assert forall j | 1 <= j < |moves| :: moves[j] == moves[1..][j - 1];
      if moves[0].score >= moves[k].score then 0 else k
  }

  /** The first move with the highest score, or nothing for an empty list. */
  function FirstBest(moves: seq<Move>): (r: Option<Move>)
    ensures r.Nothing? <==> moves == []
    ensures r.Some? ==> exists i | 0 <= i < |moves| :: (moves[i] == r.value &&
      (forall j | 0 <= j < |moves| :: moves[j].score <= r.value.score) &&
      (forall j | 0 <= j < i :: moves[j].score < r.value.score))
  {
    if moves == [] then Nothing else Some(moves[BestIndex(moves)])
  }

  /**
   * What the choice means when some cell is flagged: a flagged cell whose
   * final score no flagged cell beats, and every flagged cell before it in
   * row-major order scores strictly less.
   */
  lemma BestCandidate(legal: Matrix<bool>, d: Difficulty, noise: seq<int>)
    requires IsMatrix(legal) && ValidNoise(d, noise) && Candidates(legal, d, noise) != []
    ensures
      var m := Candidates(legal, d, noise)[BestIndex(Candidates(legal, d, noise))];
      OnBoard(m.x, m.y) && legal[m.x][m.y] && m.score == FinalScore(d, noise, m.x, m.y) &&
      (forall x, y | OnBoard(x, y) && legal[x][y] :: FinalScore(d, noise, x, y) <= m.score) &&
      (forall x, y | OnBoard(x, y) && legal[x][y] && Before(Point(x, y), Point(m.x, m.y)) ::
        FinalScore(d, noise, x, y) < m.score)
  {
    var cells := Scanned(legal, Size);
    var moves := Candidates(legal, d, noise);
    var i := BestIndex(moves);
    var m := moves[i];
    ScannedSorted(legal, Size);
    forall x, y | OnBoard(x, y) && legal[x][y]
      ensures FinalScore(d, noise, x, y) <= m.score
      ensures Before(Point(x, y), Point(m.x, m.y)) ==> FinalScore(d, noise, x, y) < m.score
    {
      var j := ScannedIndex(legal, x, y);
      assert moves[j].score == FinalScore(d, noise, x, y);
      if Before(Point(x, y), Point(m.x, m.y)) {
        assert cells[i] == Point(m.x, m.y);
        assert j < i;
      }
    }
  }

  // ---------------------------------------------------------------------
  // The engine
  // ---------------------------------------------------------------------

  /** The computer player of one game. */
  class ThinkEngine {
    const game: Game

    constructor(game: Game)
      ensures this.game == game
    {
      this.game := game;
    }

    /**
     * The cell the computer plays for the given colour, or nothing when no
     * cell is legal. noise holds the generator's 64 draws for this call.
     */
    method GetBestMove(black: bool, noise: seq<int>) returns (best: Option<Point>)
      requires game.Valid() && ValidNoise(game.difficulty, noise)
      ensures best.Nothing? <==> forall x, y | OnBoard(x, y) :: !CanMove(game.Cells(), black, x, y)
      ensures best.Some? ==>
        OnBoard(best.value.x, best.value.y) && CanMove(game.Cells(), black, best.value.x, best.value.y)
      ensures best.Some? ==> forall x, y | OnBoard(x, y) && CanMove(game.Cells(), black, x, y) ::
        FinalScore(game.difficulty, noise, x, y) <=
        FinalScore(game.difficulty, noise, best.value.x, best.value.y)
      ensures best.Some? ==> forall x, y | OnBoard(x, y) && CanMove(game.Cells(), black, x, y) &&
        Before(Point(x, y), best.value) ::
        FinalScore(game.difficulty, noise, x, y) <
        FinalScore(game.difficulty, noise, best.value.x, best.value.y)
    {
      var self := if black then Black else White;
      var score := new int[Size, Size];
      CreateBasicScoreMatrix(score);
      AddSituationScore(self, score);
      ApplyDifficulty(score, noise);
      var moves := GetAllPossibleMoves(black, score);
      ghost var legal := LegalMap(game.Cells(), black);
      ScoredCandidates(legal, game.difficulty, noise, moves, score);
      ScannedEmpty(legal);
      var move := FirstBest(moves);
      if move.Nothing? {
        return Nothing;
      }
      BestCandidate(legal, game.difficulty, noise);
      return Some(Point(move.value.x, move.value.y));
    }

    /** The legal cells for the given colour, in row-major order, each with its score. */
    method GetAllPossibleMoves(black: bool, score: array2<int>) returns (moves: seq<Move>)
      requires game.Valid() && score.Length0 == Size && score.Length1 == Size
      ensures Scores(moves, Scanned(LegalMap(game.Cells(), black), Size), score)
    {
      assert Holds(game.tiles, game.Cells());
      moves := ScanMoves(game.tiles, game.Cells(), black, score);
    }

    /**
     * The eight edge bonuses, one for each cell next to a corner along an
     * edge. As written none of them can fire for a real colour.
     */
    method AddSituationScore(self: Tile, score: array2<int>)
      requires game.Valid() && score.Length0 == Size && score.Length1 == Size
      modifies score
      ensures forall a, c | OnBoard(a, c) ::
        score[a, c] == old(score[a, c]) + SituationBonus(game.tiles[a, c], self, a, c)
      ensures self != None ==> forall a, c | OnBoard(a, c) :: score[a, c] == old(score[a, c])
    {
      AddHorizontalSituationScore(self, score, 1, 7, 0);
      AddHorizontalSituationScore(self, score, 1, 7, 7);
      AddHorizontalSituationScoreReversed(self, score, 6, 0, 0);
      AddHorizontalSituationScoreReversed(self, score, 6, 0, 7);
      AddVerticalSituationScore(self, score, 1, 7, 0);
      AddVerticalSituationScore(self, score, 1, 7, 7);
      AddVerticalSituationScoreReversed(self, score, 6, 0, 0);
      AddVerticalSituationScoreReversed(self, score, 6, 0, 7);
    }

    /**
     * Rightward edge check from (xstart, ystart). The loop tests the fixed
     * cell (xstart, ystart), which is free, so the count reaches 7 only when
     * self is None and the loop runs at least 7 times.
     */
    method AddHorizontalSituationScore(self: Tile, score: array2<int>, xstart: int, xend: int, ystart: int)
      requires game.Valid() && score.Length0 == Size && score.Length1 == Size && OnBoard(xstart, ystart)
      modifies score
      ensures forall a, c | OnBoard(a, c) :: (score[a, c] == old(score[a, c]) +
        (if a == xstart && c == ystart && game.tiles[a, c] == None && self == None && xend - xstart + 1 >= 7 then 90 else 0))
    {
      if !game.IsFree(xstart, ystart) {
        return;
      }
      var q := 0;
      var x := xstart;
      while x <= xend
        invariant xstart <= x && (x <= xend + 1 || x == xstart)
        invariant q == if game.GetTileAt(xstart, ystart) == self then x - xstart else 0
      {
        if game.GetTileAt(xstart, ystart) == self {
          q := q + 1;
        }
        x := x + 1;
      }
      if q >= 7 {
        score[xstart, ystart] := score[xstart, ystart] + 90;
      }
    }

    /** Leftward edge check from (xstart, ystart); the same fixed-cell test. */
    method AddHorizontalSituationScoreReversed(self: Tile, score: array2<int>, xstart: int, xend: int, ystart: int)
      requires game.Valid() && score.Length0 == Size && score.Length1 == Size && OnBoard(xstart, ystart)
      modifies score
      ensures forall a, c | OnBoard(a, c) :: (score[a, c] == old(score[a, c]) +
        (if a == xstart && c == ystart && game.tiles[a, c] == None && self == None && xstart - xend + 1 >= 7 then 90 else 0))
    {
      if !game.IsFree(xstart, ystart) {
        return;
      }
      var q := 0;
      var x := xstart;
      while x >= xend
        invariant x <= xstart && (x >= xend - 1 || x == xstart)
        invariant q == if game.GetTileAt(xstart, ystart) == self then xstart - x else 0
      {
        if game.GetTileAt(xstart, ystart) == self {
          q := q + 1;
        }
        x := x - 1;
      }
      if q >= 7 {
        score[xstart, ystart] := score[xstart, ystart] + 90;
      }
    }

    /** Downward edge check from (xstart, ystart); the same fixed-cell test. */
    method AddVerticalSituationScore(self: Tile, score: array2<int>, ystart: int, yend: int, xstart: int)
      requires game.Valid() && score.Length0 == Size && score.Length1 == Size && OnBoard(xstart, ystart)
      modifies score
      ensures forall a, c | OnBoard(a, c) :: (score[a, c] == old(score[a, c]) +
        (if a == xstart && c == ystart && game.tiles[a, c] == None && self == None && yend - ystart + 1 >= 7 then 90 else 0))
    {
      if !game.IsFree(xstart, ystart) {
        return;
      }
      var q := 0;
      var y := ystart;
      while y <= yend
        invariant ystart <= y && (y <= yend + 1 || y == ystart)
        invariant q == if game.GetTileAt(xstart, ystart) == self then y - ystart else 0
      {
        if game.GetTileAt(xstart, ystart) == self {
          q := q + 1;
        }
        y := y + 1;
      }
      if q >= 7 {
        score[xstart, ystart] := score[xstart, ystart] + 90;
      }
    }

    /** Upward edge check from (xstart, ystart); the same fixed-cell test. */
    method AddVerticalSituationScoreReversed(self: Tile, score: array2<int>, ystart: int, yend: int, xstart: int)
      requires game.Valid() && score.Length0 == Size && score.Length1 == Size && OnBoard(xstart, ystart)
      modifies score
      ensures forall a, c | OnBoard(a, c) :: (score[a, c] == old(score[a, c]) +
        (if a == xstart && c == ystart && game.tiles[a, c] == None && self == None && ystart - yend + 1 >= 7 then 90 else 0))
    {
      if !game.IsFree(xstart, ystart) {
        return;
      }
      var q := 0;
      var y := ystart;
      while y >= yend
        invariant y <= ystart && (y >= yend - 1 || y == ystart)
        invariant q == if game.GetTileAt(xstart, ystart) == self then ystart - y else 0
      {
        if game.GetTileAt(xstart, ystart) == self {
          q := q + 1;
        }
        y := y - 1;
      }
      if q >= 7 {
        score[xstart, ystart] := score[xstart, ystart] + 90;
      }
    }

    /** Moves every score by its own draw minus the difficulty's variation. */
    method ApplyDifficulty(score: array2<int>, noise: seq<int>)
      requires game.Valid() && score.Length0 == Size && score.Length1 == Size
      requires ValidNoise(game.difficulty, noise)
      modifies score
      ensures forall x, y | OnBoard(x, y) ::
        score[x, y] == old(score[x, y]) + noise[y * 8 + x] - Variation(game.difficulty)
      ensures forall x, y | OnBoard(x, y) ::
        old(score[x, y]) - Variation(game.difficulty) <= score[x, y] < old(score[x, y]) + Variation(game.difficulty)
    {
      var variation := Variation(game.difficulty);
      for y := 0 to Size
        invariant forall a, c | 0 <= a < Size && 0 <= c < y ::
          score[a, c] == old(score[a, c]) + noise[c * 8 + a] - variation
        invariant forall a, c | 0 <= a < Size && y <= c < Size :: score[a, c] == old(score[a, c])
      {
        for x := 0 to Size
          invariant forall a, c | 0 <= a < Size && 0 <= c < y ::
            score[a, c] == old(score[a, c]) + noise[c * 8 + a] - variation
          invariant forall a | 0 <= a < x :: score[a, y] == old(score[a, y]) + noise[y * 8 + a] - variation
          invariant forall a, c | OnBoard(a, c) && (c > y || (c == y && a >= x)) :: score[a, c] == old(score[a, c])
        {
          score[x, y] := score[x, y] + (noise[y * 8 + x] - variation);
        }
      }
    }
  }

  /**
   * The board scan behind ThinkEngine.GetAllPossibleMoves: rows from the top,
   * cells from the left, keeping each legal cell with its score.
   */
  method ScanMoves(tiles: array2<Tile>, ghost g: Grid, black: bool, score: array2<int>) returns (moves: seq<Move>)
    requires Holds(tiles, g) && score.Length0 == Size && score.Length1 == Size
    ensures Scores(moves, Scanned(LegalMap(g, black), Size), score)
  {
    ghost var legalMap := LegalMap(g, black);
    moves := [];
    ghost var cells: seq<Point> := [];
    for y := 0 to Size
      invariant cells == Scanned(legalMap, y)
      invariant Scores(moves, cells, score)
    {
      for x := 0 to Size
        invariant cells == Scanned(legalMap, y) + RowCells(legalMap, y, x)
        invariant Scores(moves, cells, score)
      {
        var legal := CanMoveAt(tiles, g, black, x, y);
        assert legal == legalMap[x][y];
        if legal {
          ScoresAppend(moves, cells, score, x, y);
          cells := cells + [Point(x, y)];
          moves := moves + [Move(x, y, score[x, y])];
        }
      }
    }
  }

  /** The cells the eight edge checks score: each is next to a corner along an edge. */
  predicate IsSituationCell(a: int, c: int) {
    ((c == 0 || c == 7) && (a == 1 || a == 6)) || ((a == 0 || a == 7) && (c == 1 || c == 6))
  }

  /** What the edge checks add to a cell as written: 90 for a free edge cell, and only when self is None. */
  function SituationBonus(t: Tile, self: Tile, a: int, c: int): int {
    if IsSituationCell(a, c) && t == None && self == None then 90 else 0
  }
}
