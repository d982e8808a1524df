# Othello rules, computer player and board hit-testing in Dafny

This project models the core of a desktop Othello (Reversi) game. The game
pits a human playing Black against the computer playing White on an 8×8
board. The model covers these parts:

- **Board** (`board.dfy`). The three tile states and the 8×8 grid as a value
  (`Grid`, indexed `g[x][y]` like the game's `_tiles[x, y]`). It also holds
  per-colour counting and the facts about recolouring that the scores rely on.
- **DirectionHelper** (`direction_helper.dfy`). The eight compass directions
  and their unit offsets.
- **MoveValue** (`move_value.dfy`). The immutable `(x, y, score)` move record.
- **RuleEngine** (`rule_engine.dfy`). Move legality (`CanMove`, the per-direction
  `MoveIsLegal` walk) and capturing (`FlipAt` over all eight directions).
  Each appears twice: as pure functions on a `Grid`, which state what
  Othello's rules mean, and as methods on the tile array that do what the
  code does, proved equal to those functions. Further lemmas prove:
  - a flip recolours exactly the enemy runs closed by a friendly stone;
  - it never touches anything else;
  - the order of directions does not matter;
  - the colour counts move by exactly the number of flipped stones.
- **GameModel** (`game_model.dfy`). The `Game` class: the tile array and the
  status, score, pass-count and difficulty fields. It covers `Reset`, tile
  access, score counting, the "can this colour move" scans, flipping and the
  game-over test. It also proves facts about the opening position, including
  its four legal black moves and the result of the first move.
- **ThinkModel** (`think_engine.dfy`). The computer player `ThinkEngine`:
  - it builds the mirrored positional score matrix;
  - it adds the "situation" bonus;
  - it perturbs each cell by a difficulty-dependent amount;
  - it lists the legal moves in row-major order;
  - it picks the first move of highest score.

  The random draws come in as a sequence `noise` of 64 integers, in the
  order the cells are visited.
- **Renderer** (`renderer.dfy`). The constructor's centring of the board and
  `GetBoardPosition`, which maps a mouse position in pixels to a board cell.
  C#'s integer division truncates toward zero, so it is modelled by `CsDiv`.

The tile array stays an `array2<Tile>`, and the game's methods update it in
place. The ghost function `Game.Cells()` reads the array as a `Grid` value,
and the method contracts are stated in terms of that value. The rule
engine's methods take the tile array itself rather than the `Game` object.
This keeps the module graph acyclic: `Game` uses the rule engine, and the
rule engine does not depend on `Game`.

## Model

| member | source | states |
|---|---|---|
| Board.CountsSumToBoard | Othello/Game.cs:43-64 | The Black, White and empty counts add up to 64, so the two scores sum to at most 64. |
| Board.CountZero | Othello/Game.cs:103-130 | A colour's count is zero exactly when no cell holds that colour. |
| Board.RecolourCounts | Othello/RuleEngine.cs:62-63 | When a board only changes cells from one colour to another, the new colour's count rises and the old colour's count falls by the number of changed cells. |
| DirectionHelper.DirectionToPoint | Othello/DirectionHelper.cs:8-20 | Every direction maps to a unit step: both components in {-1, 0, 1}, never (0, 0). |
| DirectionHelper.AllDirectionsComplete | Othello/DirectionHelper.cs:8-20 | The enumeration the rule engine walks lists all eight directions, each once. |
| DirectionHelper.DirectionToPointInjective | Othello/DirectionHelper.cs:11-18 | Different directions have different offsets. |
| DirectionHelper.DirectionToPointSurjective | Othello/DirectionHelper.cs:11-18 | Every unit offset in {-1, 0, 1}² other than (0, 0) is some direction's offset. |
| DirectionHelper.OppositeNegates | Othello/DirectionHelper.cs:11-18 | Opposite compass directions have negated offsets. |
| MoveValue.MoveAccessors | Othello/Move.cs:3-15 | X, Y and Score return the constructor's arguments, and a move is determined by them. |
| RuleEngine.CellQueriesMeaning | Othello/RuleEngine.cs:66-118 | IsSet holds exactly on a cell holding the mover's or the opponent's colour, never both; the two colours swap with the mover; IsBusy holds exactly off the board or on a set cell. |
| RuleEngine.HasNeighboursMeaning | Othello/RuleEngine.cs:72-84 | HasNeighbours holds exactly when one of the up to eight on-board cells around (x, y) holds a stone. |
| RuleEngine.RayLeavesBoard | Othello/RuleEngine.cs:69-70 | The OnBoard bounds end every walk: eight steps in any direction from a board cell leave the board. |
| RuleEngine.RayClosedForm | Othello/RuleEngine.cs:120-124 | k applications of ApplyMovement from (x, y) land at (x + k·dx, y + k·dy). |
| RuleEngine.RaysDisjoint | Othello/RuleEngine.cs:28-32 | A cell lies on the ray of at most one direction from (x, y). |
| RuleEngine.ClosesFromRun | Othello/RuleEngine.cs:98-107 | The walk succeeds exactly when it crosses a non-empty run of enemy stones and then meets a friendly stone. |
| RuleEngine.RunMeaning | Othello/RuleEngine.cs:98-104 | The run counted in a direction is all enemy stones, and the cell after it is not an enemy stone. |
| RuleEngine.CanMove | Othello/RuleEngine.cs:17-20 | A move is legal only on an empty cell of the board. |
| RuleEngine.IsLegalLineMeaning | Othello/RuleEngine.cs:86-108 | A direction is legal exactly when, for some k ≥ 1, cells 1..k along it are enemy stones and cell k+1 is friendly. |
| RuleEngine.LegalLineHasNeighbour | Othello/RuleEngine.cs:72-96 | A legal direction's first cell is occupied, so the HasNeighbours pre-filter never rejects a legal move. |
| RuleEngine.CanMoveMeaning | Othello/RuleEngine.cs:17-26 | CanMove holds exactly on an empty on-board cell that has some legal direction. |
| RuleEngine.WalkRun | Othello/RuleEngine.cs:98-107 | The do-while walk after the first enemy stone returns whether the run is closed by a friendly stone. |
| RuleEngine.MoveIsLegal | Othello/RuleEngine.cs:86-108 | The per-direction check returns exactly the legality of that direction. |
| RuleEngine.CanMoveAt | Othello/RuleEngine.cs:17-26 | The busy test, the neighbour pre-filter and the direction search together return exactly CanMove. |
| RuleEngine.CollectRun | Othello/RuleEngine.cs:36-60 | The walk reports a closed run exactly when the direction is legal. The collected changes are the successive ray cells, and there are as many as the run's length when the run is closed. |
| RuleEngine.NoCaptureLeavesRay | Othello/RuleEngine.cs:45-52 | A run that ends at the edge, at an empty cell, or at a friendly stone next to (x, y) changes nothing. |
| RuleEngine.RunCells | Othello/RuleEngine.cs:57-63 | A cell is in the collected list exactly when it is one of the first n steps along the ray. |
| RuleEngine.Paint | Othello/RuleEngine.cs:62-63 | Exactly the listed cells take the mover's colour; every other cell is unchanged. |
| RuleEngine.FlipRun | Othello/RuleEngine.cs:34-64 | One direction's flip leaves the board as the pure one-ray flip of the old board. |
| RuleEngine.FlipAtInDirection | Othello/RuleEngine.cs:34-64 | The private FlipAt leaves the board as the one-direction flip of the old board. |
| RuleEngine.FlipAt | Othello/RuleEngine.cs:28-32 | Flipping in all eight directions, one after another, leaves the board as the joint flip of the old board. |
| RuleEngine.CapturedOnRay | Othello/RuleEngine.cs:41-58 | A captured cell lies on that direction's ray, within its enemy run, and holds an enemy stone. |
| RuleEngine.CapturedMeaning | Othello/RuleEngine.cs:41-63 | A cell is captured in a direction exactly when the direction is legal and the cell is one of the run's cells. |
| RuleEngine.FlippedFrame | Othello/RuleEngine.cs:28-64 | Every cell either keeps its tile or goes from enemy to friendly. A changed cell is never (x, y) and lies within the enemy run of a legal direction. |
| RuleEngine.FlippedRecolours | Othello/RuleEngine.cs:62-63 | A flip only recolours enemy stones to the mover's colour. |
| RuleEngine.LegalLineFlips | Othello/RuleEngine.cs:17-32 | In every legal direction, the first cell is flipped. |
| RuleEngine.FlippedCounts | Othello/RuleEngine.cs:28-64 | The mover's count rises, and the opponent's count falls, by the number of changed cells. After a legal move that number is at least one. |
| Board.Place | Othello/Game.cs:40-41 | The board after SetTileAt: (x, y) holds the new tile and every other cell keeps its own. |
| RuleEngine.PlacingKeepsRays | Othello/MainWindow.cs:146-154 | The stone put down before the flip is at the start of every ray, so every ray from it holds what it held before. |
| RuleEngine.PlacedCaptures | Othello/MainWindow.cs:146-154 | Placing the stone first does not change which cells a direction captures. |
| RuleEngine.FlipAfterPlacing | Othello/MainWindow.cs:146-154 | Flipping after SetTileAt gives the same board as flipping the old board and then placing the stone. |
| RuleEngine.PlacedMoveFlips | Othello/MainWindow.cs:183-187 | A legal move still turns at least one stone when, as the program does, the stone is placed before the flip. |
| RuleEngine.FlipLinesJoint | Othello/RuleEngine.cs:28-32 | Flipping distinct directions one after another equals flipping them all from the original board. A later direction never sees an earlier direction's changes. |
| RuleEngine.FlipOrderIrrelevant | Othello/RuleEngine.cs:28-32 | Any order of the same directions gives the same board. |
| GameModel.InitialGrid | Othello/Game.cs:21-28 | The opening board: White on (3,3) and (4,4), Black on (3,4) and (4,3), every other cell empty. |
| GameModel.Game.constructor | Othello/Game.cs:5-15 | A new game holds a fresh 8×8 board in the opening position, two stones each, no passes, not started. |
| GameModel.Game.Reset | Othello/Game.cs:17-32 | The board returns to the opening position. Both scores become 2, the pass count 0 and the status NotStarted. The difficulty is kept. |
| GameModel.Game.IsFree | Othello/Game.cs:34-35 | A cell is free exactly when it holds no stone. |
| GameModel.Game.GetTileAt | Othello/Game.cs:37-38 | Returns the cell's current tile. |
| GameModel.Game.SetTileAt | Othello/Game.cs:40-41 | Afterwards the board is `Place` of the old board: the cell holds the given tile, and every other cell is unchanged. |
| GameModel.Game.CalculateScore | Othello/Game.cs:43-64 | The player's score becomes the Black count and the computer's the White count, together at most 64. The board and other fields are unchanged. |
| GameModel.ScanForMove | Othello/Game.cs:66-78 | The row-major scan returns true exactly when some cell is a legal move for the colour. |
| GameModel.Game.ColourCanMove | Othello/Game.cs:66-95 | The scan shared by both colours; it is true exactly when the colour has a legal move. |
| GameModel.Game.BlackCanMove | Othello/Game.cs:66-78 | True exactly when Black has a legal move somewhere; the board is not modified. |
| GameModel.Game.BlackCanMoveAt | Othello/Game.cs:80-81 | True exactly when (x, y) is an empty board cell with a legal direction for Black. |
| GameModel.Game.WhiteCanMove | Othello/Game.cs:83-95 | True exactly when White has a legal move somewhere; the board is not modified. |
| GameModel.Game.BlackFlipAt | Othello/Game.cs:97-98 | The board becomes Black's flip of the old board at (x, y). |
| GameModel.Game.WhiteFlipAt | Othello/Game.cs:100-101 | The board becomes White's flip of the old board at (x, y). |
| GameModel.Game.CheckGameOverState | Othello/Game.cs:103-130 | True exactly when more than two passes happened, or the board has no Black stone, no White stone or no empty cell. Nothing is modified. |
| GameModel.InitialCounts | Othello/Game.cs:25-30 | The opening board has 2 Black, 2 White and 60 empty cells, matching the scores Reset sets. |
| GameModel.OpeningBlackMoves | Othello/Game.cs:25-28 | In the opening position, Black's legal cells are exactly (2,3), (3,2), (4,5) and (5,4). |
| GameModel.OpeningMoveCaptured | Othello/Game.cs:25-28 | With Black placed at (2,3) on the opening board, the only captured cell is (3,3), eastwards. |
| GameModel.OpeningMoveFlips | Othello/Game.cs:97-98 | Black's flip at (2,3) turns (3,3) black and changes nothing else. |
| GameModel.OpeningMoveCounts | Othello/Game.cs:43-64 | After that move the board has 4 Black and 1 White stones. |
| GameModel.OpeningMoveScores | Othello/Game.cs:40-98 | A new game, SetTileAt(2, 3, Black), BlackFlipAt(2, 3) and CalculateScore give scores of 4 and 1. |
| ThinkModel.BaseScoreSymmetric | Othello/ThinkEngine.cs:95-101 | The score matrix is mirror-symmetric left to right and top to bottom, and symmetric under transpose. |
| ThinkModel.QuadrantScore | Othello/ThinkEngine.cs:78-93 | Every literal of the top-left quadrant lies in [10, 90], and 90 is written only at the corner (0, 0). |
| ThinkModel.BaseScore | Othello/ThinkEngine.cs:78-101 | Every positional value on the board lies in [10, 90]. |
| ThinkModel.BaseScoreCorners | Othello/ThinkEngine.cs:78-101 | A cell is worth 90 exactly when it is one of the four corners. |
| ThinkModel.CreateBasicScoreMatrix | Othello/ThinkEngine.cs:76-102 | After the 16 writes and the two mirror loops, every cell holds its positional value: the quadrant, folded in both directions. |
| ThinkModel.WriteQuadrantRow | Othello/ThinkEngine.cs:78-93 | Four of the literal writes: row c of the top-left quadrant takes its positional values, and every other cell of the matrix keeps its value. |
| ThinkModel.MirrorLeftRight | Othello/ThinkEngine.cs:95-97 | After the first copy loop, the top four rows hold their positional values across the full width, and the bottom four rows are unchanged. |
| ThinkModel.MirrorTopBottom | Othello/ThinkEngine.cs:99-101 | After the second copy loop, every cell holds its positional value. |
| ThinkModel.ScannedSorted | Othello/ThinkEngine.cs:64-70 | The listed cells are in strict row-major order: y outer, x inner. |
| ThinkModel.ScannedComplete | Othello/ThinkEngine.cs:64-70 | Every legal cell is listed. |
| ThinkModel.ScannedEmpty | Othello/ThinkEngine.cs:47-54 | The list is empty exactly when no cell is legal. |
| ThinkModel.ScoredCandidates | Othello/ThinkEngine.cs:59-74 | Once the matrix holds the final scores, the move list is the legal cells in scan order, each with its final score. |
| ThinkModel.FirstBest | Othello/ThinkEngine.cs:49-54 | Nothing exactly for an empty list. Otherwise a move of the list that no move outscores, with every earlier move scoring strictly less: the head of the stable descending sort. |
| ThinkModel.BestIndex | Othello/ThinkEngine.cs:49-51 | The chosen index has a score no other move beats, and every earlier move scores strictly less. This is the first maximum, as a stable descending sort followed by taking the head gives. |
| ThinkModel.BestCandidate | Othello/ThinkEngine.cs:47-56 | The chosen move is a legal cell carrying its final score. No legal cell scores more, and every legal cell before it in row-major order scores less. |
| ThinkModel.ThinkEngine.constructor | Othello/ThinkEngine.cs:18-21 | The engine reads the given game. |
| ThinkModel.ThinkEngine.GetBestMove | Othello/ThinkEngine.cs:23-57 | Returns nothing exactly when no cell is legal for the colour. Otherwise it returns a legal cell whose final score no legal cell beats, and every legal cell before it in row-major order scores strictly less. It declares no modifies clause, so the board is not modified. |
| ThinkModel.ThinkEngine.GetAllPossibleMoves | Othello/ThinkEngine.cs:59-74 | Returns exactly the legal cells in row-major order, each paired with its score[x, y]. |
| ThinkModel.ScanMoves | Othello/ThinkEngine.cs:64-71 | The nested loops that list the legal cells with their scores, in scan order. |
| ThinkModel.ThinkEngine.AddSituationScore | Othello/ThinkEngine.cs:104-114 | Each cell gains the situation bonus as written. For a real colour (Black or White), the matrix is left unchanged. |
| ThinkModel.ThinkEngine.AddHorizontalSituationScore | Othello/ThinkEngine.cs:116-129 | Only (xstart, ystart) can change, by +90. That happens only when the cell is free and `self` is None, because the loop compares that same free cell to `self` on every pass. |
| ThinkModel.ThinkEngine.AddHorizontalSituationScoreReversed | Othello/ThinkEngine.cs:131-144 | The same, counting down from xstart to xend. |
| ThinkModel.ThinkEngine.AddVerticalSituationScore | Othello/ThinkEngine.cs:146-159 | The same, counting y from ystart to yend. |
| ThinkModel.ThinkEngine.AddVerticalSituationScoreReversed | Othello/ThinkEngine.cs:161-174 | The same, counting y down from ystart to yend. |
| ThinkModel.Variation | Othello/ThinkEngine.cs:178-184 | The variation of every difficulty is positive and at most 25. |
| ThinkModel.ThinkEngine.ApplyDifficulty | Othello/ThinkEngine.cs:176-189 | Each cell moves by its own draw minus the variation (25 Easy, 15 Medium, 5 Hard), i.e. by a delta in [-v, v-1]. |
| Renderer.CsDiv | Othello/Renderer.cs:24-27 | C#'s `/` on int truncates toward zero: for b > 0 the quotient is non-negative and brackets a non-negative dividend from below (b·q ≤ a < b·q + b), and is non-positive and brackets a negative dividend from above (b·q - b < a ≤ b·q). |
| Renderer.CsDivNotEuclidean | Othello/Renderer.cs:15-16 | On a negative dividend the two divisions differ: halving -1 gives 0 in C# but -1 in Euclidean division. |
| Renderer.NewRenderer | Othello/Renderer.cs:10-17 | BoardX = w/2 - 152 and BoardY = h/2 - 152. For a non-negative container, the 304-pixel board is centred to within one pixel. |
| Renderer.GetBoardPosition | Othello/Renderer.cs:19-33 | A cell is returned exactly when BoardX ≤ x < BoardX + 304 and BoardY ≤ y < BoardY + 304. The cell has both coordinates in [0, 7], and its 38-pixel square contains the pixel. |
| Renderer.TilePixelsMapToCell | Othello/Renderer.cs:24-32 | Every pixel of cell (a, c)'s square maps back to (a, c). |
| Renderer.FarEdgeRejected | Othello/Renderer.cs:21-30 | A pixel on the right or bottom edge (BoardX + 304) passes the bounds test, lands on index 8 and gives null. |

## Left out

- Othello/MainWindow.cs is not part of this model. It is WinForms event handling, dialogs and turn sequencing around UI calls. `GameStatus` and `PassCount` are plain fields of `Game` that any caller may set.
- `Renderer.Draw` (Othello/Renderer.cs:35-74) is GDI+ drawing with no checkable logic.
- `RuleEngine.GetBestMove` (Othello/RuleEngine.cs:126-128) only forwards to `ThinkEngine.GetBestMove`. Modelling the forwarding would make the rule engine depend on the computer player, and the computer player on the rule engine. Callers use `ThinkModel.ThinkEngine.GetBestMove` directly.
- ThinkModel.ThinkEngine.GetBestMove: the static `System.Random` is replaced by the `noise` parameter. It holds 64 draws of `Random.Next(2v)` in the order `ApplyDifficulty` visits the cells (y outer, x inner). Which draws occur is not modelled.
- The `#if DEBUG` dump of the score matrix (Othello/ThinkEngine.cs:34-45) is debug output only.
- The `throw` arms for unknown enum values (Othello/ThinkEngine.cs:183, Othello/DirectionHelper.cs:19) cannot arise, because `Difficulty` and `Direction` are closed datatypes.
- GameModel.Game.GetTileAt: it requires an on-board cell. In the source an off-board index throws `IndexOutOfRangeException`. Every call in the program passes an on-board cell: a constant, a loop index in 0..7, a cell checked with `OnBoard`, or a result of `GetBoardPosition`. The same holds for `IsFree` and `SetTileAt`.
- The `Difficulty` enum's declaration is not among the modelled files. A new `Game` gets `Easy`, taken to be its first (default) value.
- 32-bit arithmetic: scores, counts and pixel coordinates are unbounded integers. No modelled expression can overflow: scores and counts stay far below 2³¹, `BoardX = w/2 - 152` cannot overflow, and `GetBoardPosition` rejects pixels outside [BoardX, BoardX + 304] before it subtracts.
- LINQ (`Enum.GetValues`, `Any`, `OrderByDescending`, `FirstOrDefault`) is modelled as follows:
  - the `AllDirections` sequence, and an existential or a loop over it;
  - a first-maximum index (`BestIndex`), which is the outcome of a stable descending sort followed by taking the head.
- GameModel.Game.BlackCanMove, GameModel.Game.WhiteCanMove: the nested scan loops are in the module-level `ScanForMove`, which the methods call on the game's tile array. `ThinkEngine.GetAllPossibleMoves` and `ScanMoves` are split the same way.
- ThinkModel.CreateBasicScoreMatrix: the 16 literal writes are grouped four at a time in `WriteQuadrantRow`, and the two copy loops are in `MirrorLeftRight` and `MirrorTopBottom`. The same cells get the same values in the same order.
- ThinkModel.ThinkEngine.AddSituationScore is modelled as written. Each helper tests the fixed cell `(xstart, ystart)` on every pass, and that cell has just been found free. So for Black or White the count stays 0 and the bonus never applies. The evident intent of inspecting the edge row is not modelled.
