/**
 * Values shared by every part of the Othello model: the three-state tile, a
 * board point, an optional result, and the 8x8 grid as a value.
 *
 * A grid is indexed `g[x][y]`, exactly as the game indexes its `Tile[,]`
 * array: x is the column (growing rightwards), y the row (growing downwards).
 */
module Board {

  /** The content of one board cell. */
  datatype Tile = None | Black | White

  /** A board coordinate or a direction offset (System.Drawing.Point). */
  datatype Point = Point(x: int, y: int)

  /** A value that may be absent (a nullable `Point?` in the game). */
  datatype Option<T> = Nothing | Some(value: T)

  /** Side length of the square board. */
  const Size: int := 8

  type Matrix<T> = seq<seq<T>>

  type Grid = Matrix<Tile>

  /** An 8x8 matrix. */
  predicate IsMatrix<T>(m: Matrix<T>) {
    |m| == Size && forall x | 0 <= x < Size :: |m[x]| == Size
  }

  /** A cell inside the board. */
  predicate OnBoard(x: int, y: int) {
    0 <= x < Size && 0 <= y < Size
  }

  /** The board g with the tile t put at (x, y); every other cell keeps its tile. */
  function Place(g: Grid, x: int, y: int, t: Tile): (h: Grid)
    requires IsMatrix(g) && OnBoard(x, y)
    ensures IsMatrix(h)
    ensures forall a, c | OnBoard(a, c) :: h[a][c] == if a == x && c == y then t else g[a][c]
  {
    g[x := g[x][y := t]]
  }

  /** The current contents of an 8x8 array, as a value. */
  function MatrixOf<T>(a: array2<T>): (m: Matrix<T>)
    requires a.Length0 == Size && a.Length1 == Size
    reads a
    ensures IsMatrix(m)
    ensures forall x, y | OnBoard(x, y) :: m[x][y] == a[x, y]
  {
    seq(Size, x requires 0 <= x < Size reads a =>
      seq(Size, y requires 0 <= y < Size reads a => a[x, y]))
  }

  /** Two matrices with the same cells are the same value. */
  lemma MatrixExtensionality<T>(m: Matrix<T>, n: Matrix<T>)
    requires IsMatrix(m) && IsMatrix(n)
    requires forall x, y | OnBoard(x, y) :: m[x][y] == n[x][y]
    ensures m == n
  {
    forall x | 0 <= x < Size
      ensures m[x] == n[x]
    {
      assert forall y | 0 <= y < Size :: m[x][y] == n[x][y] by {
        forall y | 0 <= y < Size ensures m[x][y] == n[x][y] {
          assert OnBoard(x, y);
        }
      }
    }
  }

  /** The colour a player places: Black for the human, White for the computer. */
  function Friend(black: bool): (t: Tile)
    ensures t != None
  {
    if black then Black else White
  }

  /** The opponent's colour. */
  function Enemy(black: bool): (t: Tile)
    ensures t != None && t != Friend(black)
  {
    if black then White else Black
  }

  // ---------------------------------------------------------------------------
  // Counting tiles, in the order the game scans the board: row by row (y outer),
  // and inside a row cell by cell (x inner).

  /** How many of the cells (0, y) .. (n - 1, y) hold `t`. */
  function RowCount(g: Grid, t: Tile, y: int, n: int): (c: nat)
    requires IsMatrix(g) && 0 <= y < Size && 0 <= n <= Size
    ensures c <= n
  {
    if n == 0 then 0
    else RowCount(g, t, y, n - 1) + (if g[n - 1][y] == t then 1 else 0)
  }

  /** How many cells of the rows 0 .. m - 1 hold `t`. */
  function RowsCount(g: Grid, t: Tile, m: int): (c: nat)
    requires IsMatrix(g) && 0 <= m <= Size
    ensures c <= 8 * m
  {
    if m == 0 then 0
    else RowsCount(g, t, m - 1) + RowCount(g, t, m - 1, Size)
  }

  /** The number of cells of the whole board that hold `t`. */
  function Count(g: Grid, t: Tile): nat
    requires IsMatrix(g)
  {
    RowsCount(g, t, Size)
  }

  /** Every cell of a row holds exactly one of the three tiles. */
  lemma {:induction false} RowCountsPartition(g: Grid, y: int, n: int)
    requires IsMatrix(g) && 0 <= y < Size && 0 <= n <= Size
    ensures RowCount(g, Black, y, n) + RowCount(g, White, y, n) + RowCount(g, None, y, n) == n
  {
    if n > 0 {
      RowCountsPartition(g, y, n - 1);
    }
  }

  /** Every cell of the board holds exactly one of the three tiles. */
  lemma {:induction false} CountsPartition(g: Grid, m: int)
    requires IsMatrix(g) && 0 <= m <= Size
    ensures RowsCount(g, Black, m) + RowsCount(g, White, m) + RowsCount(g, None, m) == 8 * m
  {
    if m > 0 {
      CountsPartition(g, m - 1);
      RowCountsPartition(g, m - 1, Size);
    }
  }

  /** The Black, White and empty counts of a board add up to its 64 cells. */
  lemma CountsSumToBoard(g: Grid)
    requires IsMatrix(g)
    ensures Count(g, Black) + Count(g, White) + Count(g, None) == 64
    ensures Count(g, Black) + Count(g, White) <= 64
  {
    CountsPartition(g, Size);
  }

  /** A row holds no `t` exactly when none of its first n cells is `t`. */
  lemma {:induction false} RowCountZero(g: Grid, t: Tile, y: int, n: int)
    requires IsMatrix(g) && 0 <= y < Size && 0 <= n <= Size
    ensures RowCount(g, t, y, n) == 0 <==> forall x | 0 <= x < n :: g[x][y] != t
  {
    if n > 0 {
      RowCountZero(g, t, y, n - 1);
    }
  }

  /** A row whose only `t` is at column a counts one `t` once its prefix reaches a. */
  lemma {:induction false} RowCountSingle(g: Grid, t: Tile, y: int, n: int, a: int)
    requires IsMatrix(g) && 0 <= y < Size && 0 <= n <= Size && 0 <= a < Size
    requires g[a][y] == t && forall x | 0 <= x < Size && x != a :: g[x][y] != t
    ensures RowCount(g, t, y, n) == if a < n then 1 else 0
  {
    if n > 0 {
      RowCountSingle(g, t, y, n - 1, a);
    }
  }

  /** The board holds no `t` exactly when no cell is `t`. */
  lemma {:induction false} RowsCountZero(g: Grid, t: Tile, m: int)
    requires IsMatrix(g) && 0 <= m <= Size
    ensures RowsCount(g, t, m) == 0 <==> forall x, y | 0 <= x < Size && 0 <= y < m :: g[x][y] != t
  {
    if m > 0 {
      RowsCountZero(g, t, m - 1);
      RowCountZero(g, t, m - 1, Size);
    }
  }

  // ---------------------------------------------------------------------------
  // Comparing two boards cell by cell, in the same scan order.

  /** How many of the cells (0, y) .. (n - 1, y) differ between g and h. */
  function RowChanges(g: Grid, h: Grid, y: int, n: int): (c: nat)
    requires IsMatrix(g) && IsMatrix(h) && 0 <= y < Size && 0 <= n <= Size
    ensures c <= n
  {
    if n == 0 then 0
    else RowChanges(g, h, y, n - 1) + (if g[n - 1][y] != h[n - 1][y] then 1 else 0)
  }

  /** How many cells of the rows 0 .. m - 1 differ between g and h. */
  function RowsChanges(g: Grid, h: Grid, m: int): (c: nat)
    requires IsMatrix(g) && IsMatrix(h) && 0 <= m <= Size
    ensures c <= 8 * m
  {
    if m == 0 then 0
    else RowsChanges(g, h, m - 1) + RowChanges(g, h, m - 1, Size)
  }

  /** The number of cells in which g and h differ. */
  function Changes(g: Grid, h: Grid): nat
    requires IsMatrix(g) && IsMatrix(h)
  {
    RowsChanges(g, h, Size)
  }

  /** h is g with some cells holding `from` turned into `to`, and nothing else changed. */
  ghost predicate Recolours(g: Grid, h: Grid, from: Tile, to: Tile) {
    IsMatrix(g) && IsMatrix(h) &&
    forall x, y | OnBoard(x, y) :: h[x][y] == g[x][y] || (g[x][y] == from && h[x][y] == to)
  }

  /** Recolouring moves exactly the changed cells of a row from one count to the other. */
  lemma {:induction false} RowRecolourCounts(g: Grid, h: Grid, from: Tile, to: Tile, y: int, n: int)
    requires Recolours(g, h, from, to) && from != to && 0 <= y < Size && 0 <= n <= Size
    ensures RowCount(h, to, y, n) == RowCount(g, to, y, n) + RowChanges(g, h, y, n)
    ensures RowCount(h, from, y, n) + RowChanges(g, h, y, n) == RowCount(g, from, y, n)
  {
    if n > 0 {
      RowRecolourCounts(g, h, from, to, y, n - 1);
      assert OnBoard(n - 1, y);
      if g[n - 1][y] != h[n - 1][y] {
        assert g[n - 1][y] == from && h[n - 1][y] == to;
      }
    }
  }

  /** Recolouring moves exactly the changed cells of the rows 0 .. m - 1 from one count to the other. */
  lemma {:induction false} RowsRecolourCounts(g: Grid, h: Grid, from: Tile, to: Tile, m: int)
    requires Recolours(g, h, from, to) && from != to && 0 <= m <= Size
    ensures RowsCount(h, to, m) == RowsCount(g, to, m) + RowsChanges(g, h, m)
    ensures RowsCount(h, from, m) + RowsChanges(g, h, m) == RowsCount(g, from, m)
  {
    if m > 0 {
      RowsRecolourCounts(g, h, from, to, m - 1);
      RowRecolourCounts(g, h, from, to, m - 1, Size);
      assert RowsCount(h, to, m) == RowsCount(h, to, m - 1) + RowCount(h, to, m - 1, Size);
      assert RowsCount(g, from, m) == RowsCount(g, from, m - 1) + RowCount(g, from, m - 1, Size);
      assert RowsCount(g, to, m) == RowsCount(g, to, m - 1) + RowCount(g, to, m - 1, Size);
      assert RowsCount(h, from, m) == RowsCount(h, from, m - 1) + RowCount(h, from, m - 1, Size);
      assert RowsChanges(g, h, m) == RowsChanges(g, h, m - 1) + RowChanges(g, h, m - 1, Size);
    }
  }

  /** Turning k cells from `from` into `to` adds k to one count and takes k from the other. */
  lemma RecolourCounts(g: Grid, h: Grid, from: Tile, to: Tile)
    requires Recolours(g, h, from, to) && from != to
    ensures Count(h, to) == Count(g, to) + Changes(g, h)
    ensures Count(h, from) == Count(g, from) - Changes(g, h)
  {
    RowsRecolourCounts(g, h, from, to, Size);
  }

  /** A row with a differing cell among its first n has at least one change. */
  lemma {:induction false} RowChangesPositive(g: Grid, h: Grid, y: int, n: int, a: int)
    requires IsMatrix(g) && IsMatrix(h) && 0 <= y < Size && 0 <= a < n <= Size
    requires g[a][y] != h[a][y]
    ensures RowChanges(g, h, y, n) >= 1
  {
    if a < n - 1 {
      RowChangesPositive(g, h, y, n - 1, a);
    }
  }

  /** Rows with a differing cell among the first m have at least one change. */
  lemma {:induction false} RowsChangesPositive(g: Grid, h: Grid, m: int, a: int, c: int)
    requires IsMatrix(g) && IsMatrix(h) && 0 <= a < Size && 0 <= c < m <= Size
    requires g[a][c] != h[a][c]
    ensures RowsChanges(g, h, m) >= 1
  {
    if c < m - 1 {
      RowsChangesPositive(g, h, m - 1, a, c);
    } else {
      RowChangesPositive(g, h, c, Size, a);
    }
  }

  /** Two boards differing in some cell have at least one change. */
  lemma ChangesPositive(g: Grid, h: Grid, a: int, c: int)
    requires IsMatrix(g) && IsMatrix(h) && OnBoard(a, c) && g[a][c] != h[a][c]
    ensures Changes(g, h) >= 1
  {
    RowsChangesPositive(g, h, Size, a, c);
  }

  /** A row in which only (a, c) may differ has a change only if it is row c and reaches a. */
  lemma {:induction false} RowChangesSingle(g: Grid, h: Grid, y: int, n: int, a: int, c: int)
    requires IsMatrix(g) && IsMatrix(h) && 0 <= y < Size && 0 <= n <= Size && OnBoard(a, c)
    requires forall x, z | OnBoard(x, z) && (x != a || z != c) :: g[x][z] == h[x][z]
    requires g[a][c] != h[a][c]
    ensures RowChanges(g, h, y, n) == if y == c && a < n then 1 else 0
  {
    if n > 0 {
      RowChangesSingle(g, h, y, n - 1, a, c);
      assert OnBoard(n - 1, y);
    }
  }

  /** Rows in which only (a, c) may differ have a change only if row c is among them. */
  lemma {:induction false} RowsChangesSingle(g: Grid, h: Grid, m: int, a: int, c: int)
    requires IsMatrix(g) && IsMatrix(h) && 0 <= m <= Size && OnBoard(a, c)
    requires forall x, z | OnBoard(x, z) && (x != a || z != c) :: g[x][z] == h[x][z]
    requires g[a][c] != h[a][c]
    ensures RowsChanges(g, h, m) == if c < m then 1 else 0
  {
    if m > 0 {
      RowsChangesSingle(g, h, m - 1, a, c);
      RowChangesSingle(g, h, m - 1, Size, a, c);
    }
  }

  /** Two boards that differ in exactly one cell have exactly one change. */
  lemma ChangesSingle(g: Grid, h: Grid, a: int, c: int)
    requires IsMatrix(g) && IsMatrix(h) && OnBoard(a, c)
    requires forall x, z | OnBoard(x, z) && (x != a || z != c) :: g[x][z] == h[x][z]
    requires g[a][c] != h[a][c]
    ensures Changes(g, h) == 1
  {
    RowsChangesSingle(g, h, Size, a, c);
  }

  /** The board holds no `t` exactly when no cell of it is `t`. */
  lemma CountZero(g: Grid, t: Tile)
    requires IsMatrix(g)
    ensures Count(g, t) == 0 <==> forall x, y | OnBoard(x, y) :: g[x][y] != t
  {
    RowsCountZero(g, t, Size);
  }
}
