/**
 * The part of the renderer that translates a mouse position in pixels into
 * a board cell. The board is 8 tiles of 38 pixels, centred in its container.
 */
module Renderer {
  import opened Board

  /** The side of one tile, in pixels. */
  const TileSize: int := 38

  /** The side of the whole board, in pixels: 304. */
  const BoardSize: int := TileSize * 8

  /**
   * Integer division as C# does it: the quotient is truncated toward zero, so
   * it brackets a non-negative dividend from below and a negative one from above.
   */
  function CsDiv(a: int, b: int): (q: int)
    requires b > 0
    ensures 0 <= a ==> 0 <= q && b * q <= a < b * q + b
    ensures a <= 0 ==> q <= 0 && b * q - b < a <= b * q
  {
    if a >= 0 then a / b else -((-a) / b)
  }

  /** On a negative dividend C# and Euclidean division differ: halving -1 gives 0, not -1. */
  lemma CsDivNotEuclidean()
    ensures CsDiv(-1, 2) == 0 && -1 / 2 == -1
  {
  }

  /** The pixel position of the board's top-left corner. */
  datatype Renderer = Renderer(boardX: int, boardY: int)

  /** The constructor: the board's corner is placed so that the board is centred in the container. */
  function NewRenderer(containerWidth: int, containerHeight: int): (r: Renderer)
    ensures r.boardX == CsDiv(containerWidth, 2) - 152
    ensures r.boardY == CsDiv(containerHeight, 2) - 152
    ensures containerWidth >= 0 ==>
      2 * r.boardX + BoardSize <= containerWidth <= 2 * r.boardX + BoardSize + 1
    ensures containerHeight >= 0 ==>
      2 * r.boardY + BoardSize <= containerHeight <= 2 * r.boardY + BoardSize + 1
  {
    Renderer(CsDiv(containerWidth, 2) - CsDiv(BoardSize, 2), CsDiv(containerHeight, 2) - CsDiv(BoardSize, 2))
  }

  /** The half-open pixel range [lo, lo + TileSize) covered by tile index i of a board starting at lo. */
  predicate InTile(lo: int, i: int, p: int) {
    lo + TileSize * i <= p < lo + TileSize * i + TileSize
  }

  /**
   * The cell under pixel (x, y), or Nothing when the pixel is off the board.
   * A position is accepted when it lies in [BoardX, BoardX + 304) on each
   * axis; the far edge itself passes the first test but lands on index 8.
   */
  function GetBoardPosition(r: Renderer, x: int, y: int): (p: Option<Point>)
    ensures p.Some? <==>
      r.boardX <= x < r.boardX + BoardSize && r.boardY <= y < r.boardY + BoardSize
    ensures p.Some? ==>
      OnBoard(p.value.x, p.value.y) &&
      InTile(r.boardX, p.value.x, x) && InTile(r.boardY, p.value.y, y)
  {
    if x < r.boardX || y < r.boardY || x > r.boardX + BoardSize || y > r.boardY + BoardSize then
      Nothing
    else
      var cx := CsDiv(x - r.boardX, TileSize);
      var cy := CsDiv(y - r.boardY, TileSize);
      if cx < 0 || cy < 0 || cx > 7 || cy > 7 then Nothing else Some(Point(cx, cy))
  }

  /** Every pixel of a cell's square maps back to that cell. */
  lemma TilePixelsMapToCell(r: Renderer, a: int, c: int, i: int, j: int)
    requires OnBoard(a, c) && 0 <= i < TileSize && 0 <= j < TileSize
    ensures GetBoardPosition(r, r.boardX + TileSize * a + i, r.boardY + TileSize * c + j) == Some(Point(a, c))
  {
  }

  /** The pixel on the board's right or bottom edge passes the bounds test but is rejected as index 8. */
  lemma FarEdgeRejected(r: Renderer, x: int, y: int)
    ensures GetBoardPosition(r, r.boardX + BoardSize, y) == Nothing
    ensures GetBoardPosition(r, x, r.boardY + BoardSize) == Nothing
  {
  }
}
