/**
 * The shared tile grid: tile codes, tile coordinates, pixel rectangles and
 * the bounds test every tile writer and reader of the generator uses.
 *
 * The tilemap is a two-dimensional array indexed `[y, x]` (row first), as the
 * generator indexes its list of rows `tilemap[y][x]`.
 */
module Tiles {

  // Tile codes written into the tilemap.
  const FLOOR: int := 0
  const WALL: int := 1
  const DOOR: int := 2
  const CHEST_UNLOCKED: int := 3
  const CHEST_LOCKED: int := 4
  const HOLE: int := 5

  /** The hallway carvers and the tile searches hard-code a tile size of 40 pixels. */
  const TILE_SIZE: int := 40

  /** A tile coordinate `(x, y)`: column first, row second. */
  type Cell = (int, int)

  /** An integer rectangle `(x, y, w, h)` in pixels, standing for a pygame Rect. */
  datatype Rect = Rect(x: int, y: int, w: int, h: int) {
    function Left(): int { x }
    function Top(): int { y }
    function Right(): int { x + w }
    function Bottom(): int { y + h }
  }

  /** A half-open rectangle of tiles: columns `x0 <= x < x1`, rows `y0 <= y < y1`. */
  datatype TileRect = TileRect(x0: int, y0: int, x1: int, y1: int) {
    predicate Contains(c: Cell) {
      x0 <= c.0 < x1 && y0 <= c.1 < y1
    }
  }

  /** True when `(x, y)` addresses a tile of `g` (the guards `0 <= x < len(tilemap[0])`, `0 <= y < len(tilemap)`). */
  predicate InGrid(g: array2<int>, x: int, y: int) {
    0 <= y < g.Length0 && 0 <= x < g.Length1
  }

  predicate CellInGrid(g: array2<int>, c: Cell) {
    InGrid(g, c.0, c.1)
  }

  /** The tiles whose code is floor or door: the ones the tile searches may step onto. */
  predicate Walkable(v: int) {
    v == FLOOR || v == DOOR
  }

  /** The four neighbours of a tile, in the order (0,1), (0,-1), (1,0), (-1,0). */
  function Neighbors(c: Cell): (ns: seq<Cell>)
    ensures |ns| == 4
    ensures forall d :: d in ns <==> Adjacent(c, d)
  {
    [(c.0, c.1 + 1), (c.0, c.1 - 1), (c.0 + 1, c.1), (c.0 - 1, c.1)]
  }

  /** Two tiles that share an edge. */
  predicate Adjacent(a: Cell, b: Cell) {
    (a.1 == b.1 && (a.0 - b.0 == 1 || b.0 - a.0 == 1)) ||
    (a.0 == b.0 && (a.1 - b.1 == 1 || b.1 - a.1 == 1))
  }

  /** Every tile of the grid. */
  function AllCells(g: array2<int>): (s: set<Cell>)
    ensures forall c :: c in s <==> CellInGrid(g, c)
  {
    set x, y | 0 <= x < g.Length1 && 0 <= y < g.Length0 :: (x, y)
  }
}
