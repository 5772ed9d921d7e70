/**
 * The collision bucket index: a dictionary from cell coordinates to the list
 * of objects whose rectangle touches that cell. A rectangle touches the
 * cells from `left // cell_size` to `right // cell_size` across and from
 * `top // cell_size` to `bottom // cell_size` down, both ends included.
 */
module SpatialIndex {
  import opened Tiles

  type Key = (int, int)

  /** Python's `a // b`: the floor of the quotient, for either sign of `b`. */
  function FloorDiv(a: int, b: int): (q: int)
    requires b != 0
    ensures b * q <= a < b * q + b || b * q + b < a <= b * q
  {
    if b > 0 then a / b else (-a) / (-b)
  }

  /** Cell `k` lies in columns `x0..x1` and rows `y0..y1`, both ends included. */
  predicate InBox(k: Key, x0: int, x1: int, y0: int, y1: int) {
    x0 <= k.0 <= x1 && y0 <= k.1 <= y1
  }

  /** The cells a column-by-column sweep of columns `x0..` and rows `y0..y1` has passed before reaching `(x, y)`. */
  predicate Swept(k: Key, x0: int, x: int, y0: int, y: int, y1: int) {
    InBox(k, x0, x - 1, y0, y1) || (k.0 == x && y0 <= k.1 < y)
  }

  /** True when `r` touches cell `k` of a grid with cells of size `cs`. */
  predicate Covers(cs: int, r: Rect, k: Key)
    requires cs != 0
  {
    InBox(k, FloorDiv(r.Left(), cs), FloorDiv(r.Right(), cs), FloorDiv(r.Top(), cs), FloorDiv(r.Bottom(), cs))
  }

  /** The objects in the cells of `g` a sweep has passed before reaching `(x, y)`. */
  ghost function Collected<T>(g: map<Key, seq<T>>, x0: int, x: int, y0: int, y: int, y1: int): set<T> {
    set k, o | k in g && Swept(k, x0, x, y0, y, y1) && o in g[k] :: o
  }

  lemma CollectedIgnoresEmpty<T>(g: map<Key, seq<T>>, c: Key, x0: int, x: int, y0: int, y: int, y1: int)
    requires c !in g
    ensures Collected(g[c := []], x0, x, y0, y, y1) == Collected(g, x0, x, y0, y, y1)
  {
    var g2 := g[c := []];
    forall o | o in Collected(g2, x0, x, y0, y, y1) ensures o in Collected(g, x0, x, y0, y, y1) {
      var k :| k in g2 && Swept(k, x0, x, y0, y, y1) && o in g2[k];
      assert k != c;
    }
    forall o | o in Collected(g, x0, x, y0, y, y1) ensures o in Collected(g2, x0, x, y0, y, y1) {
      var k :| k in g && Swept(k, x0, x, y0, y, y1) && o in g[k];
      assert g2[k] == g[k];
    }
  }

  lemma CollectedStep<T>(g: map<Key, seq<T>>, x0: int, x: int, y0: int, y: int, y1: int)
    requires (x, y) in g && y0 <= y
    ensures Collected(g, x0, x, y0, y + 1, y1) == Collected(g, x0, x, y0, y, y1) + set o | o in g[(x, y)]
  {
    var lhs, rhs := Collected(g, x0, x, y0, y + 1, y1), Collected(g, x0, x, y0, y, y1) + set o | o in g[(x, y)];
    forall o | o in lhs ensures o in rhs {
      var k :| k in g && Swept(k, x0, x, y0, y + 1, y1) && o in g[k];
      if k != (x, y) {
        assert Swept(k, x0, x, y0, y, y1);
      }
    }
    forall o | o in rhs ensures o in lhs {
      if o in Collected(g, x0, x, y0, y, y1) {
        var k :| k in g && Swept(k, x0, x, y0, y, y1) && o in g[k];
        assert Swept(k, x0, x, y0, y + 1, y1);
      } else {
        assert Swept((x, y), x0, x, y0, y + 1, y1);
      }
    }
  }

  lemma CollectedNextColumn<T>(g: map<Key, seq<T>>, x0: int, x: int, y0: int, y1: int)
    requires x0 <= x
    ensures Collected(g, x0, x + 1, y0, y0, y1) == Collected(g, x0, x, y0, y1 + 1, y1)
  {
    var next := x + 1;
    forall k: Key ensures Swept(k, x0, next, y0, y0, y1) == Swept(k, x0, x, y0, y1 + 1, y1) {
    }
  }

  lemma CollectedAll<T>(g: map<Key, seq<T>>, x0: int, x: int, x1: int, y0: int, y1: int, cs: int, e: Rect)
    requires cs != 0
    requires x0 == FloorDiv(e.Left(), cs) && x1 == FloorDiv(e.Right(), cs)
    requires y0 == FloorDiv(e.Top(), cs) && y1 == FloorDiv(e.Bottom(), cs)
    requires (x == x0 || x0 <= x <= x1 + 1) && x >= x1 + 1
    ensures Collected(g, x0, x, y0, y0, y1) == set k, o | k in g && Covers(cs, e, k) && o in g[k] :: o
  {
    forall k: Key ensures Swept(k, x0, x, y0, y0, y1) == Covers(cs, e, k) {
    }
  }

  /** `r` grown by `p` on all four sides. */
  function Expand(r: Rect, p: int): Rect {
    Rect(r.x - p, r.y - p, r.w + 2 * p, r.h + 2 * p)
  }

  /**
   * What a cell holds after inserting `sprites` in order into an empty grid:
   * the sprites touching the cell, in insertion order.
   */
  function InsertedAt<T>(cs: int, sprites: seq<(T, Rect)>, k: Key): seq<T>
    requires cs != 0
  {
    if sprites == [] then []
    else
      var last := sprites[|sprites| - 1];
      InsertedAt(cs, sprites[..|sprites| - 1], k) + (if Covers(cs, last.1, k) then [last.0] else [])
  }

  class SpatialGrid<T(==)> {
    const cellSize: int
    var grid: map<Key, seq<T>>

    /** The list at cell `k`; a key never created reads as the empty list. */
    function Bucket(k: Key): seq<T>
      reads this
    {
      if k in grid then grid[k] else []
    }

    constructor (cellSize: int := 64)
      ensures this.cellSize == cellSize
      ensures forall k: Key :: Bucket(k) == []
    {
      this.cellSize := cellSize;
      grid := map[];
    }

    /** Empties every cell. */
    method Clear()
      modifies this
      ensures grid == map[]
      ensures forall k: Key :: Bucket(k) == []
    {
      grid := map[];
    }

    /**
     * Appends `obj` to exactly the cells `r` touches; every other cell keeps
     * its list. A cell size of 0 raises `ZeroDivisionError` at the first
     * division, before any cell is touched.
     */
    method Insert(obj: T, r: Rect) returns (raised: bool)
      modifies this
      ensures raised <==> cellSize == 0
      ensures raised ==> grid == old(grid)
      ensures !raised ==> forall k: Key :: Bucket(k) == if Covers(cellSize, r, k) then old(Bucket(k)) + [obj] else old(Bucket(k))
      ensures !raised ==> forall k: Key :: k in grid <==> k in old(grid) || Covers(cellSize, r, k)
    {
      if cellSize == 0 {
        return true;
      }
      raised := false;
      var minX, maxX := FloorDiv(r.Left(), cellSize), FloorDiv(r.Right(), cellSize);
      var minY, maxY := FloorDiv(r.Top(), cellSize), FloorDiv(r.Bottom(), cellSize);
      var x := minX;
      while x < maxX + 1
        invariant x == minX || minX <= x <= maxX + 1
        invariant forall k: Key :: Bucket(k) == if InBox(k, minX, x - 1, minY, maxY) then old(Bucket(k)) + [obj] else old(Bucket(k))
        invariant forall k: Key :: k in grid <==> k in old(grid) || InBox(k, minX, x - 1, minY, maxY)
        decreases maxX + 1 - x
      {
        var y := minY;
        while y < maxY + 1
          invariant y == minY || minY <= y <= maxY + 1
          invariant forall k: Key :: Bucket(k) == if Swept(k, minX, x, minY, y, maxY) then old(Bucket(k)) + [obj] else old(Bucket(k))
          invariant forall k: Key :: k in grid <==> k in old(grid) || Swept(k, minX, x, minY, y, maxY)
          decreases maxY + 1 - y
        {
          grid := grid[(x, y) := Bucket((x, y)) + [obj]];
          y := y + 1;
        }
        x := x + 1;
      }
    }

    /**
     * The objects of every cell touched by `r` grown by `padding`, each once.
     * Reading a cell that was never created creates it empty; no cell's list
     * changes. A cell size of 0 raises `ZeroDivisionError` before any cell
     * is read, and no objects are returned.
     */
    method GetNearbyObjects(r: Rect, padding: int := 0) returns (objs: set<T>, raised: bool)
      modifies this
      ensures raised <==> cellSize == 0
      ensures raised ==> grid == old(grid) && objs == {}
      ensures !raised ==> objs == set k, o | k in grid && Covers(cellSize, Expand(r, padding), k) && o in grid[k] :: o
      ensures forall k: Key :: Bucket(k) == (if k in old(grid) then old(grid)[k] else [])
      ensures !raised ==> forall k: Key :: k in grid <==> k in old(grid) || Covers(cellSize, Expand(r, padding), k)
    {
      if cellSize == 0 {
        return {}, true;
      }
      raised := false;
      var e := Expand(r, padding);
      var minX, maxX := FloorDiv(e.Left(), cellSize), FloorDiv(e.Right(), cellSize);
      var minY, maxY := FloorDiv(e.Top(), cellSize), FloorDiv(e.Bottom(), cellSize);
      objs := {};
      var x := minX;
      while x < maxX + 1
        invariant x == minX || minX <= x <= maxX + 1
        invariant forall k: Key :: Bucket(k) == (if k in old(grid) then old(grid)[k] else [])
        invariant forall k: Key :: k in grid <==> k in old(grid) || InBox(k, minX, x - 1, minY, maxY)
        invariant objs == Collected(grid, minX, x, minY, minY, maxY)
        decreases maxX + 1 - x
      {
        objs := SweepColumn(minX, x, minY, maxY, old(grid), objs);
        x := x + 1;
      }
      CollectedAll(grid, minX, x, maxX, minY, maxY, cellSize, e);
    }

    /**
     * The inner loop of `GetNearbyObjects` over column `x`: every cell of
     * rows `y0..y1` in the column is read, created empty when missing, and
     * its objects are added to `objs`.
     */
    method SweepColumn(x0: int, x: int, y0: int, y1: int, ghost g0: map<Key, seq<T>>, objs0: set<T>)
      returns (objs: set<T>)
      requires x0 <= x
      requires forall k: Key :: Bucket(k) == (if k in g0 then g0[k] else [])
      requires forall k: Key :: k in grid <==> k in g0 || InBox(k, x0, x - 1, y0, y1)
      requires objs0 == Collected(grid, x0, x, y0, y0, y1)
      modifies this
      ensures forall k: Key :: Bucket(k) == (if k in g0 then g0[k] else [])
      ensures forall k: Key :: k in grid <==> k in g0 || InBox(k, x0, x, y0, y1)
      ensures objs == Collected(grid, x0, x + 1, y0, y0, y1)
    {
      objs := objs0;
      var y := y0;
      while y < y1 + 1
        invariant y == y0 || y0 <= y <= y1 + 1
        invariant forall k: Key :: Bucket(k) == (if k in g0 then g0[k] else [])
        invariant forall k: Key :: k in grid <==> k in g0 || Swept(k, x0, x, y0, y, y1)
        invariant objs == Collected(grid, x0, x, y0, y, y1)
        decreases y1 + 1 - y
      {
        if (x, y) !in grid {
          CollectedIgnoresEmpty(grid, (x, y), x0, x, y0, y, y1);
          grid := grid[(x, y) := []];
        }
        var cell := grid[(x, y)];
        CollectedStep(grid, x0, x, y0, y, y1);
        objs := objs + set o | o in cell;
        y := y + 1;
      }
      CollectedNextColumn(grid, x0, x, y0, y1);
    }

    /**
     * Discards the old contents, then inserts every sprite with its own
     * rectangle, in order. With a cell size of 0 the first insertion raises
     * `ZeroDivisionError` and the grid is left empty.
     */
    method BuildFromSpriteGroup(sprites: seq<(T, Rect)>) returns (raised: bool)
      modifies this
      ensures raised <==> cellSize == 0 && sprites != []
      ensures cellSize == 0 ==> grid == map[]
      ensures cellSize != 0 ==> forall k: Key :: Bucket(k) == InsertedAt(cellSize, sprites, k)
    {
      Clear();
      raised := false;
      var i := 0;
      while i < |sprites|
        invariant 0 <= i <= |sprites|
        invariant cellSize == 0 ==> i == 0 && grid == map[]
        invariant cellSize != 0 ==> forall k: Key :: Bucket(k) == InsertedAt(cellSize, sprites[..i], k)
      {
        raised := Insert(sprites[i].0, sprites[i].1);
        if raised {
          return;
        }
        assert sprites[..i + 1][..i] == sprites[..i];
        i := i + 1;
      }
      assert sprites[..i] == sprites;
    }
  }

  /** A cell's list after a build holds exactly the sprites whose rectangle touches that cell. */
  lemma {:induction false} InsertedAtHolds<T>(cs: int, sprites: seq<(T, Rect)>, k: Key, o: T)
    requires cs != 0
    ensures o in InsertedAt(cs, sprites, k) <==>
      exists j :: 0 <= j < |sprites| && sprites[j].0 == o && Covers(cs, sprites[j].1, k)
  {
    if sprites != [] {
      var n := |sprites| - 1;
      var init := sprites[..n];
      InsertedAtHolds(cs, init, k, o);
      if o in InsertedAt(cs, sprites, k) && o !in InsertedAt(cs, init, k) {
        assert sprites[n].0 == o && Covers(cs, sprites[n].1, k);
      }
      if exists j :: 0 <= j < |sprites| && sprites[j].0 == o && Covers(cs, sprites[j].1, k) {
        var j :| 0 <= j < |sprites| && sprites[j].0 == o && Covers(cs, sprites[j].1, k);
        if j < n {
          assert init[j] == sprites[j];
        }
      }
    }
  }

  lemma DivMonotone(a: int, b: int, cs: int)
    requires cs > 0 && a <= b
    ensures a / cs <= b / cs
  {
    var q1, q2 := a / cs, b / cs;
    assert cs * q1 <= a && b < cs * q2 + cs;
    if q2 < q1 {
      MulMonotone(cs, q2 + 1, q1);
    }
  }

  lemma MulMonotone(c: int, m: int, n: int)
    requires c > 0 && m <= n
    ensures c * m <= c * n
  {
    var d := n - m;
    assert c * n == c * m + c * d;
  }

  /**
   * Growing a rectangle by a non-negative padding only adds cells, and a
   * rectangle of non-negative size touches the cell of its top-left corner:
   * so an object inserted with `r` is among the nearby objects of `r` for
   * every padding `p >= 0`.
   */
  lemma InsertedIsNearby(cs: int, r: Rect, p: int)
    requires cs > 0 && p >= 0 && r.w >= 0 && r.h >= 0
    ensures Covers(cs, r, (r.Left() / cs, r.Top() / cs))
    ensures forall k: Key :: Covers(cs, r, k) ==> Covers(cs, Expand(r, p), k)
  {
    DivMonotone(r.Left(), r.Right(), cs);
    DivMonotone(r.Top(), r.Bottom(), cs);
    DivMonotone(r.Left() - p, r.Left(), cs);
    DivMonotone(r.Top() - p, r.Top(), cs);
    DivMonotone(r.Right(), r.Right() + p, cs);
    DivMonotone(r.Bottom(), r.Bottom() + p, cs);
    assert Expand(r, p).Right() == r.Right() + p;
    assert Expand(r, p).Bottom() == r.Bottom() + p;
  }
}
