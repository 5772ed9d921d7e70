/**
 * Reachability over the tile grid, the reference definition the tile searches
 * are proved against: a walk moves between edge-adjacent tiles and every tile
 * after the first must be "open" -- inside the grid, floor or door, and
 * outside every excluded rectangle. The first tile of a walk is not
 * constrained, because the searches mark their starting tile visited
 * whatever it holds.
 */
module Flood {
  import opened Tiles

  /** True when `c` lies in one of the rectangles of `excl`. */
  predicate InAny(excl: seq<TileRect>, c: Cell) {
    exists i :: 0 <= i < |excl| && excl[i].Contains(c)
  }

  /** A tile a search may step onto. */
  ghost predicate Open(g: array2<int>, excl: seq<TileRect>, c: Cell)
    reads g
  {
    CellInGrid(g, c) && Walkable(g[c.1, c.0]) && !InAny(excl, c)
  }

  /** The `i`-th move of `p` goes to an edge-adjacent open tile. */
  ghost predicate StepAt(g: array2<int>, excl: seq<TileRect>, p: seq<Cell>, i: nat)
    reads g
    requires 0 < i < |p|
  {
    Adjacent(p[i - 1], p[i]) && Open(g, excl, p[i])
  }

  ghost predicate IsWalk(g: array2<int>, excl: seq<TileRect>, p: seq<Cell>)
    reads g
  {
    |p| > 0 && forall i: nat :: 0 < i < |p| ==> StepAt(g, excl, p, i)
  }

  /** `c` can be reached from `s` by a walk. */
  ghost predicate Reaches(g: array2<int>, excl: seq<TileRect>, s: Cell, c: Cell)
    reads g
  {
    exists p :: IsWalk(g, excl, p) && p[0] == s && p[|p| - 1] == c
  }

  /** No walk leaves `S`: every open neighbour of a member is a member. */
  ghost predicate Closed(g: array2<int>, excl: seq<TileRect>, S: set<Cell>)
    reads g
  {
    forall a, b :: a in S && Adjacent(a, b) && Open(g, excl, b) ==> b in S
  }

  lemma ReachesSelf(g: array2<int>, excl: seq<TileRect>, s: Cell)
    ensures Reaches(g, excl, s, s)
  {
    assert IsWalk(g, excl, [s]);
  }

  /** A reachable tile's open neighbour is reachable. */
  lemma ReachesStep(g: array2<int>, excl: seq<TileRect>, s: Cell, c: Cell, d: Cell)
    requires Reaches(g, excl, s, c)
    requires Adjacent(c, d) && Open(g, excl, d)
    ensures Reaches(g, excl, s, d)
  {
    var p :| IsWalk(g, excl, p) && p[0] == s && p[|p| - 1] == c;
    var q := p + [d];
    assert IsWalk(g, excl, q) by {
      forall i: nat | 0 < i < |q|
        ensures StepAt(g, excl, q, i)
      {
        if i < |p| {
          assert q[i - 1] == p[i - 1] && q[i] == p[i];
          assert StepAt(g, excl, p, i);
        }
      }
    }
    assert q[0] == s && q[|q| - 1] == d;
  }

  /** Every tile of a walk that starts in a closed set stays in it. */
  lemma {:induction false} WalkStaysIn(g: array2<int>, excl: seq<TileRect>, S: set<Cell>, p: seq<Cell>, k: nat)
    requires IsWalk(g, excl, p) && p[0] in S && Closed(g, excl, S)
    requires k < |p|
    ensures p[k] in S
  {
    if k > 0 {
      WalkStaysIn(g, excl, S, p, k - 1);
      assert StepAt(g, excl, p, k);
    }
  }

  /** A closed set holding the start holds everything the start reaches. */
  lemma ClosedHoldsReach(g: array2<int>, excl: seq<TileRect>, S: set<Cell>, s: Cell, c: Cell)
    requires s in S && Closed(g, excl, S)
    requires Reaches(g, excl, s, c)
    ensures c in S
  {
    var p :| IsWalk(g, excl, p) && p[0] == s && p[|p| - 1] == c;
    WalkStaysIn(g, excl, S, p, |p| - 1);
  }
}
