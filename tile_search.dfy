/**
 * The three searches over the tile grid: the breadth-first flood from the
 * spawn room that the world validator runs, the breadth-first search that
 * asks whether a room's floor can be reached from spawn, and the stack
 * flood fill that discovers a hallway network. Each is proved against
 * `Flood.Reaches`.
 */
module TileSearch {
  import opened Tiles
  import opened Flood
  import opened Rooms

  /** Every open neighbour of `a` has been seen. */
  ghost predicate Expanded(g: array2<int>, excl: seq<TileRect>, seen: set<Cell>, a: Cell)
    reads g
  {
    forall j :: 0 <= j < 4 && Open(g, excl, Neighbors(a)[j]) ==> Neighbors(a)[j] in seen
  }

  /** A set holding `s` whose members are all reached from `s`. */
  ghost predicate Sound(g: array2<int>, excl: seq<TileRect>, s: Cell, seen: set<Cell>)
    reads g
  {
    s in seen && forall c :: c in seen ==> Reaches(g, excl, s, c)
  }

  /** The members of a sound, fully expanded set are exactly the tiles `s` reaches. */
  lemma ExpandedIsReach(g: array2<int>, excl: seq<TileRect>, s: Cell, seen: set<Cell>)
    requires Sound(g, excl, s, seen)
    requires forall a :: a in seen ==> Expanded(g, excl, seen, a)
    ensures forall c :: c in seen <==> Reaches(g, excl, s, c)
  {
    assert Closed(g, excl, seen) by {
      forall a, b | a in seen && Adjacent(a, b) && Open(g, excl, b)
        ensures b in seen
      {
        assert b in Neighbors(a);
        var j :| 0 <= j < 4 && Neighbors(a)[j] == b;
        assert Expanded(g, excl, seen, a);
      }
    }
    forall c | Reaches(g, excl, s, c)
      ensures c in seen
    {
      ClosedHoldsReach(g, excl, seen, s, c);
    }
  }

  /** Seen tiles are the start or tiles of the grid, so a search can only grow so far. */
  predicate OnMapOrStart(g: array2<int>, s: Cell, seen: set<Cell>) {
    forall c :: c in seen ==> c == s || CellInGrid(g, c)
  }

  // ---------------------------------------------------------------------
  // The breadth-first search of the world validator

  ghost predicate FloodInv(g: array2<int>, s: Cell, visited: set<Cell>, queue: seq<Cell>)
    reads g
  {
    Sound(g, [], s, visited) && OnMapOrStart(g, s, visited) &&
    (forall i :: 0 <= i < |queue| ==> queue[i] in visited) &&
    (forall a :: a in visited ==> a in queue || Expanded(g, [], visited, a))
  }

  /** The bookkeeping of a search that has grown from `visited0, queue0` to `visited, queue`. */
  ghost predicate Grown(g: array2<int>, s: Cell, visited0: set<Cell>, queue0: seq<Cell>, visited: set<Cell>, queue: seq<Cell>)
    reads g
  {
    visited0 <= visited && queue0 <= queue &&
    Sound(g, [], s, visited) && OnMapOrStart(g, s, visited) &&
    (forall i :: 0 <= i < |queue| ==> queue[i] in visited) &&
    (forall c :: c in visited - visited0 ==> c in queue) &&
    (visited == visited0 ==> queue == queue0)
  }

  /** Marks and queues `n` when it is on the grid, not yet visited, and floor or door. */
  method VisitOne(g: array2<int>, s: Cell, a: Cell, n: Cell, visited0: set<Cell>, queue0: seq<Cell>)
    returns (visited: set<Cell>, queue: seq<Cell>)
    requires a in visited0 && Adjacent(a, n)
    requires Sound(g, [], s, visited0) && OnMapOrStart(g, s, visited0)
    requires forall i :: 0 <= i < |queue0| ==> queue0[i] in visited0
    ensures Grown(g, s, visited0, queue0, visited, queue)
    ensures Open(g, [], n) ==> n in visited
  {
    visited, queue := visited0, queue0;
    if 0 <= n.0 < g.Length1 && 0 <= n.1 < g.Length0 && n !in visited && (g[n.1, n.0] == FLOOR || g[n.1, n.0] == DOOR) {
      ReachesStep(g, [], s, a, n);
      visited := visited + {n};
      queue := queue + [n];
    }
  }

  /**
   * Looks at the four neighbours of `a`, in the order (0,1), (0,-1), (1,0),
   * (-1,0), marking and queueing each one on the grid, not yet visited, and
   * holding floor or door.
   */
  method VisitNeighbours(g: array2<int>, s: Cell, a: Cell, visited0: set<Cell>, queue0: seq<Cell>)
    returns (visited: set<Cell>, queue: seq<Cell>)
    requires a in visited0
    requires Sound(g, [], s, visited0) && OnMapOrStart(g, s, visited0)
    requires forall i :: 0 <= i < |queue0| ==> queue0[i] in visited0
    ensures Grown(g, s, visited0, queue0, visited, queue)
    ensures Expanded(g, [], visited, a)
  {
    visited, queue := visited0, queue0;
    var ns := Neighbors(a);
    for j := 0 to 4
      invariant Grown(g, s, visited0, queue0, visited, queue)
      invariant forall k :: 0 <= k < j && Open(g, [], ns[k]) ==> ns[k] in visited
    {
      ghost var v1, q1 := visited, queue;
      visited, queue := VisitOne(g, s, a, ns[j], visited, queue);
      GrownTrans(g, s, visited0, queue0, v1, q1, visited, queue);
      forall k | 0 <= k < j + 1 && Open(g, [], ns[k])
        ensures ns[k] in visited
      {
        if k < j {
          assert ns[k] in v1;
        }
      }
    }
  }

  lemma GrownTrans(g: array2<int>, s: Cell, v0: set<Cell>, q0: seq<Cell>, v1: set<Cell>, q1: seq<Cell>, v2: set<Cell>, q2: seq<Cell>)
    requires Grown(g, s, v0, q0, v1, q1) && Grown(g, s, v1, q1, v2, q2)
    ensures Grown(g, s, v0, q0, v2, q2)
  {
    forall c | c in v2 - v0
      ensures c in q2
    {
      if c in v1 {
        assert c in v1 - v0;
        assert c in q1;
        var i :| 0 <= i < |q1| && q1[i] == c;
        assert q2[i] == c;
      }
    }
  }

  /** Popping `a` off the front of the queue and visiting its neighbours keeps the invariant and makes progress. */
  lemma FloodStep(g: array2<int>, s: Cell, a: Cell, before: set<Cell>, q0: seq<Cell>, visited: set<Cell>, queue: seq<Cell>)
    requires FloodInv(g, s, before, q0) && q0 != [] && a == q0[0]
    requires Grown(g, s, before, q0[1..], visited, queue) && Expanded(g, [], visited, a)
    ensures FloodInv(g, s, visited, queue)
    ensures AllCells(g) + {s} - visited < AllCells(g) + {s} - before || (visited == before && |queue| < |q0|)
  {
    forall b | b in visited
      ensures b in queue || Expanded(g, [], visited, b)
    {
      if b != a && b in before {
        assert b in q0 || Expanded(g, [], before, b);
        assert b in q0 ==> b in q0[1..];
      }
    }
    if visited != before {
      var n :| n in visited && n !in before;
      assert n in AllCells(g) + {s} - before;
    }
  }

  /**
   * The flood of `validate_world`: breadth-first from `s` over edge-adjacent
   * floor and door tiles of the grid. The start is visited whatever it holds.
   */
  method FloodFrom(g: array2<int>, s: Cell) returns (visited: set<Cell>)
    ensures forall c :: c in visited <==> Reaches(g, [], s, c)
  {
    ReachesSelf(g, [], s);
    visited := {s};
    var queue := [s];
    while queue != []
      invariant FloodInv(g, s, visited, queue)
      decreases AllCells(g) + {s} - visited, |queue|
    {
      var a := queue[0];
      ghost var before, q0 := visited, queue;
      visited, queue := VisitNeighbours(g, s, a, visited, queue[1..]);
      FloodStep(g, s, a, before, q0, visited, queue);
    }
    ExpandedIsReach(g, [], s, visited);
  }

  // ---------------------------------------------------------------------
  // The breadth-first search of `can_reach_spawn`

  /** `c` is a floor tile of the grid inside the 14 x 14 floor whose top-left tile is `f`. */
  ghost predicate FloorHit(g: array2<int>, f: Cell, c: Cell)
    reads g
  {
    f.0 <= c.0 < f.0 + 14 && f.1 <= c.1 < f.1 + 14 && CellInGrid(g, c) && g[c.1, c.0] == FLOOR
  }

  /** Some floor tile of the 14 x 14 floor at `f` is reached from `s`. */
  ghost predicate FloorReachable(g: array2<int>, s: Cell, f: Cell)
    reads g
  {
    exists c :: Reaches(g, [], s, c) && FloorHit(g, f, c)
  }

  lemma SearchStep(g: array2<int>, s: Cell, f: Cell, a: Cell, before: set<Cell>, q0: seq<Cell>, visited: set<Cell>, queue: seq<Cell>)
    requires q0 != [] && a == q0[0] && !FloorHit(g, f, a)
    requires forall c :: c in before ==> c in q0 || !FloorHit(g, f, c)
    requires Grown(g, s, before, q0[1..], visited, queue)
    ensures forall c :: c in visited ==> c in queue || !FloorHit(g, f, c)
  {
    forall c | c in visited && FloorHit(g, f, c)
      ensures c in queue
    {
      if c in before {
        assert c in q0 && c != a;
        var i :| 0 <= i < |q0| && q0[i] == c;
        assert q0[1..][i - 1] == c;
        assert queue[i - 1] == c;
      }
    }
  }

  /**
   * Breadth-first from `s` as in the validator's flood, but each tile is
   * checked as it leaves the queue and the search stops at the first floor
   * tile of the floor at `f`.
   */
  method SearchFloor(g: array2<int>, s: Cell, f: Cell) returns (found: bool)
    ensures found <==> FloorReachable(g, s, f)
  {
    ReachesSelf(g, [], s);
    var visited := {s};
    var queue := [s];
    while queue != []
      invariant FloodInv(g, s, visited, queue)
      invariant forall c :: c in visited ==> c in queue || !FloorHit(g, f, c)
      decreases AllCells(g) + {s} - visited, |queue|
    {
      var a := queue[0];
      if f.0 <= a.0 < f.0 + 14 && f.1 <= a.1 < f.1 + 14 && 0 <= a.0 < g.Length1 && 0 <= a.1 < g.Length0 && g[a.1, a.0] == FLOOR {
        assert Reaches(g, [], s, a) && FloorHit(g, f, a);
        return true;
      }
      ghost var before, q0 := visited, queue;
      visited, queue := VisitNeighbours(g, s, a, visited, queue[1..]);
      FloodStep(g, s, a, before, q0, visited, queue);
      SearchStep(g, s, f, a, before, q0, visited, queue);
    }
    ExpandedIsReach(g, [], s, visited);
    return false;
  }

  // ---------------------------------------------------------------------
  // The flood fill of `discover_hallway_network`

  /**
   * The tiles of a room's floor rectangle `r` in pixels: columns from
   * `r.left // TILE_SIZE` up to but excluding `r.right // TILE_SIZE`, and
   * rows likewise (the tile size is positive, so Python's `//` is `/`).
   */
  function RoomTiles(r: Rect): TileRect {
    TileRect(r.Left() / TILE_SIZE, r.Top() / TILE_SIZE, r.Right() / TILE_SIZE, r.Bottom() / TILE_SIZE)
  }

  /** The tile rectangles of the rooms, in list order. */
  function RoomsTiles(rooms: seq<Room>): (excl: seq<TileRect>)
    ensures |excl| == |rooms| && forall i :: 0 <= i < |rooms| ==> excl[i] == RoomTiles(rooms[i].rect)
  {
    seq(|rooms|, i requires 0 <= i < |rooms| => RoomTiles(rooms[i].rect))
  }

  /** The scan over the rooms: true iff some room's tile rectangle holds `c`. */
  method InsideAnyRoom(rooms: seq<Room>, c: Cell) returns (inside: bool)
    ensures inside == InAny(RoomsTiles(rooms), c)
  {
    ghost var excl := RoomsTiles(rooms);
    for i := 0 to |rooms|
      invariant forall k :: 0 <= k < i ==> !excl[k].Contains(c)
    {
      var r := rooms[i].rect;
      if r.Left() / TILE_SIZE <= c.0 < r.Right() / TILE_SIZE && r.Top() / TILE_SIZE <= c.1 < r.Bottom() / TILE_SIZE {
        assert excl[i].Contains(c);
        return true;
      }
    }
    return false;
  }

  /** Every neighbour of a network tile is in the network, still on the stack, or not open. */
  ghost predicate Pending(g: array2<int>, excl: seq<TileRect>, network: set<Cell>, stack: seq<Cell>, a: Cell)
    reads g
  {
    forall j :: 0 <= j < 4 ==> Neighbors(a)[j] in network || Neighbors(a)[j] in stack || !Open(g, excl, Neighbors(a)[j])
  }

  /** Network tiles are open and reached from an open start. */
  ghost predicate NetSound(g: array2<int>, excl: seq<TileRect>, s: Cell, network: set<Cell>)
    reads g
  {
    forall c :: c in network ==> Open(g, excl, c) && Open(g, excl, s) && Reaches(g, excl, s, c)
  }

  /** Every stacked tile is the start or a neighbour of a network tile. */
  ghost predicate StackNear(network: set<Cell>, s: Cell, stack: seq<Cell>) {
    forall i :: 0 <= i < |stack| ==> stack[i] == s || exists a :: a in network && Adjacent(a, stack[i])
  }

  ghost predicate AllPending(g: array2<int>, excl: seq<TileRect>, network: set<Cell>, stack: seq<Cell>)
    reads g
  {
    forall a :: a in network ==> Pending(g, excl, network, stack, a)
  }

  ghost predicate NetworkInv(g: array2<int>, excl: seq<TileRect>, s: Cell, network: set<Cell>, stack: seq<Cell>)
    reads g
  {
    NetSound(g, excl, s, network) && StackNear(network, s, stack) && AllPending(g, excl, network, stack) &&
    (s in network || s in stack || !Open(g, excl, s))
  }

  /** Taking the top tile off the stack keeps the invariant when that tile is in the network or not open. */
  lemma PopRejected(g: array2<int>, excl: seq<TileRect>, s: Cell, network: set<Cell>, stack: seq<Cell>)
    requires NetworkInv(g, excl, s, network, stack) && stack != []
    requires stack[|stack| - 1] in network || !Open(g, excl, stack[|stack| - 1])
    ensures NetworkInv(g, excl, s, network, stack[..|stack| - 1])
  {
    var rest := stack[..|stack| - 1];
    forall i | 0 <= i < |rest|
      ensures rest[i] == s || exists a :: a in network && Adjacent(a, rest[i])
    {
      assert rest[i] == stack[i];
    }
    forall a | a in network
      ensures Pending(g, excl, network, rest, a)
    {
      assert Pending(g, excl, network, stack, a);
      forall j | 0 <= j < 4
        ensures Neighbors(a)[j] in network || Neighbors(a)[j] in rest || !Open(g, excl, Neighbors(a)[j])
      {
        var n := Neighbors(a)[j];
        if n in stack && n != stack[|stack| - 1] {
          var i :| 0 <= i < |stack| && stack[i] == n;
          assert rest[i] == n;
        }
      }
    }
  }

  /** The stack after accepting its top tile `c`: the rest, then `c`'s four neighbours. */
  function Pushed(stack: seq<Cell>, c: Cell): seq<Cell>
    requires stack != []
  {
    var ns := Neighbors(c);
    stack[..|stack| - 1] + [ns[0], ns[1], ns[2], ns[3]]
  }

  lemma PushedMembers(stack: seq<Cell>, c: Cell, n: Cell)
    requires stack != [] && stack[|stack| - 1] == c
    ensures n in Pushed(stack, c) <==> n in stack[..|stack| - 1] || n in Neighbors(c)
  {
  }

  lemma PushedNear(s: Cell, network: set<Cell>, stack: seq<Cell>)
    requires StackNear(network, s, stack) && stack != []
    ensures StackNear(network + {stack[|stack| - 1]}, s, Pushed(stack, stack[|stack| - 1]))
  {
    var c := stack[|stack| - 1];
    var rest, stack' := stack[..|stack| - 1], Pushed(stack, c);
    forall i | 0 <= i < |stack'|
      ensures stack'[i] == s || exists a :: a in network + {c} && Adjacent(a, stack'[i])
    {
      if i < |rest| {
        assert stack'[i] == stack[i];
      } else {
        assert stack'[i] in Neighbors(c);
      }
    }
  }

  lemma PushedPending(g: array2<int>, excl: seq<TileRect>, network: set<Cell>, stack: seq<Cell>)
    requires AllPending(g, excl, network, stack) && stack != []
    ensures AllPending(g, excl, network + {stack[|stack| - 1]}, Pushed(stack, stack[|stack| - 1]))
  {
    var c := stack[|stack| - 1];
    var rest, stack', network' := stack[..|stack| - 1], Pushed(stack, c), network + {c};
    forall a | a in network'
      ensures Pending(g, excl, network', stack', a)
    {
      forall j | 0 <= j < 4
        ensures Neighbors(a)[j] in network' || Neighbors(a)[j] in stack' || !Open(g, excl, Neighbors(a)[j])
      {
        var n := Neighbors(a)[j];
        PushedMembers(stack, c, n);
        if a != c {
          assert Pending(g, excl, network, stack, a);
          if n in stack && n != c {
            var i :| 0 <= i < |stack| && stack[i] == n;
            assert rest[i] == n;
          }
        }
      }
    }
  }

  /** Adding the open top tile to the network and pushing its four neighbours keeps the invariant. */
  lemma PopAccepted(g: array2<int>, excl: seq<TileRect>, s: Cell, network: set<Cell>, stack: seq<Cell>)
    requires NetworkInv(g, excl, s, network, stack) && stack != []
    requires Open(g, excl, stack[|stack| - 1]) && stack[|stack| - 1] !in network
    ensures NetworkInv(g, excl, s, network + {stack[|stack| - 1]}, Pushed(stack, stack[|stack| - 1]))
  {
    var c := stack[|stack| - 1];
    assert Reaches(g, excl, s, c) && Open(g, excl, s) by {
      if c == s {
        ReachesSelf(g, excl, s);
      } else {
        var a :| a in network && Adjacent(a, c);
        ReachesStep(g, excl, s, a, c);
      }
    }
    PushedNear(s, network, stack);
    PushedPending(g, excl, network, stack);
    PushedMembers(stack, c, s);
  }

  /**
   * `discover_hallway_network`: a depth-first flood from `s` that collects
   * the tiles on the grid holding floor or door and lying outside the tile
   * rectangle of every room, stepping between edge-adjacent such tiles. A
   * start that is not such a tile yields the empty network.
   */
  method DiscoverHallwayNetwork(g: array2<int>, rooms: seq<Room>, s: Cell) returns (network: set<Cell>)
    ensures forall c :: c in network <==> Open(g, RoomsTiles(rooms), s) && Reaches(g, RoomsTiles(rooms), s, c)
  {
    ghost var excl := RoomsTiles(rooms);
    var stack := [s];
    var visited: set<Cell> := {};
    network := {};
    while stack != []
      invariant visited == network
      invariant NetworkInv(g, excl, s, network, stack)
      invariant network <= AllCells(g)
      decreases AllCells(g) - network, |stack|
    {
      var c := stack[|stack| - 1];
      if c in visited || !(0 <= c.0 < g.Length1 && 0 <= c.1 < g.Length0) || g[c.1, c.0] == WALL {
        PopRejected(g, excl, s, network, stack);
        stack := stack[..|stack| - 1];
        continue;
      }
      var inRoom := InsideAnyRoom(rooms, c);
      if !inRoom && (g[c.1, c.0] == FLOOR || g[c.1, c.0] == DOOR) {
        PopAccepted(g, excl, s, network, stack);
        visited := visited + {c};
        network := network + {c};
        stack := Pushed(stack, c);
      } else {
        PopRejected(g, excl, s, network, stack);
        stack := stack[..|stack| - 1];
      }
    }
    if Open(g, excl, s) {
      assert s in network;
      forall a | a in network
        ensures Expanded(g, excl, network, a)
      {
        assert Pending(g, excl, network, stack, a);
      }
      ExpandedIsReach(g, excl, s, network);
    }
  }
}
