/**
 * The coarse room lattice of the dungeon generator. The footprint of the
 * room in column `col` starts at tile `20 * col + 2` (the 16-tile room
 * centred in its 20-tile cell), so `(grid_x // 20, grid_y // 20)` is the
 * room's slot; the room grid maps each occupied slot to
 * the room last placed there, and two rooms are lattice neighbours when
 * their slots differ by one step in one axis.
 */
module Lattice {
  import opened Graphs
  import opened Rooms
  import opened Wrappers

  type Slot = (int, int)

  /** Room footprint (16 tiles) plus hallway spacing (4 tiles). */
  const SPACING: int := 20

  /** The slot of a footprint whose top-left tile is `pos`. */
  function SlotOf(pos: (int, int)): Slot {
    (pos.0 / SPACING, pos.1 / SPACING)
  }

  /** `(grid_x // 20, grid_y // 20)`: the lattice slot the connection phases work with. */
  function GridSlot(r: Room): Slot
    reads r`gridX, r`gridY
  {
    SlotOf((r.gridX, r.gridY))
  }

  /** The slots of a list of footprints, in list order. */
  function Slots(positions: seq<(int, int)>): seq<Slot> {
    seq(|positions|, i requires 0 <= i < |positions| => SlotOf(positions[i]))
  }

  /** The four neighbouring slots, in the order the generator scans them: (1,0), (-1,0), (0,1), (0,-1). */
  function NeighbourSlots(k: Slot): seq<Slot> {
    [(k.0 + 1, k.1), (k.0 - 1, k.1), (k.0, k.1 + 1), (k.0, k.1 - 1)]
  }

  /**
   * `grid` is the room grid of `slots`: the occupied slots are exactly the
   * slots of the list, and each maps to the index of the LAST room in that slot.
   */
  ghost predicate IsRoomGrid(slots: seq<Slot>, grid: map<Slot, nat>) {
    (forall k :: k in grid <==> k in slots) &&
    (forall k :: k in grid ==> grid[k] < |slots| && slots[grid[k]] == k) &&
    (forall k, j :: k in grid && grid[k] < j < |slots| ==> slots[j] != k)
  }

  /** The room grid built by inserting the rooms in list order, later ones overwriting. */
  function RoomGridOf(slots: seq<Slot>): map<Slot, nat> {
    if slots == [] then map[]
    else RoomGridOf(slots[..|slots| - 1])[slots[|slots| - 1] := |slots| - 1]
  }

  /** Updating a room grid with its own rooms changes nothing. */
  lemma UpdateWithItself(slots: seq<Slot>)
    ensures RoomGridOf(slots) + RoomGridOf(slots) == RoomGridOf(slots)
  {
  }

  /** Inserting in list order leaves each occupied slot with its last room. */
  lemma {:induction false} RoomGridOfIsRoomGrid(slots: seq<Slot>)
    ensures IsRoomGrid(slots, RoomGridOf(slots))
    decreases |slots|
  {
    if slots != [] {
      var n := |slots| - 1;
      var init := slots[..n];
      RoomGridOfIsRoomGrid(init);
      var g := RoomGridOf(init);
      var g' := RoomGridOf(slots);
      assert g' == g[slots[n] := n];
      forall k
        ensures k in g' <==> k in slots
      {
        if k in init {
          var j :| 0 <= j < n && init[j] == k;
          assert slots[j] == k;
        }
      }
      forall k | k in g' && k != slots[n]
        ensures g'[k] < n && slots[g'[k]] == k
      {
        assert slots[g[k]] == init[g[k]];
      }
      forall k, j | k in g' && g'[k] < j < |slots|
        ensures slots[j] != k
      {
        if j < n {
          assert slots[j] == init[j];
        }
      }
    }
  }

  /** The characterisation fixes the grid: only one map is the room grid of a list. */
  lemma RoomGridUnique(slots: seq<Slot>, g1: map<Slot, nat>, g2: map<Slot, nat>)
    requires IsRoomGrid(slots, g1) && IsRoomGrid(slots, g2)
    ensures g1 == g2
  {
    forall k | k in g1
      ensures g2[k] == g1[k]
    {
      assert k in slots && slots[g1[k]] == k && slots[g2[k]] == k;
    }
    assert g1.Keys == g2.Keys;
  }

  /** The loop that fills `room_grid`, one room after the other. */
  method BuildRoomGrid(slots: seq<Slot>) returns (grid: map<Slot, nat>)
    ensures grid == RoomGridOf(slots)
    ensures IsRoomGrid(slots, grid)
  {
    grid := map[];
    var i := 0;
    while i < |slots|
      invariant 0 <= i <= |slots|
      invariant grid == RoomGridOf(slots[..i])
    {
      assert slots[..i + 1][..i] == slots[..i];
      grid := grid[slots[i] := i];
      i := i + 1;
    }
    assert slots[..i] == slots;
    RoomGridOfIsRoomGrid(slots);
  }

  /** The lattice slots `(grid_x // 20, grid_y // 20)` of a list of rooms, in list order. */
  function GridSlots(rooms: seq<Room>): (slots: seq<Slot>)
    reads rooms`gridX, rooms`gridY
    ensures |slots| == |rooms|
    ensures forall i :: 0 <= i < |rooms| ==> slots[i] == GridSlot(rooms[i])
  {
    if rooms == [] then [] else GridSlots(rooms[..|rooms| - 1]) + [GridSlot(rooms[|rooms| - 1])]
  }

  /** Rooms whose positions did not move keep their slots. */
  twostate lemma SlotsKept(rooms: seq<Room>)
    requires forall r :: r in rooms ==> old(r.gridX) == r.gridX && old(r.gridY) == r.gridY
    ensures GridSlots(rooms) == old(GridSlots(rooms))
  {
  }

  /**
   * `for room in rooms: room_grid[slot of room] = room`, on a grid that
   * already holds entries: every slot of the list ends up with the last
   * room in it, and every other slot keeps what it held.
   */
  method PlaceAll(grid0: map<Slot, nat>, slots: seq<Slot>) returns (grid: map<Slot, nat>)
    ensures grid == grid0 + RoomGridOf(slots)
    ensures forall k :: k in grid <==> k in grid0 || k in slots
    ensures forall k :: k in slots ==> grid[k] < |slots| && slots[grid[k]] == k &&
                                       forall j :: grid[k] < j < |slots| ==> slots[j] != k
    ensures forall k :: k in grid0 && k !in slots ==> grid[k] == grid0[k]
    ensures forall k :: k in grid ==> grid[k] < |slots| || (k in grid0 && grid[k] == grid0[k])
  {
    grid := grid0;
    for i := 0 to |slots|
      invariant grid == grid0 + RoomGridOf(slots[..i])
    {
      assert slots[..i + 1][..i] == slots[..i];
      grid := grid[slots[i] := i];
    }
    assert slots[..|slots|] == slots;
    RoomGridOfIsRoomGrid(slots);
  }

  /** The rooms in the occupied slots among `ns`, in scan order; an empty slot contributes nothing. */
  function OccupiedRooms(grid: map<Slot, nat>, ns: seq<Slot>): (ws: seq<nat>)
    ensures |ws| <= |ns|
    ensures forall w :: w in ws <==> exists n :: n in ns && n in grid && grid[n] == w
    ensures ws == [] <==> forall n :: n in ns ==> n !in grid
  {
    if ns == [] then []
    else
      var init := ns[..|ns| - 1];
      var last := ns[|ns| - 1];
      assert forall n :: n in ns <==> n in init || n == last;
      OccupiedRooms(grid, init) + (if last in grid then [grid[last]] else [])
  }

  /** Number of occupied neighbouring slots, which is what `adjacent_count` counts. */
  function NeighbourCount(grid: map<Slot, nat>, k: Slot): nat {
    |OccupiedRooms(grid, NeighbourSlots(k))|
  }

  /**
   * The lattice graph: room `u`'s successors are the rooms the grid holds in
   * its four neighbouring slots.
   */
  function LatticeAdj(grid: map<Slot, nat>, slots: seq<Slot>): Adj {
    seq(|slots|, u requires 0 <= u < |slots| => OccupiedRooms(grid, NeighbourSlots(slots[u])))
  }

  /**
   * Lattice edges join rooms in neighbouring slots and lead only to the room
   * that owns its slot; in particular the graph is well formed.
   */
  lemma LatticeEdges(slots: seq<Slot>, grid: map<Slot, nat>, u: nat, w: nat)
    requires IsRoomGrid(slots, grid) && u < |slots|
    requires w in LatticeAdj(grid, slots)[u]
    ensures w < |slots| && slots[w] in NeighbourSlots(slots[u]) && grid[slots[w]] == w
  {
    var n :| n in NeighbourSlots(slots[u]) && n in grid && grid[n] == w;
  }

  lemma LatticeWellFormed(slots: seq<Slot>, grid: map<Slot, nat>)
    requires IsRoomGrid(slots, grid)
    ensures WellFormed(LatticeAdj(grid, slots))
  {
    var adj := LatticeAdj(grid, slots);
    forall u, i | 0 <= u < |adj| && 0 <= i < |adj[u]|
      ensures adj[u][i] < |adj|
    {
      LatticeEdges(slots, grid, u, adj[u][i]);
    }
  }

  /** The room of `grid` in slot `n` exists and has role `t`. */
  predicate HoldsRole(grid: map<Slot, nat>, types: seq<RoomType>, n: Slot, t: RoomType) {
    n in grid && grid[n] < |types| && types[grid[n]] == t
  }

  predicate HasNeighbourOfRole(grid: map<Slot, nat>, types: seq<RoomType>, k: Slot, t: RoomType) {
    exists n :: n in NeighbourSlots(k) && HoldsRole(grid, types, n, t)
  }

  /**
   * `can_connect_to_normal_or_spawn`: the room in slot `k` has a normal or a
   * spawn neighbour, and a spawn neighbour is accepted only when the room is
   * meant to become the unlocked chest room. `types` are the rooms' roles as
   * they are when the check runs.
   */
  method CanConnectToNormalOrSpawn(grid: map<Slot, nat>, types: seq<RoomType>, k: Slot,
                                   intended: Option<RoomType>) returns (ok: bool)
    ensures ok <==> (HasNeighbourOfRole(grid, types, k, Normal) || HasNeighbourOfRole(grid, types, k, Spawn)) &&
                    (HasNeighbourOfRole(grid, types, k, Spawn) ==> intended == Some(ChestUnlocked))
  {
    var ns := NeighbourSlots(k);
    var hasNormal, hasSpawn := false, false;
    var j := 0;
    while j < 4
      invariant 0 <= j <= 4
      invariant hasNormal <==> exists n :: n in ns[..j] && HoldsRole(grid, types, n, Normal)
      invariant hasSpawn <==> exists n :: n in ns[..j] && HoldsRole(grid, types, n, Spawn)
    {
      assert forall n :: n in ns[..j + 1] <==> n in ns[..j] || n == ns[j];
      if ns[j] in grid && grid[ns[j]] < |types| {
        var t := types[grid[ns[j]]];
        if t == Normal {
          hasNormal := true;
        } else if t == Spawn {
          hasSpawn := true;
        }
      }
      assert hasNormal <==> (exists n :: n in ns[..j] && HoldsRole(grid, types, n, Normal)) || HoldsRole(grid, types, ns[j], Normal);
      assert hasSpawn <==> (exists n :: n in ns[..j] && HoldsRole(grid, types, n, Spawn)) || HoldsRole(grid, types, ns[j], Spawn);
      j := j + 1;
    }
    assert ns[..4] == ns;
    if hasSpawn && intended != Some(ChestUnlocked) {
      return false;
    }
    if hasNormal {
      return true;
    } else if hasSpawn {
      return intended == Some(ChestUnlocked);
    }
    return false;
  }

  /** The neighbour-counting loop shared by `is_corner_room` and `test_connectivity`. */
  method AdjacentCount(grid: map<Slot, nat>, k: Slot) returns (count: nat)
    ensures count == NeighbourCount(grid, k) && count <= 4
    ensures count == 0 <==> forall n :: n in NeighbourSlots(k) ==> n !in grid
  {
    var ns := NeighbourSlots(k);
    count := 0;
    var j := 0;
    while j < 4
      invariant 0 <= j <= 4
      invariant count == |OccupiedRooms(grid, ns[..j])|
    {
      assert ns[..j + 1][..j] == ns[..j];
      if ns[j] in grid {
        count := count + 1;
      }
      j := j + 1;
    }
    assert ns[..4] == ns;
  }

  /** `is_corner_room`: a room with at most two occupied neighbouring slots. */
  method IsCornerRoom(grid: map<Slot, nat>, k: Slot) returns (corner: bool)
    ensures corner <==> NeighbourCount(grid, k) <= 2
  {
    var count := AdjacentCount(grid, k);
    corner := count <= 2;
  }

  /**
   * The inner loop of `calculate_hallway_distance_from_spawn`: scans the
   * four slots around room `u`, reached in `du` hops, reporting a hit when
   * the target is there and otherwise queueing each unvisited neighbour at
   * `du + 1` hops.
   */
  method ScanNeighbours(grid: map<Slot, nat>, slots: seq<Slot>, roomIdx: nat, u: nat, du: nat,
                        visited0: set<nat>, queue0: seq<(nat, nat)>, ghost dist0: map<nat, nat>)
    returns (hit: bool, visited: set<nat>, queue: seq<(nat, nat)>, ghost dist: map<nat, nat>)
    requires IsRoomGrid(slots, grid) && u < |slots|
    requires ScanInv(LatticeAdj(grid, slots), 0, roomIdx, u, du, visited0, queue0, dist0)
    ensures hit ==> IsHopDistance(LatticeAdj(grid, slots), 0, roomIdx, Finite(du + 1))
    ensures !hit ==> SearchInv(LatticeAdj(grid, slots), 0, roomIdx, visited, queue, dist)
    ensures !hit ==> |visited| > |visited0| || (visited == visited0 && queue == queue0)
  {
    ghost var adj := LatticeAdj(grid, slots);
    LatticeWellFormed(slots, grid);
    visited, queue, dist := visited0, queue0, dist0;
    var ns := NeighbourSlots(slots[u]);
    assert adj[u] == OccupiedRooms(grid, ns);
    var j := 0;
    while j < 4
      invariant 0 <= j <= 4
      invariant ScanInv(adj, 0, roomIdx, u, du, visited, queue, dist)
      invariant |visited| > |visited0| || (visited == visited0 && queue == queue0)
      invariant forall n :: n in ns[..j] && n in grid ==> grid[n] in visited
    {
      assert forall n :: n in ns[..j + 1] <==> n in ns[..j] || n == ns[j];
      if ns[j] in grid {
        var w := grid[ns[j]];
        assert w in adj[u];
        if w == roomIdx {
          SearchHit(adj, 0, roomIdx, u, du, visited, queue, dist);
          return true, visited, queue, dist;
        }
        if w !in visited {
          SearchEnqueue(adj, 0, roomIdx, u, du, visited, queue, dist, w);
          var entry: (nat, nat) := (w, du + 1);
          visited := visited + {w};
          queue := queue + [entry];
          dist := dist[w := du + 1];
        }
      }
      j := j + 1;
    }
    assert ns[..4] == ns;
    SearchExpanded(adj, 0, roomIdx, u, du, visited, queue, dist);
    return false, visited, queue, dist;
  }

  /**
   * `calculate_hallway_distance_from_spawn`: breadth-first search from room 0
   * over the lattice, returning the number of hops to `roomIdx` as soon as it
   * is first seen, or infinity when the search runs dry.
   */
  method HallwayDistanceFromSpawn(grid: map<Slot, nat>, slots: seq<Slot>, roomIdx: nat) returns (d: Distance)
    requires IsRoomGrid(slots, grid) && |slots| > 0
    ensures IsHopDistance(LatticeAdj(grid, slots), 0, roomIdx, d)
  {
    ghost var adj := LatticeAdj(grid, slots);
    if roomIdx == 0 {
      WalkZero(adj, 0);
      return Finite(0);
    }
    LatticeWellFormed(slots, grid);
    SearchStart(adj, 0, roomIdx);
    var visited: set<nat> := {0};
    var queue: seq<(nat, nat)> := [(0, 0)];
    ghost var dist: map<nat, nat> := map[0 := 0];
    while queue != []
      invariant SearchInv(adj, 0, roomIdx, visited, queue, dist)
      decreases |slots| - |visited|, |queue|
    {
      var u := queue[0].0;
      var du := queue[0].1;
      SearchPop(adj, 0, roomIdx, visited, queue, dist);
      queue := queue[1..];
      var hit;
      hit, visited, queue, dist := ScanNeighbours(grid, slots, roomIdx, u, du, visited, queue, dist);
      if hit {
        return Finite(du + 1);
      }
    }
    SearchExhausted(adj, 0, roomIdx, visited, dist);
    return Infinite;
  }

  /** The number of occupied slots around room `l`. */
  function Degree(grid: map<Slot, nat>, slots: seq<Slot>, l: nat): (d: nat)
    requires l < |slots|
    ensures d <= 4
  {
    NeighbourCount(grid, slots[l])
  }

  /**
   * The layout admits the generator's spanning-tree connection and leaves
   * room for the five special rooms: every room is lattice-reachable from
   * room 0, no room lacks a lattice neighbour, and at least five rooms have
   * three or more.
   */
  ghost predicate LayoutConnectable(slots: seq<Slot>) {
    var grid := RoomGridOf(slots);
    (forall i :: 0 <= i < |slots| ==> Reachable(LatticeAdj(grid, slots), 0, i)) &&
    (forall i: nat :: i < |slots| ==> Degree(grid, slots, i) > 0) &&
    CountDegree(grid, slots, |slots|, 3, 4) >= 5
  }

  /** The first room in a neighbouring slot of `k` that is still in `unconnected`, in scan order. */
  method FirstUnconnectedNeighbour(grid: map<Slot, nat>, k: Slot, unconnected: set<nat>) returns (r: Option<nat>)
    ensures r.Some? ==> r.value in unconnected && r.value in OccupiedRooms(grid, NeighbourSlots(k))
    ensures r.None? ==> forall w :: w in OccupiedRooms(grid, NeighbourSlots(k)) ==> w !in unconnected
  {
    var ns := NeighbourSlots(k);
    var j := 0;
    while j < 4
      invariant 0 <= j <= 4
      invariant forall n :: n in ns[..j] && n in grid ==> grid[n] !in unconnected
    {
      assert forall n :: n in ns[..j + 1] <==> n in ns[..j] || n == ns[j];
      if ns[j] in grid && grid[ns[j]] in unconnected {
        assert ns[j] in ns;
        return Some(grid[ns[j]]);
      }
      j := j + 1;
    }
    assert ns[..4] == ns;
    return None;
  }

  /**
   * One pass of `test_connectivity`'s spanning loop: scans the connected
   * rooms in an arbitrary order (set iteration order) and connects the first
   * unconnected room found in a neighbouring slot, then stops.
   */
  method ConnectPass(grid: map<Slot, nat>, slots: seq<Slot>, connected0: set<nat>, unconnected0: set<nat>)
    returns (connected: set<nat>, unconnected: set<nat>, found: bool)
    requires IsRoomGrid(slots, grid)
    requires forall v :: v in connected0 ==> v < |slots| && Reachable(LatticeAdj(grid, slots), 0, v)
    requires unconnected0 == Below(|slots|) - connected0
    ensures unconnected == Below(|slots|) - connected
    ensures forall v :: v in connected ==> v < |slots| && Reachable(LatticeAdj(grid, slots), 0, v)
    ensures !found ==> connected == connected0 && Closed(LatticeAdj(grid, slots), connected0)
    ensures found ==> connected0 < connected && |connected| == |connected0| + 1
    ensures found ==> !Closed(LatticeAdj(grid, slots), connected0)
  {
    ghost var adj := LatticeAdj(grid, slots);
    var toScan := connected0;
    while toScan != {}
      invariant toScan <= connected0
      invariant forall c, w :: c in connected0 - toScan && w in adj[c] ==> w in connected0
      decreases |toScan|
    {
      var c :| c in toScan;
      toScan := toScan - {c};
      var r := FirstUnconnectedNeighbour(grid, slots[c], unconnected0);
      assert adj[c] == OccupiedRooms(grid, NeighbourSlots(slots[c]));
      if r.Some? {
        ConnectFound(grid, slots, connected0, unconnected0, c, r.value);
        return connected0 + {r.value}, unconnected0 - {r.value}, true;
      }
    }
    return connected0, unconnected0, false;
  }

  /** A waiting room `w` next to a connected room `c` is reachable, and connecting it grows the connected set by one. */
  lemma ConnectFound(grid: map<Slot, nat>, slots: seq<Slot>, connected0: set<nat>, unconnected0: set<nat>, c: nat, w: nat)
    requires IsRoomGrid(slots, grid)
    requires forall v :: v in connected0 ==> v < |slots| && Reachable(LatticeAdj(grid, slots), 0, v)
    requires unconnected0 == Below(|slots|) - connected0
    requires c in connected0 && w in unconnected0 && w in OccupiedRooms(grid, NeighbourSlots(slots[c]))
    ensures w < |slots| && Reachable(LatticeAdj(grid, slots), 0, w)
    ensures Below(|slots|) - (connected0 + {w}) == unconnected0 - {w}
    ensures connected0 < connected0 + {w} && |connected0 + {w}| == |connected0| + 1
    ensures !Closed(LatticeAdj(grid, slots), connected0)
  {
    var adj := LatticeAdj(grid, slots);
    assert w in adj[c];
    var k :| WalkOf(adj, 0, c, k);
    WalkExtend(adj, 0, c, k, w);
    LatticeEdges(slots, grid, c, w);
  }

  /** How many of the rooms below `i` have between `lo` and `hi` occupied neighbouring slots. */
  function CountDegree(grid: map<Slot, nat>, slots: seq<Slot>, i: nat, lo: nat, hi: nat): (c: nat)
    requires i <= |slots|
    ensures c <= i
  {
    if i == 0 then 0
    else CountDegree(grid, slots, i - 1, lo, hi) + (if lo <= Degree(grid, slots, i - 1) <= hi then 1 else 0)
  }

  /** The count is zero exactly when no room below `i` is in the class. */
  lemma {:induction false} CountDegreeZero(grid: map<Slot, nat>, slots: seq<Slot>, i: nat, lo: nat, hi: nat)
    requires i <= |slots|
    ensures CountDegree(grid, slots, i, lo, hi) == 0 <==>
            forall l: nat :: l < i ==> !(lo <= Degree(grid, slots, l) <= hi)
    decreases i
  {
    if i > 0 {
      CountDegreeZero(grid, slots, i - 1, lo, hi);
    }
  }

  /** Every room is isolated (0), a corner (1 or 2) or well connected (3 or 4), and only one of them. */
  lemma {:induction false} CountDegreePartition(grid: map<Slot, nat>, slots: seq<Slot>, i: nat)
    requires i <= |slots|
    ensures CountDegree(grid, slots, i, 0, 0) + CountDegree(grid, slots, i, 1, 2) +
            CountDegree(grid, slots, i, 3, 4) == i
    decreases i
  {
    if i > 0 {
      CountDegreePartition(grid, slots, i - 1);
    }
  }

  /** The isolated rooms and the corner rooms (one or two neighbours), counted one room at a time. */
  method CountRoomKinds(grid: map<Slot, nat>, slots: seq<Slot>) returns (isolated: nat, corner: nat)
    ensures isolated == CountDegree(grid, slots, |slots|, 0, 0)
    ensures corner == CountDegree(grid, slots, |slots|, 1, 2)
  {
    isolated, corner := 0, 0;
    var i := 0;
    while i < |slots|
      invariant 0 <= i <= |slots|
      invariant isolated == CountDegree(grid, slots, i, 0, 0)
      invariant corner == CountDegree(grid, slots, i, 1, 2)
    {
      var adjacentCount := AdjacentCount(grid, slots[i]);
      if adjacentCount == 0 {
        isolated := isolated + 1;
      } else if adjacentCount <= 2 {
        corner := corner + 1;
      }
      i := i + 1;
    }
  }

  /**
   * The spanning loop of `test_connectivity`: starting from room 0, at most
   * twice as many passes as rooms, each connecting one more room when it
   * can. It leaves no room unconnected exactly when every room is
   * lattice-reachable from room 0.
   */
  method SpanFromFirstRoom(grid: map<Slot, nat>, slots: seq<Slot>) returns (unconnected: set<nat>)
    requires IsRoomGrid(slots, grid) && |slots| > 0
    ensures unconnected == {} <==> forall i :: 0 <= i < |slots| ==> Reachable(LatticeAdj(grid, slots), 0, i)
  {
    var n := |slots|;
    ghost var adj := LatticeAdj(grid, slots);
    WalkZero(adj, 0);
    var connected: set<nat> := {0};
    unconnected := Below(n) - {0};
    var maxAttempts := n * 2;
    var attempts := 0;
    while unconnected != {} && attempts < maxAttempts
      invariant 0 <= attempts <= maxAttempts
      invariant 0 in connected && unconnected == Below(n) - connected
      invariant forall v :: v in connected ==> v < n && Reachable(adj, 0, v)
      invariant |connected| >= attempts + 1 || Closed(adj, connected)
    {
      attempts := attempts + 1;
      var found;
      connected, unconnected, found := ConnectPass(grid, slots, connected, unconnected);
    }
    if unconnected != {} {
      BoundedSetSize(connected, n);
      assert Closed(adj, connected);
      var i :| i in unconnected;
      forall k: nat
        ensures !WalkOf(adj, 0, i, k)
      {
        ClosedHoldsWalks(adj, 0, connected, i, k);
      }
      assert i in Below(n) && !Reachable(adj, 0, i);
    } else {
      forall i | 0 <= i < n
        ensures Reachable(adj, 0, i)
      {
        assert i in Below(n);
      }
    }
  }

  /**
   * `test_connectivity` over the test rooms' footprint positions: the
   * spanning loop, then the isolated-room and non-corner-room counts.
   */
  method TestConnectivity(positions: seq<(int, int)>) returns (ok: bool)
    ensures ok <==> |positions| < 2 || LayoutConnectable(Slots(positions))
  {
    var n := |positions|;
    if n < 2 {
      return true;
    }
    var slots := Slots(positions);
    var grid := BuildRoomGrid(slots);
    var unconnected := SpanFromFirstRoom(grid, slots);
    if unconnected != {} {
      return false;
    }
    var isolated, corner := CountRoomKinds(grid, slots);
    CountDegreeZero(grid, slots, n, 0, 0);
    CountDegreePartition(grid, slots, n);
    if isolated > 0 {
      return false;
    }
    var nonCorner := n - corner;
    if nonCorner < 5 {
      return false;
    }
    return true;
  }
}
