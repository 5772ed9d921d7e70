/**
 * Hallway carving: writing floor (0) and door (2) tiles into the tilemap
 * between two rooms. Every room's floor starts at tile `rect // 40` and is
 * 14 tiles wide; the carvers treat the tile six in from that corner as the
 * room's centre, and the lattice of room slots is 20 tiles wide.
 *
 * Each carver is a method over the tilemap array whose postcondition gives
 * the new value of every tile as a function of its old value: door tiles
 * become 2, hallway floor becomes 0, every other tile keeps its value.
 */
module Hallways {
  import opened Tiles
  import opened Wrappers
  import opened Rooms

  /** What a carver returns: `[]`, the one-segment placeholder list, or an `IndexError` raised half-way. */
  datatype Outcome = Rejected | Carved | OutOfRange

  function Abs(n: int): nat {
    if n < 0 then -n else n
  }

  /** Top-left floor tile of a room. */
  function FloorOrigin(r: Rect): Cell {
    (r.x / TILE_SIZE, r.y / TILE_SIZE)
  }

  /** The tile the carvers treat as a room's centre: six tiles in from the floor origin. */
  function Centre(r: Rect): Cell {
    (r.x / TILE_SIZE + 6, r.y / TILE_SIZE + 6)
  }

  /** Centre-to-centre offset from the first room to the second, in tiles. */
  function Delta(r1: Rect, r2: Rect): (int, int) {
    (Centre(r2).0 - Centre(r1).0, Centre(r2).1 - Centre(r1).1)
  }

  /** Distance between two rooms counted in lattice slots of 20 tiles: `abs(dx)//20 + abs(dy)//20`. */
  function LatticeDistance(r1: Rect, r2: Rect): nat {
    Abs(Delta(r1, r2).0) / 20 + Abs(Delta(r1, r2).1) / 20
  }

  // ---------------------------------------------------------------------
  // 2-wide runs of floor and 2-tile doors

  /**
   * The tiles a 2-wide run writes: along x from `lo` to `hi` on rows `lane`
   * and `lane + 1` (horizontal), or along y on columns `lane` and `lane + 1`
   * (vertical). A step is written only when both of its tiles are on the
   * grid.
   */
  predicate InRun(w: int, h: int, horizontal: bool, lo: int, hi: int, lane: int, c: Cell) {
    if horizontal then
      lo <= c.0 <= hi && 0 <= c.0 < w && (c.1 == lane || c.1 == lane + 1) && 0 <= lane && lane + 1 < h
    else
      lo <= c.1 <= hi && 0 <= c.1 < h && (c.0 == lane || c.0 == lane + 1) && 0 <= lane && lane + 1 < w
  }

  /** The second tile of a door at `d`: below it when the pair is stacked, to its right otherwise. */
  function Second(stacked: bool, d: Cell): Cell {
    if stacked then (d.0, d.1 + 1) else (d.0 + 1, d.1)
  }

  predicate OnGrid(w: int, h: int, c: Cell) {
    0 <= c.0 < w && 0 <= c.1 < h
  }

  /** `c` is one of the two tiles of a door at `d`. */
  predicate DoorCell(stacked: bool, d: Cell, c: Cell) {
    c == d || c == Second(stacked, d)
  }

  /** The unguarded door writer faults: its first tile is on the grid and its second is not. */
  predicate DoorFaults(w: int, h: int, stacked: bool, d: Cell) {
    OnGrid(w, h, d) && !OnGrid(w, h, Second(stacked, d))
  }

  method CarveRun(g: array2<int>, horizontal: bool, lo: int, hi: int, lane: int)
    modifies g
    ensures forall y, x :: 0 <= y < g.Length0 && 0 <= x < g.Length1 ==>
      g[y, x] == if InRun(g.Length1, g.Length0, horizontal, lo, hi, lane, (x, y)) then FLOOR else old(g[y, x])
  {
    var i := lo;
    while i < hi + 1
      invariant i == lo || lo <= i <= hi + 1
      invariant forall y, x :: 0 <= y < g.Length0 && 0 <= x < g.Length1 ==>
        g[y, x] == if InRun(g.Length1, g.Length0, horizontal, lo, i - 1, lane, (x, y)) then FLOOR else old(g[y, x])
      decreases hi + 1 - i
    {
      if horizontal {
        if 0 <= i < g.Length1 && 0 <= lane < g.Length0 && 0 <= lane + 1 < g.Length0 {
          g[lane, i] := FLOOR;
          g[lane + 1, i] := FLOOR;
        }
      } else {
        if 0 <= lane < g.Length1 && 0 <= lane + 1 < g.Length1 && 0 <= i < g.Length0 {
          g[i, lane] := FLOOR;
          g[i, lane + 1] := FLOOR;
        }
      }
      i := i + 1;
    }
  }

  /** The guarded door writer: both tiles are written only when both are on the grid. */
  method PlaceDoorGuarded(g: array2<int>, stacked: bool, d: Cell)
    modifies g
    ensures forall y, x :: 0 <= y < g.Length0 && 0 <= x < g.Length1 ==>
      g[y, x] == if OnGrid(g.Length1, g.Length0, d) && OnGrid(g.Length1, g.Length0, Second(stacked, d))
                    && DoorCell(stacked, d, (x, y)) then DOOR else old(g[y, x])
  {
    var e := Second(stacked, d);
    if OnGrid(g.Length1, g.Length0, d) && OnGrid(g.Length1, g.Length0, e) {
      g[d.1, d.0] := DOOR;
      g[e.1, e.0] := DOOR;
    }
  }

  /**
   * The door writer of the direct hallway: it tests only the first tile;
   * when the second tile is off the grid the write raises after the first
   * tile is already a door.
   */
  method PlaceDoorUnguarded(g: array2<int>, stacked: bool, d: Cell) returns (fault: bool)
    modifies g
    ensures fault == DoorFaults(g.Length1, g.Length0, stacked, d)
    ensures forall y, x :: 0 <= y < g.Length0 && 0 <= x < g.Length1 ==>
      g[y, x] == if OnGrid(g.Length1, g.Length0, d) && DoorCell(stacked, d, (x, y)) then DOOR else old(g[y, x])
  {
    fault := false;
    if OnGrid(g.Length1, g.Length0, d) {
      g[d.1, d.0] := DOOR;
      var e := Second(stacked, d);
      if OnGrid(g.Length1, g.Length0, e) {
        g[e.1, e.0] := DOOR;
      } else {
        fault := true;
      }
    }
  }

  // ---------------------------------------------------------------------
  // create_direct_hallway

  /**
   * The corridor of a direct hallway: along x (`horizontal`) or y, the run
   * from `lo` to `hi` at `lane`, with a door at each end. Doors of a
   * horizontal corridor are stacked pairs, those of a vertical one side by
   * side.
   */
  datatype DirectPlan = DirectPlan(horizontal: bool, door1: Cell, door2: Cell, lo: int, hi: int, lane: int)

  /**
   * The corridor between two rooms whose centres share a row or a column,
   * and `None` for any other pair. Doors sit in the facing walls, on the
   * seventh and eighth tiles of the wall; the floor run lies strictly
   * between the two doors.
   */
  function DirectPlanOf(r1: Rect, r2: Rect): (p: Option<DirectPlan>)
    ensures p.None? <==> !((Delta(r1, r2).1 == 0 && Delta(r1, r2).0 != 0) || (Delta(r1, r2).0 == 0 && Delta(r1, r2).1 != 0))
    ensures p.Some? ==> p.value.horizontal == (Delta(r1, r2).1 == 0)
    ensures p.Some? && p.value.horizontal ==>
      p.value.door1.1 == p.value.door2.1 == p.value.lane == FloorOrigin(r1).1 + 6 &&
      [p.value.lo - 1, p.value.hi + 1] == if Delta(r1, r2).0 > 0 then [p.value.door1.0, p.value.door2.0] else [p.value.door2.0, p.value.door1.0]
    ensures p.Some? && !p.value.horizontal ==>
      p.value.door1.0 == p.value.door2.0 == p.value.lane == FloorOrigin(r1).0 + 6 &&
      [p.value.lo - 1, p.value.hi + 1] == if Delta(r1, r2).1 > 0 then [p.value.door1.1, p.value.door2.1] else [p.value.door2.1, p.value.door1.1]
  {
    var (dx, dy) := Delta(r1, r2);
    var f1, f2 := FloorOrigin(r1), FloorOrigin(r2);
    if dy == 0 && dx != 0 then
      if dx > 0 then
        var d1, d2 := (f1.0 + 14, f1.1 + 6), (f2.0 - 1, f2.1 + 6);
        Some(DirectPlan(true, d1, d2, d1.0 + 1, d2.0 - 1, d1.1))
      else
        var d1, d2 := (f1.0 - 1, f1.1 + 6), (f2.0 + 14, f2.1 + 6);
        Some(DirectPlan(true, d1, d2, d2.0 + 1, d1.0 - 1, d1.1))
    else if dx == 0 && dy != 0 then
      if dy > 0 then
        var d1, d2 := (f1.0 + 6, f1.1 + 14), (f2.0 + 6, f2.1 - 1);
        Some(DirectPlan(false, d1, d2, d1.1 + 1, d2.1 - 1, d1.0))
      else
        var d1, d2 := (f1.0 + 6, f1.1 - 1), (f2.0 + 6, f2.1 + 14);
        Some(DirectPlan(false, d1, d2, d2.1 + 1, d1.1 - 1, d1.0))
    else
      None
  }

  function Min(a: int, b: int): int { if a <= b then a else b }
  function Max(a: int, b: int): int { if a <= b then b else a }

  /** The door tiles written before the carver completes or raises: door 2 is reached only when door 1 did not raise. */
  predicate DirectDoorTile(p: DirectPlan, w: int, h: int, c: Cell) {
    (OnGrid(w, h, p.door1) && DoorCell(p.horizontal, p.door1, c)) ||
    (!DoorFaults(w, h, p.horizontal, p.door1) && OnGrid(w, h, p.door2) && DoorCell(p.horizontal, p.door2, c))
  }

  /** The tile at `c` after carving plan `p` over a tile holding `v`. */
  function DirectTile(p: DirectPlan, w: int, h: int, c: Cell, v: int): int {
    if DirectDoorTile(p, w, h, c) then DOOR
    else if InRun(w, h, p.horizontal, p.lo, p.hi, p.lane, c) then FLOOR
    else v
  }

  function DirectOutcome(p: DirectPlan, w: int, h: int): Outcome {
    if DoorFaults(w, h, p.horizontal, p.door1) || DoorFaults(w, h, p.horizontal, p.door2) then OutOfRange else Carved
  }

  /**
   * Carves the straight corridor between two rooms aligned on a row or a
   * column; any other pair is rejected with the tilemap untouched.
   */
  method CreateDirectHallway(room1: Room, room2: Room, g: array2<int>) returns (out: Outcome)
    modifies g
    ensures DirectPlanOf(room1.rect, room2.rect).None? ==> out == Rejected && unchanged(g)
    ensures DirectPlanOf(room1.rect, room2.rect).Some? ==>
      var p := DirectPlanOf(room1.rect, room2.rect).value;
      out == DirectOutcome(p, g.Length1, g.Length0) &&
      forall y, x :: 0 <= y < g.Length0 && 0 <= x < g.Length1 ==>
        g[y, x] == DirectTile(p, g.Length1, g.Length0, (x, y), old(g[y, x]))
  {
    var plan := DirectPlanOf(room1.rect, room2.rect);
    if plan.None? {
      return Rejected;
    }
    var p := plan.value;
    CarveRun(g, p.horizontal, p.lo, p.hi, p.lane);
    var fault1 := PlaceDoorUnguarded(g, p.horizontal, p.door1);
    if fault1 {
      return OutOfRange;
    }
    var fault2 := PlaceDoorUnguarded(g, p.horizontal, p.door2);
    out := if fault2 then OutOfRange else Carved;
  }

  /** No door tile of a direct corridor lies on its floor run, so carving writes each tile once. */
  lemma DirectDoorsOffRun(r1: Rect, r2: Rect, w: int, h: int, c: Cell)
    requires DirectPlanOf(r1, r2).Some?
    ensures var p := DirectPlanOf(r1, r2).value;
      (DoorCell(p.horizontal, p.door1, c) || DoorCell(p.horizontal, p.door2, c)) ==>
        !InRun(w, h, p.horizontal, p.lo, p.hi, p.lane, c)
  {
  }

  /** Every write is a constant, so carving a second time leaves the tilemap as the first carve left it. */
  lemma DirectIdempotent(p: DirectPlan, w: int, h: int, c: Cell, v: int)
    ensures DirectTile(p, w, h, c, DirectTile(p, w, h, c, v)) == DirectTile(p, w, h, c, v)
  {
  }

  // ---------------------------------------------------------------------
  // create_l_shaped_hallway

  /** The horizontal leg, at the first room's centre row, spanning both centres' columns. */
  predicate LHorizontalLeg(r1: Rect, r2: Rect, w: int, h: int, c: Cell) {
    var (c1, c2) := (Centre(r1), Centre(r2));
    Delta(r1, r2).0 != 0 && InRun(w, h, true, Min(c1.0, c2.0), Max(c1.0, c2.0), c1.1, c)
  }

  /** The vertical leg, at the second room's centre column, spanning both centres' rows. */
  predicate LVerticalLeg(r1: Rect, r2: Rect, w: int, h: int, c: Cell) {
    var (c1, c2) := (Centre(r1), Centre(r2));
    Delta(r1, r2).1 != 0 && InRun(w, h, false, Min(c1.1, c2.1), Max(c1.1, c2.1), c2.0, c)
  }

  /** The first room's door: in its side wall when the rooms differ in x, else in its top or bottom wall. */
  function LDoor1(r1: Rect, r2: Rect): Option<Cell> {
    var (dx, dy) := Delta(r1, r2);
    var f1 := FloorOrigin(r1);
    if dx != 0 then Some(if dx > 0 then (f1.0 + 14, f1.1 + 6) else (f1.0 - 1, f1.1 + 6))
    else if dy != 0 then Some(if dy > 0 then (f1.0 + 6, f1.1 + 14) else (f1.0 + 6, f1.1 - 1))
    else None
  }

  /** The second room's door: in its top or bottom wall when the rooms differ in y, else in its side wall. */
  function LDoor2(r1: Rect, r2: Rect): Option<Cell> {
    var (dx, dy) := Delta(r1, r2);
    var f2 := FloorOrigin(r2);
    if dy != 0 then Some(if dy > 0 then (f2.0 + 6, f2.1 - 1) else (f2.0 + 6, f2.1 + 14))
    else if dx != 0 then Some(if dx > 0 then (f2.0 - 1, f2.1 + 6) else (f2.0 + 14, f2.1 + 6))
    else None
  }

  /**
   * A door tile of the L-shaped hallway. Door 1 is always a stacked pair;
   * door 2 is stacked for a purely horizontal pair and side by side
   * otherwise. Each pair is written only when both of its tiles are on the
   * grid.
   */
  predicate LDoorTile(r1: Rect, r2: Rect, w: int, h: int, c: Cell) {
    var (d1, d2) := (LDoor1(r1, r2), LDoor2(r1, r2));
    var stacked2 := Delta(r1, r2).1 == 0;
    (d1.Some? && OnGrid(w, h, d1.value) && OnGrid(w, h, Second(true, d1.value)) && DoorCell(true, d1.value, c)) ||
    (d2.Some? && OnGrid(w, h, d2.value) && OnGrid(w, h, Second(stacked2, d2.value)) && DoorCell(stacked2, d2.value, c))
  }

  /** The tile at `c` after the L-shaped carve over a tile holding `v`: doors are written last. */
  function LTile(r1: Rect, r2: Rect, w: int, h: int, c: Cell, v: int): int {
    if LDoorTile(r1, r2, w, h, c) then DOOR
    else if LHorizontalLeg(r1, r2, w, h, c) || LVerticalLeg(r1, r2, w, h, c) then FLOOR
    else v
  }

  /**
   * Carves a horizontal leg then a vertical leg between the two centres,
   * then the two doors; every write is guarded, so the carve never raises.
   */
  method CreateLShapedHallway(room1: Room, room2: Room, g: array2<int>)
    modifies g
    ensures forall y, x :: 0 <= y < g.Length0 && 0 <= x < g.Length1 ==>
      g[y, x] == LTile(room1.rect, room2.rect, g.Length1, g.Length0, (x, y), old(g[y, x]))
  {
    var r1, r2 := room1.rect, room2.rect;
    var c1, c2 := Centre(r1), Centre(r2);
    var (dx, dy) := Delta(r1, r2);
    if dx != 0 {
      CarveRun(g, true, Min(c1.0, c2.0), Max(c1.0, c2.0), c1.1);
    }
    if dy != 0 {
      CarveRun(g, false, Min(c1.1, c2.1), Max(c1.1, c2.1), c2.0);
    }
    var d1, d2 := LDoor1(r1, r2), LDoor2(r1, r2);
    if d1.Some? {
      PlaceDoorGuarded(g, true, d1.value);
    }
    if d2.Some? {
      PlaceDoorGuarded(g, dy == 0, d2.value);
    }
  }

  /** Two rooms at the same centre get no hallway and no door. */
  lemma LSameCentreWritesNothing(r1: Rect, r2: Rect, w: int, h: int, c: Cell, v: int)
    requires Centre(r1) == Centre(r2)
    ensures LTile(r1, r2, w, h, c, v) == v
  {
  }

  // ---------------------------------------------------------------------
  // create_straight_hallway

  /**
   * Chooses the carver from the lattice distance: more than 3 slots apart is
   * rejected untouched; exactly 1 carves a direct corridor; 0, 2 or 3 carve
   * an L. Whenever it does not reject it returns the one-segment list, also
   * when the direct carver itself rejected the pair.
   */
  method CreateStraightHallway(room1: Room, room2: Room, g: array2<int>) returns (out: Outcome)
    modifies g
    ensures LatticeDistance(room1.rect, room2.rect) > 3 ==> out == Rejected && unchanged(g)
    ensures LatticeDistance(room1.rect, room2.rect) <= 3 ==> out != Rejected
    ensures LatticeDistance(room1.rect, room2.rect) == 1 ==>
      match DirectPlanOf(room1.rect, room2.rect)
      case None => out == Carved && unchanged(g)
      case Some(p) =>
        out == DirectOutcome(p, g.Length1, g.Length0) &&
        forall y, x :: 0 <= y < g.Length0 && 0 <= x < g.Length1 ==>
          g[y, x] == DirectTile(p, g.Length1, g.Length0, (x, y), old(g[y, x]))
    ensures LatticeDistance(room1.rect, room2.rect) in {0, 2, 3} ==>
      out == Carved &&
      forall y, x :: 0 <= y < g.Length0 && 0 <= x < g.Length1 ==>
        g[y, x] == LTile(room1.rect, room2.rect, g.Length1, g.Length0, (x, y), old(g[y, x]))
  {
    var distance := LatticeDistance(room1.rect, room2.rect);
    if distance > 3 {
      return Rejected;
    } else if distance == 1 {
      var direct := CreateDirectHallway(room1, room2, g);
      if direct == OutOfRange {
        return OutOfRange;
      }
    } else {
      CreateLShapedHallway(room1, room2, g);
    }
    out := Carved;
  }

  /**
   * Rooms on the 20-tile lattice that are one slot apart share a row or a
   * column, so the direct carver never rejects them.
   */
  lemma LatticeNeighboursAligned(r1: Rect, r2: Rect)
    requires Delta(r1, r2).0 % 20 == 0 && Delta(r1, r2).1 % 20 == 0
    requires LatticeDistance(r1, r2) == 1
    ensures DirectPlanOf(r1, r2).Some?
    ensures Abs(Delta(r1, r2).0) + Abs(Delta(r1, r2).1) == 20
  {
  }
}
