/**
 * `connect_rooms` as a whole: phases 1 and 1.5 (module Connect), the
 * repair pass (module Repair), phase 2 (module PhaseTwo) and the item
 * stamps (module Items), in that order. The hallway segments the generator
 * returns are represented by the number of hallways made.
 */
module ConnectRooms {
  import opened Rooms
  import opened Wrappers
  import opened Lattice
  import opened Links
  import opened LinkState
  import opened Connect
  import opened Repair
  import opened PhaseTwo
  import opened Items

  /** How `connect_rooms` ends. */
  datatype Connection =
    | TooFew                                      // fewer than two rooms: nothing is touched
    | NoSpawn                                     // links cleared, but there is no spawn room
    | IndexError                                  // carving a hallway raised `IndexError`
    | Connected(rooms: seq<Room>, hallways: nat)  // the rooms left in the list, and the hallways made

  /**
   * What the connection phases promise on the rooms they return: links
   * well formed, two entries per hallway, a dead-end room with at most one
   * link, and a dead-end room linked to a spawn room is a spawn room itself
   * or an unlocked chest room.
   */
  ghost predicate Finished(rooms: seq<Room>, made: nat)
    reads rooms`connections, rooms`singleConnection, rooms`roomType
  {
    Distinct(rooms) && WellLinked(rooms) && TotalLinks(rooms) == 2 * made &&
    (forall r :: r in rooms && r.singleConnection ==> |r.connections| <= 1) &&
    (forall r, s ::
       r in rooms && s in rooms && r.singleConnection && r.roomType != Spawn && s in r.connections && s.roomType == Spawn
       ==> r.roomType == ChestUnlocked)
  }

  /** Phase 2's invariant on the rooms' own links and roles is `Finished`. */
  lemma FinishedFromPhaseTwo(rooms: seq<Room>, made: nat, m: map<Room, seq<Room>>)
    requires ConnMap(rooms) == m && PhaseTwoOn(rooms, SinglesOf(rooms), TypesOf(rooms), made, m)
    ensures Finished(rooms, made)
  {
    var ss, ts := SinglesOf(rooms), TypesOf(rooms);
    forall r | r in rooms && r.singleConnection
      ensures |r.connections| <= 1
    {
      var i :| 0 <= i < |rooms| && rooms[i] == r;
      assert ss[i];
    }
    forall r, s | r in rooms && s in rooms && r.singleConnection && r.roomType != Spawn &&
                  s in r.connections && s.roomType == Spawn
      ensures r.roomType == ChestUnlocked
    {
      var i :| 0 <= i < |rooms| && rooms[i] == r;
      var j :| 0 <= j < |rooms| && rooms[j] == s;
      assert ss[i] && ts[i] != Spawn && ts[j] == Spawn && rooms[j] in m[rooms[i]];
    }
  }

  /** The item stamps, which touch only the tile grid: the rooms' slots, flags, roles and links stay as they were. */
  method StampItems(rooms: seq<Room>, g: array2<int>, ghost ks: seq<Slot>, ghost ss: seq<bool>, ghost ts: seq<RoomType>,
                    ghost m: map<Room, seq<Room>>)
    requires GridSlots(rooms) == ks && SinglesOf(rooms) == ss && TypesOf(rooms) == ts && ConnMap(rooms) == m
    modifies g
    ensures GridSlots(rooms) == ks && SinglesOf(rooms) == ss && TypesOf(rooms) == ts && ConnMap(rooms) == m
  {
    PlaceSpecialRoomItems(rooms, g);
  }

  /** `get_room_grid_pos` of every room, in list order. */
  function RectSlots(rooms: seq<Room>): (slots: seq<Slot>)
    ensures |slots| == |rooms| && forall i :: 0 <= i < |rooms| ==> slots[i] == RectSlot(rooms[i].rect)
  {
    seq(|rooms|, i requires 0 <= i < |rooms| => RectSlot(rooms[i].rect))
  }

  /** `room.connections = []` for every room. */
  method ResetLinks(rooms: seq<Room>)
    modifies rooms`connections
    ensures forall r :: r in rooms ==> r.connections == []
  {
    for i := 0 to |rooms|
      invariant forall j :: 0 <= j < i ==> rooms[j].connections == []
    {
      rooms[i].connections := [];
    }
  }

  /**
   * After phase 1.5 the rooms left in the list are ready for the repair
   * pass, with the same first spawn room, and are rooms of the list.
   */
  lemma SurvivorsFinishPhaseOne(rooms: seq<Room>, spawn: Room, connected: set<Room>, unconnected: set<Room>,
                                made: nat, m: map<Room, seq<Room>>)
    requires ConnMap(rooms) == m && PhaseOneOn(rooms, spawn, connected, unconnected, made, m)
    requires FirstSpawn(rooms) == Some(spawn)
    ensures var s := Survivors(rooms, connected, unconnected);
      (forall r :: r in s ==> r in rooms) &&
      ReadyOn(s, spawn, made, ConnMap(s)) && FirstSpawn(s) == Some(spawn)
  {
    var s := Survivors(rooms, connected, unconnected);
    SurvivorsReady(rooms, spawn, connected, unconnected, made, m);
    ReadyAgree(s, spawn, made, m, ConnMap(s));
    if |connected| - 1 >= TARGET_NORMAL_ROOMS && unconnected != {} {
      DropKeepsSpawn(rooms, spawn, connected, unconnected, made, m, Stranded(unconnected));
    }
  }

  /**
   * Phases 1 and 1.5 from the first spawn room: the spanning phase, then,
   * when rooms are left waiting, the forced connections and the deletion
   * of the waiting rooms that are not dead ends (`rebuilt` says the room
   * grid must be rebuilt). The surviving rooms are ready for the repair
   * pass, with the same first spawn room.
   */
  method LinkNormalRooms(rooms: seq<Room>, spawn: Room, g: array2<int>)
    returns (survivors: seq<Room>, made: nat, ok: bool, rebuilt: bool)
    requires Distinct(rooms) && FirstSpawn(rooms) == Some(spawn)
    requires forall r :: r in rooms ==> r.connections == []
    modifies g, rooms`connections
    ensures forall i :: 0 <= i < |survivors| ==> survivors[i] in rooms
    ensures !rebuilt ==> survivors == rooms
    ensures ok ==> ReadyOn(survivors, spawn, made, ConnMap(survivors)) && FirstSpawn(survivors) == Some(spawn)
  {
    var connected, unconnected;
    ghost var m;
    connected, unconnected, made, ok, m := SpanningPhase(rooms, spawn, g);
    survivors, rebuilt := rooms, false;
    if !ok {
      return;
    }
    if unconnected != {} {
      rebuilt := true;
      connected, unconnected, made, ok, m := ForceConnect(rooms, spawn, g, connected, unconnected, made, m);
      if !ok {
        return;
      }
    }
    SurvivorsFinishPhaseOne(rooms, spawn, connected, unconnected, made, m);
    survivors := Survivors(rooms, connected, unconnected);
  }

  /**
   * The repair pass, from the first spawn room, as phase 2 sees it: the
   * rooms keep their positions, the spawn room stays a spawn room, phase
   * 2's invariant holds, and `grid'` is the room grid given, or that grid
   * updated with every room when rooms were moved.
   */
  method RepairForPhaseTwo(rooms: seq<Room>, spawn: Room, grid: map<Slot, nat>, g: array2<int>, made0: nat,
                           ghost ks: seq<Slot>)
    returns (grid': map<Slot, nat>, ghost start: map<Room, seq<Room>>)
    requires forall key :: key in grid ==> grid[key] < |rooms|
    requires FirstSpawn(rooms) == Some(spawn) && ReadyOn(rooms, spawn, made0, ConnMap(rooms))
    requires GridSlots(rooms) == ks
    modifies rooms`roomType, rooms`singleConnection, rooms`connections
    ensures spawn.roomType == Spawn && GridSlots(rooms) == ks
    ensures (grid' == grid || grid' == grid + RoomGridOf(ks)) && forall key :: key in grid' ==> grid'[key] < |rooms|
    ensures ConnMap(rooms) == start && PhaseTwoOn(rooms, SinglesOf(rooms), TypesOf(rooms), made0, start)
  {
    var k, ds, placed;
    k, ds, placed, grid', start := RepairSpecialRooms(rooms, grid, g, made0, ConnMap(rooms));
    SlotsKept(rooms);
    ReadyPhaseTwo(rooms, k.value, made0, start, TypesOf(rooms));
  }

  /**
   * The repair pass and phase 2, from the first spawn room, on rooms at
   * the slots `ks`. `used` is the room grid phase 2 consulted, as
   * `RepairForPhaseTwo` says, and `start` the links phase 2 began with.
   * Unless a hallway raised `IndexError`, phase 2's invariant holds at the
   * end, every room is `Attempted` under `used`, and phase 2 only appended
   * to the lists in `start`.
   */
  method RepairAndLink(rooms: seq<Room>, spawn: Room, grid: map<Slot, nat>, g: array2<int>, made0: nat,
                       ghost ks: seq<Slot>)
    returns (made: nat, ok: bool, ghost m: map<Room, seq<Room>>, ghost used: map<Slot, nat>,
             ghost start: map<Room, seq<Room>>)
    requires forall key :: key in grid ==> grid[key] < |rooms|
    requires FirstSpawn(rooms) == Some(spawn) && ReadyOn(rooms, spawn, made0, ConnMap(rooms))
    requires GridSlots(rooms) == ks
    modifies g, rooms`roomType, rooms`singleConnection, rooms`connections
    ensures spawn.roomType == Spawn && GridSlots(rooms) == ks
    ensures used == grid || used == grid + RoomGridOf(ks)
    ensures ok ==> ConnMap(rooms) == m && PhaseTwoOn(rooms, SinglesOf(rooms), TypesOf(rooms), made, m)
    ensures ok ==> PhaseTwoDone(rooms, ks, used) && Extends(start, m)
  {
    var grid';
    grid', start := RepairForPhaseTwo(rooms, spawn, grid, g, made0, ks);
    made, ok, m := LinkDeadEnds(rooms, grid', g, made0, ks, start);
    used := grid';
  }

  /**
   * From the repair pass on, on rooms at the slots `ks`: the repair pass,
   * phase 2 and the item stamps. Either a hallway raised `IndexError`, or
   * the rooms are `Finished`, the first spawn room is still a spawn room,
   * and every room is `Attempted` under the room grid phase 2 consulted
   * (`used`, as in `RepairAndLink`).
   */
  method FinishRooms(rooms: seq<Room>, spawn: Room, grid: map<Slot, nat>, g: array2<int>, made0: nat,
                     ghost ks: seq<Slot>)
    returns (res: Connection, ghost used: map<Slot, nat>)
    requires forall key :: key in grid ==> grid[key] < |rooms|
    requires FirstSpawn(rooms) == Some(spawn) && ReadyOn(rooms, spawn, made0, ConnMap(rooms))
    requires GridSlots(rooms) == ks
    modifies g, rooms`roomType, rooms`singleConnection, rooms`connections
    ensures res == IndexError || (res.Connected? && res.rooms == rooms && Finished(rooms, res.hallways))
    ensures spawn.roomType == Spawn && GridSlots(rooms) == ks
    ensures used == grid || used == grid + RoomGridOf(ks)
    ensures res.Connected? ==> PhaseTwoDone(rooms, ks, used)
  {
    var made, ok;
    ghost var m, start;
    made, ok, m, used, start := RepairAndLink(rooms, spawn, grid, g, made0, ks);
    if !ok {
      return IndexError, used;
    }
    StampItems(rooms, g, ks, SinglesOf(rooms), TypesOf(rooms), m);
    FinishedFromPhaseTwo(rooms, made, m);
    res := Connected(rooms, made);
  }

  /**
   * After phases 1 and 1.5, on the surviving rooms: the room grid rebuilt
   * from their positions when 1.5 deleted rooms, then the rest. `used` is
   * the room grid phase 2 consulted: the one given or the rebuilt one,
   * either of them updated with every surviving room when the repair pass
   * moved rooms.
   */
  method FinishSurvivors(survivors: seq<Room>, spawn: Room, grid: map<Slot, nat>, g: array2<int>, made: nat,
                         rebuilt: bool)
    returns (res: Connection, ghost used: map<Slot, nat>)
    requires !rebuilt ==> forall key :: key in grid ==> grid[key] < |survivors|
    requires ReadyOn(survivors, spawn, made, ConnMap(survivors)) && FirstSpawn(survivors) == Some(spawn)
    modifies g, survivors`connections, survivors`roomType, survivors`singleConnection
    ensures res == IndexError || (res.Connected? && res.rooms == survivors && Finished(survivors, res.hallways))
    ensures spawn.roomType == Spawn
    ensures res.Connected? ==>
      var ks := GridSlots(survivors);
      PhaseTwoDone(survivors, ks, used) &&
      (used == grid || used == grid + RoomGridOf(ks) || used == RoomGridOf(ks))
  {
    ghost var ks := GridSlots(survivors);
    var grid' := grid;
    if rebuilt {
      grid' := BuildRoomGrid(GridSlots(survivors));
    }
    res, used := FinishRooms(survivors, spawn, grid', g, made, ks);
    if rebuilt {
      UpdateWithItself(ks);
    }
  }

  /**
   * `connect_rooms` once the links are cleared and the first spawn room
   * `spawn` is found: phases 1 and 1.5, then the rest on the surviving
   * rooms, as `FinishSurvivors` says.
   */
  method ConnectFrom(rooms: seq<Room>, spawn: Room, grid: map<Slot, nat>, g: array2<int>)
    returns (res: Connection, ghost used: map<Slot, nat>)
    requires Distinct(rooms) && FirstSpawn(rooms) == Some(spawn)
    requires forall r :: r in rooms ==> r.connections == []
    requires forall key :: key in grid ==> grid[key] < |rooms|
    modifies g, rooms`connections, rooms`roomType, rooms`singleConnection
    ensures res == IndexError || res.Connected?
    ensures res.Connected? ==>
      (forall r :: r in res.rooms ==> r in rooms) && spawn in res.rooms && spawn.roomType == Spawn &&
      Finished(res.rooms, res.hallways)
    ensures res.Connected? ==>
      var ks := GridSlots(res.rooms);
      PhaseTwoDone(res.rooms, ks, used) &&
      (used == grid || used == grid + RoomGridOf(ks) || used == RoomGridOf(ks))
  {
    var survivors, made, ok, rebuilt := LinkNormalRooms(rooms, spawn, g);
    if !ok {
      return IndexError, grid;
    }
    res, used := FinishSurvivors(survivors, spawn, grid, g, made, rebuilt);
  }

  /**
   * `connect_rooms`. With fewer than two rooms nothing happens; otherwise
   * every link is cleared and, when there is no spawn room, nothing else
   * changes; when there is one, the phases run
   * from the first one. A completed run returns the rooms left in the list,
   * among them that spawn room, `Finished` with the hallways made, and
   * every room `Attempted` by phase 2 under the room grid it consulted:
   * the grid of the rooms' rectangles or of the survivors' positions,
   * possibly updated with the survivors' positions.
   */
  method ConnectAll(rooms: seq<Room>, g: array2<int>) returns (res: Connection, ghost used: map<Slot, nat>)
    requires Distinct(rooms)
    modifies g, rooms`connections, rooms`roomType, rooms`singleConnection
    ensures res == TooFew <==> |rooms| < 2
    ensures res == TooFew ==>
      unchanged(g) &&
      forall r :: r in rooms ==>
        r.connections == old(r.connections) && r.roomType == old(r.roomType) &&
        r.singleConnection == old(r.singleConnection)
    ensures res == NoSpawn <==> |rooms| >= 2 && old(FirstSpawn(rooms)).None?
    ensures res == NoSpawn ==>
      unchanged(g) &&
      forall r :: r in rooms ==>
        r.connections == [] && r.roomType == old(r.roomType) && r.singleConnection == old(r.singleConnection)
    ensures res.Connected? ==>
      (forall r :: r in res.rooms ==> r in rooms) && old(FirstSpawn(rooms)).Some? &&
      old(FirstSpawn(rooms)).value in res.rooms && old(FirstSpawn(rooms)).value.roomType == Spawn &&
      Finished(res.rooms, res.hallways)
    ensures res.Connected? ==>
      var rectGrid, posGrid := RoomGridOf(RectSlots(rooms)), RoomGridOf(GridSlots(res.rooms));
      PhaseTwoDone(res.rooms, GridSlots(res.rooms), used) &&
      (used == rectGrid || used == rectGrid + posGrid || used == posGrid)
  {
    used := map[];
    if |rooms| < 2 {
      return TooFew, used;
    }
    ghost var first := FirstSpawn(rooms);
    ResetLinks(rooms);
    var grid := BuildRoomGrid(RectSlots(rooms));
    var k := FindSpawn(rooms);
    assert FirstSpawn(rooms) == first;
    if k.None? {
      return NoSpawn, used;
    }
    var spawn := rooms[k.value];
    res, used := ConnectFrom(rooms, spawn, grid, g);
    assert first == Some(spawn);
  }
}
