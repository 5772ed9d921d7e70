/**
 * The room record every stage of the generator reads and updates in place:
 * its floor rectangle, its role, whether it is a dead-end ("single
 * connection") room, the rooms it is hallway-linked to, and the lattice
 * placement the generator attaches to it.
 */
module Rooms {
  import opened Tiles

  /** The role strings "normal", "spawn", "boss", "shop", "chest_unlocked", "chest_locked". */
  datatype RoomType = Normal | Spawn | Boss | Shop | ChestUnlocked | ChestLocked {
    /** `room_type.startswith("chest")` */
    predicate IsChest() {
      ChestUnlocked? || ChestLocked?
    }

    /** The roles that must be dead ends: boss, shop and both chest kinds. */
    predicate IsSpecial() {
      Boss? || Shop? || IsChest()
    }
  }

  class Room {
    /** The floor rectangle in pixels; the generator never replaces it. */
    const rect: Rect
    var revealed: bool
    var roomType: RoomType
    /** Set for the roles that may have only one hallway. */
    var singleConnection: bool
    /** The rooms this one is hallway-linked to, in the order the links were made. */
    var connections: seq<Room>
    /** Top-left tile of the room's 16x16 footprint, attached by the generator after construction. */
    var gridX: int
    var gridY: int

    /**
     * A room whose rectangle is exactly `(x, y, w, h)`, not revealed, not a
     * dead end, with no connections, and of the given role ("normal" when
     * none is given).
     */
    constructor (x: int, y: int, w: int, h: int, roomType: RoomType := Normal)
      ensures rect == Rect(x, y, w, h) && rect.Right() == x + w && rect.Bottom() == y + h
      ensures this.roomType == roomType
      ensures !revealed && !singleConnection && connections == []
      ensures gridX == 0 && gridY == 0
    {
      rect := Rect(x, y, w, h);
      revealed := false;
      this.roomType := roomType;
      singleConnection := false;
      connections := [];
      gridX, gridY := 0, 0;
    }
  }

  /** The roles of a list of rooms, in list order. */
  function TypesOf(rooms: seq<Room>): (ts: seq<RoomType>)
    reads rooms
    ensures |ts| == |rooms|
    ensures forall i :: 0 <= i < |rooms| ==> ts[i] == rooms[i].roomType
  {
    seq(|rooms|, i requires 0 <= i < |rooms| reads rooms => rooms[i].roomType)
  }

  /** The dead-end flags of a list of rooms, in list order. */
  function SinglesOf(rooms: seq<Room>): (ss: seq<bool>)
    reads rooms`singleConnection
    ensures |ss| == |rooms|
    ensures forall i :: 0 <= i < |rooms| ==> ss[i] == rooms[i].singleConnection
  {
    if rooms == [] then [] else SinglesOf(rooms[..|rooms| - 1]) + [rooms[|rooms| - 1].singleConnection]
  }

  /** Rooms whose flags and roles did not change keep their snapshots. */
  twostate lemma FlagsKept(rooms: seq<Room>)
    requires forall r :: r in rooms ==> old(r.singleConnection) == r.singleConnection && old(r.roomType) == r.roomType
    ensures SinglesOf(rooms) == old(SinglesOf(rooms)) && TypesOf(rooms) == old(TypesOf(rooms))
  {
  }

  /** No room object occurs twice in the list. */
  predicate Distinct(rooms: seq<Room>) {
    forall i, j :: 0 <= i < j < |rooms| ==> rooms[i] != rooms[j]
  }

  /** Number of occurrences of `x` in `s`. */
  function Count<T(==)>(s: seq<T>, x: T): nat {
    multiset(s)[x]
  }
}
