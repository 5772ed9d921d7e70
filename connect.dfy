/**
 * `connect_rooms`: links the rooms by hallways. Phase 1 grows a spanning
 * set from the spawn room over the lattice, one adjacent room at a time;
 * phase 1.5 force-links what is left to the closest linked room and may
 * drop the rooms that stay unlinked; the repair pass moves unreachable
 * dead-end rooms; phase 2 links each dead-end room to one qualifying neighbour, if any.
 *
 * Every link is made between a room with no links yet and some other room,
 * so the links stay well formed (`Links.WellLinked`) and each hallway adds
 * exactly two list entries. A dead-end room never gets a second link.
 */
module Connect {
  import opened Tiles
  import opened Rooms
  import opened Wrappers
  import opened Hallways
  import opened Lattice
  import opened Links
  import opened LinkState

  /** `get_room_grid_pos`: the slot of a pixel rectangle, 20 tiles of 40 pixels per slot. */
  function RectSlot(r: Rect): Slot {
    (r.x / (SPACING * TILE_SIZE), r.y / (SPACING * TILE_SIZE))
  }

  /** Manhattan distance between two slots. */
  function SlotDistance(a: Slot, b: Slot): nat {
    Abs(a.0 - b.0) + Abs(a.1 - b.1)
  }

  /** The guard of every phase: a dead-end room that already has a hallway takes no other. */
  predicate Saturated(c: Room)
    reads c`singleConnection, c`connections
  {
    c.singleConnection && |c.connections| >= 1
  }

  /**
   * `create_straight_hallway(a, b, tilemap)` and, when it gives back a
   * hallway, `a.connections.append(b); b.connections.append(a)`. An
   * `OutOfRange` outcome is the `IndexError` that aborts the whole pass.
   */
  method CarveAndLink(rooms: seq<Room>, a: Room, b: Room, g: array2<int>) returns (out: Outcome)
    requires a != b && a in rooms && b in rooms
    modifies g, a`connections, b`connections
    ensures out == Rejected <==> LatticeDistance(a.rect, b.rect) > 3
    ensures out == Carved ==> ConnMap(rooms) == Joined(old(ConnMap(rooms)), a, b)
    ensures out != Carved ==> ConnMap(rooms) == old(ConnMap(rooms))
  {
    out := CreateStraightHallway(a, b, g);
    if out == Carved {
      Link(rooms, a, b);
    }
  }

  // ---------------------------------------------------------------- phase 1

  /** What one scan of phase 1 found: nothing, a new hallway from `room` to `partner`, or an `IndexError`. */
  datatype Scan = NoHallway | Bridged(room: Room, partner: Room) | Raised

  /**
   * No linked room that is unsaturated under the lists `m` and one slot
   * from `u` is close enough for a hallway: every such attempt is refused.
   */
  ghost predicate NoPartner(u: Room, connected: set<Room>, m: map<Room, seq<Room>>)
    reads u`gridX, u`gridY, connected`singleConnection, connected`gridX, connected`gridY
  {
    forall c ::
      (c in connected && c in m && !(c.singleConnection && |m[c]| >= 1) && SlotDistance(GridSlot(u), GridSlot(c)) == 1)
      ==> LatticeDistance(u.rect, c.rect) > 3
  }

  /**
   * Strategy 1 has looked at every room of `visited` without finding a
   * hallway: a visited room is still waiting iff it is not a dead end, and
   * none that is still waiting has a partner (`NoPartner`).
   */
  ghost predicate Sifted(visited: set<Room>, unconnected: set<Room>, connected: set<Room>, m: map<Room, seq<Room>>)
    reads visited`singleConnection, visited`gridX, visited`gridY,
      connected`singleConnection, connected`gridX, connected`gridY
  {
    forall u :: u in visited ==>
      (u in unconnected <==> !u.singleConnection) && (u in unconnected ==> NoPartner(u, connected, m))
  }

  /** Looking at one more waiting room, with the outcome `ScanWaiting` gives on no hallway, keeps `Sifted`. */
  lemma SiftedStep(visited: set<Room>, unconnected: set<Room>, unconnected': set<Room>, connected: set<Room>,
                   m: map<Room, seq<Room>>, u: Room)
    requires Sifted(visited, unconnected, connected, m) && u !in visited
    requires u.singleConnection ==> unconnected' == unconnected - {u}
    requires !u.singleConnection ==> u in unconnected && unconnected' == unconnected && NoPartner(u, connected, m)
    ensures Sifted(visited + {u}, unconnected', connected, m)
  {
  }

  /**
   * The inner loop of strategy 1: try the linked rooms, in any order, for
   * one that is not saturated, sits one slot from `u` and takes a hallway.
   * The search is complete: it ends without a hallway only when every
   * candidate was refused.
   */
  method ScanConnected(rooms: seq<Room>, g: array2<int>, u: Room, connected: set<Room>) returns (res: Scan)
    requires u in rooms && u !in connected && forall c :: c in connected ==> c in rooms
    modifies g, rooms`connections
    ensures res.Bridged? ==>
      res.room == u && res.partner in connected && !old(Saturated(res.partner)) &&
      SlotDistance(GridSlot(u), GridSlot(res.partner)) == 1 &&
      LatticeDistance(u.rect, res.partner.rect) <= 3 &&
      ConnMap(rooms) == Joined(old(ConnMap(rooms)), u, res.partner)
    ensures !res.Bridged? ==> ConnMap(rooms) == old(ConnMap(rooms))
    ensures res.NoHallway? ==> NoPartner(u, connected, old(ConnMap(rooms)))
  {
    var todo := connected;
    while todo != {}
      invariant todo <= connected
      invariant ConnMap(rooms) == old(ConnMap(rooms))
      invariant NoPartner(u, connected - todo, old(ConnMap(rooms)))
      decreases |todo|
    {
      var c :| c in todo;
      todo := todo - {c};
      if Saturated(c) {
        continue;
      }
      if SlotDistance(GridSlot(u), GridSlot(c)) == 1 {
        var out := CarveAndLink(rooms, u, c, g);
        if out == Carved {
          return Bridged(u, c);
        } else if out == OutOfRange {
          return Raised;
        }
      }
    }
    return NoHallway;
  }

  /** Two slots in the same column or the same row. */
  predicate Aligned(a: Slot, b: Slot) {
    a.0 == b.0 || a.1 == b.1
  }

  /** A pair strategy 2 may bridge: a waiting room that is not a dead end and an unsaturated linked room one slot away in line. */
  predicate Bridgeable(u: Room, c: Room, connected: set<Room>, unconnected: set<Room>)
    reads u, c
  {
    u in unconnected && !u.singleConnection && c in connected && !Saturated(c) &&
    Aligned(GridSlot(u), GridSlot(c)) && SlotDistance(GridSlot(u), GridSlot(c)) == 1
  }

  /**
   * The search of strategy 2: the first pair met, in set order, at aligned
   * distance 1 (no later pair can be strictly closer), if there is one.
   */
  method FindBridge(connected: set<Room>, unconnected: set<Room>) returns (pair: Option<(Room, Room)>)
    ensures pair.Some? ==> Bridgeable(pair.value.0, pair.value.1, connected, unconnected)
    ensures pair.None? ==> forall u: Room, c: Room :: u in unconnected && c in connected ==> !Bridgeable(u, c, connected, unconnected)
  {
    pair := None;
    var us := unconnected;
    while us != {}
      invariant us <= unconnected
      invariant pair.Some? ==> Bridgeable(pair.value.0, pair.value.1, connected, unconnected)
      invariant pair.None? ==> forall u: Room, c: Room :: u in unconnected - us && c in connected ==> !Bridgeable(u, c, connected, unconnected)
      decreases |us|
    {
      var u :| u in us;
      us := us - {u};
      if u.singleConnection {
        continue;
      }
      var cs := connected;
      while cs != {}
        invariant cs <= connected
        invariant pair.Some? ==> Bridgeable(pair.value.0, pair.value.1, connected, unconnected)
        invariant pair.None? ==> forall u': Room, c: Room :: u' in unconnected - us - {u} && c in connected ==> !Bridgeable(u', c, connected, unconnected)
        invariant pair.None? ==> forall c :: c in connected - cs ==> !Bridgeable(u, c, connected, unconnected)
        decreases |cs|
      {
        var c :| c in cs;
        cs := cs - {c};
        if Saturated(c) {
          continue;
        }
        var d := SlotDistance(GridSlot(u), GridSlot(c));
        if Aligned(GridSlot(u), GridSlot(c)) && d == 1 && pair.None? {
          pair := Some((u, c));
        }
      }
    }
  }

  /**
   * Strategy 1 for one waiting room `u`: a dead end is dropped from the
   * waiting set; any other room is moved across by a hallway to an
   * adjacent linked room, when one takes it.
   */
  method ScanWaiting(rooms: seq<Room>, spawn: Room, g: array2<int>, u: Room, connected0: set<Room>,
                     unconnected0: set<Room>, made0: nat, ghost m0: map<Room, seq<Room>>)
    returns (res: Scan, connected: set<Room>, unconnected: set<Room>, made: nat, ghost m: map<Room, seq<Room>>)
    requires ConnMap(rooms) == m0 && PhaseOneOn(rooms, spawn, connected0, unconnected0, made0, m0)
    requires u in unconnected0
    modifies g, rooms`connections
    ensures ConnMap(rooms) == m
    ensures !res.Raised? ==> PhaseOneOn(rooms, spawn, connected, unconnected, made, m)
    ensures res.Bridged? ==>
      res.room == u && !u.singleConnection && res.partner in connected0 &&
      !(res.partner.singleConnection && |m0[res.partner]| >= 1) &&
      SlotDistance(GridSlot(u), GridSlot(res.partner)) == 1 &&
      connected == connected0 + {u} && unconnected == unconnected0 - {u} && made == made0 + 1 &&
      m == Joined(m0, u, res.partner)
    ensures !res.Bridged? ==> connected == connected0 && made == made0 && m == m0
    ensures u.singleConnection ==> res.NoHallway? && unconnected == unconnected0 - {u}
    ensures !u.singleConnection && !res.Bridged? ==> unconnected == unconnected0
    ensures !u.singleConnection && res.NoHallway? ==> NoPartner(u, connected0, m0)
  {
    connected, unconnected, made, m := connected0, unconnected0, made0, m0;
    if u.singleConnection {
      PhaseOneDrop(rooms, spawn, connected, unconnected, made, m0, unconnected - {u});
      return NoHallway, connected, unconnected - {u}, made, m;
    }
    res := ScanConnected(rooms, g, u, connected);
    if res.Bridged? {
      PhaseOneJoin(rooms, spawn, connected, unconnected, made, m0, u, res.partner);
      connected, unconnected, made, m := connected + {u}, unconnected - {u}, made + 1, Joined(m0, u, res.partner);
    }
  }

  /**
   * Strategy 1 of one phase-1 pass: the waiting rooms in any order; a dead
   * end among them is dropped from the set; the first that takes a hallway
   * to an adjacent unsaturated linked room moves across and ends the pass.
   * `m0` and `m` are the lists before and after.
   */
  method Strategy1(rooms: seq<Room>, spawn: Room, g: array2<int>, connected0: set<Room>, unconnected0: set<Room>,
                   made0: nat, ghost m0: map<Room, seq<Room>>)
    returns (res: Scan, connected: set<Room>, unconnected: set<Room>, made: nat, ghost m: map<Room, seq<Room>>)
    requires ConnMap(rooms) == m0 && PhaseOneOn(rooms, spawn, connected0, unconnected0, made0, m0)
    modifies g, rooms`connections
    ensures ConnMap(rooms) == m
    ensures !res.Raised? ==> PhaseOneOn(rooms, spawn, connected, unconnected, made, m)
    ensures unconnected <= unconnected0
    ensures res.Bridged? ==>
      res.room in unconnected0 && !res.room.singleConnection && res.partner in connected0 &&
      !(res.partner.singleConnection && |m0[res.partner]| >= 1) &&
      SlotDistance(GridSlot(res.room), GridSlot(res.partner)) == 1 &&
      connected == connected0 + {res.room} && made == made0 + 1 && m == Joined(m0, res.room, res.partner)
    ensures !res.Bridged? ==> connected == connected0 && made == made0 && m == m0
    ensures res.NoHallway? ==> Sifted(unconnected0, unconnected, connected0, m0)
  {
    connected, unconnected, made, m := connected0, unconnected0, made0, m0;
    var todo := unconnected0;
    while todo != {}
      invariant todo <= unconnected <= unconnected0
      invariant connected == connected0 && made == made0 && m == m0 && ConnMap(rooms) == m0
      invariant PhaseOneOn(rooms, spawn, connected, unconnected, made, m0)
      invariant Sifted(unconnected0 - todo, unconnected, connected0, m0)
      decreases |todo|
    {
      var u :| u in todo;
      ghost var before := unconnected;
      res, connected, unconnected, made, m := ScanWaiting(rooms, spawn, g, u, connected, unconnected, made, m0);
      if !res.NoHallway? {
        return;
      }
      SiftedStep(unconnected0 - todo, before, unconnected, connected0, m0, u);
      assert unconnected0 - (todo - {u}) == (unconnected0 - todo) + {u};
      todo := todo - {u};
    }
    res := NoHallway;
  }

  /**
   * A hallway attempt from waiting room `u` to linked room `c`: when it is
   * carved, `u` moves across and phase 1's invariant is kept.
   */
  method JoinWaiting(rooms: seq<Room>, spawn: Room, g: array2<int>, u: Room, c: Room, connected0: set<Room>,
                     unconnected0: set<Room>, made0: nat, ghost m0: map<Room, seq<Room>>)
    returns (out: Outcome, connected: set<Room>, unconnected: set<Room>, made: nat, ghost m: map<Room, seq<Room>>)
    requires ConnMap(rooms) == m0 && PhaseOneOn(rooms, spawn, connected0, unconnected0, made0, m0)
    requires u in unconnected0 && !u.singleConnection && c in connected0 && !(c.singleConnection && |m0[c]| >= 1)
    modifies g, rooms`connections
    ensures ConnMap(rooms) == m
    ensures out != OutOfRange ==> PhaseOneOn(rooms, spawn, connected, unconnected, made, m)
    ensures out == Rejected <==> LatticeDistance(u.rect, c.rect) > 3
    ensures out == Carved ==>
      connected == connected0 + {u} && unconnected == unconnected0 - {u} && made == made0 + 1 && m == Joined(m0, u, c)
    ensures out != Carved ==> connected == connected0 && unconnected == unconnected0 && made == made0 && m == m0
  {
    connected, unconnected, made, m := connected0, unconnected0, made0, m0;
    out := CarveAndLink(rooms, u, c, g);
    if out == Carved {
      PhaseOneJoin(rooms, spawn, connected, unconnected, made, m0, u, c);
      connected, unconnected, made, m := connected + {u}, unconnected - {u}, made + 1, Joined(m0, u, c);
    }
  }

  /**
   * Strategy 2: bridge the pair `FindBridge` picks, if any. `ok` is false
   * when the hallway raised `IndexError`; `m` is the lists afterwards.
   */
  method Strategy2(rooms: seq<Room>, spawn: Room, g: array2<int>, connected0: set<Room>, unconnected0: set<Room>,
                   made0: nat, ghost m0: map<Room, seq<Room>>)
    returns (connected: set<Room>, unconnected: set<Room>, made: nat, ok: bool, ghost m: map<Room, seq<Room>>)
    requires ConnMap(rooms) == m0 && PhaseOneOn(rooms, spawn, connected0, unconnected0, made0, m0)
    modifies g, rooms`connections
    ensures ConnMap(rooms) == m
    ensures ok ==> PhaseOneOn(rooms, spawn, connected, unconnected, made, m)
  {
    connected, unconnected, made, ok, m := connected0, unconnected0, made0, true, m0;
    var pair := FindBridge(connected, unconnected);
    if pair.Some? {
      var out;
      out, connected, unconnected, made, m := JoinWaiting(rooms, spawn, g, pair.value.0, pair.value.1, connected, unconnected, made, m);
      ok := out != OutOfRange;
    }
  }

  /**
   * One pass of phase 1: strategy 1 and, when it linked nothing and this is
   * a tenth pass, strategy 2. A room that gets linked moves from waiting to
   * linked; `ok` is false when a hallway raised `IndexError`.
   */
  method SpanPass(rooms: seq<Room>, spawn: Room, g: array2<int>, connected0: set<Room>, unconnected0: set<Room>,
                  made0: nat, attempts: nat, ghost m0: map<Room, seq<Room>>)
    returns (connected: set<Room>, unconnected: set<Room>, made: nat, ok: bool, ghost m: map<Room, seq<Room>>)
    requires ConnMap(rooms) == m0 && PhaseOneOn(rooms, spawn, connected0, unconnected0, made0, m0)
    modifies g, rooms`connections
    ensures ConnMap(rooms) == m
    ensures ok ==> PhaseOneOn(rooms, spawn, connected, unconnected, made, m)
  {
    var res;
    res, connected, unconnected, made, m := Strategy1(rooms, spawn, g, connected0, unconnected0, made0, m0);
    ok := !res.Raised?;
    if res.NoHallway? && attempts % 10 == 0 {
      connected, unconnected, made, ok, m := Strategy2(rooms, spawn, g, connected, unconnected, made, m);
    }
  }

  /**
   * Phase 1: up to 200 passes while rooms are waiting, starting from the
   * spawn room alone and every room that is neither a dead end nor a spawn
   * room waiting. `ok` is false when a hallway raised `IndexError`.
   */
  method SpanningPhase(rooms: seq<Room>, spawn: Room, g: array2<int>)
    returns (connected: set<Room>, unconnected: set<Room>, made: nat, ok: bool, ghost m: map<Room, seq<Room>>)
    requires Distinct(rooms) && spawn in rooms && spawn.roomType == Spawn
    requires forall r :: r in rooms ==> r.connections == []
    modifies g, rooms`connections
    ensures ConnMap(rooms) == m
    ensures ok ==> PhaseOneOn(rooms, spawn, connected, unconnected, made, m)
  {
    connected := {spawn};
    unconnected := set r | r in rooms && !r.singleConnection && r.roomType != Spawn;
    made := 0;
    ok := true;
    m := ConnMap(rooms);
    EntriesNone(rooms, m);
    var attempts := 0;
    while unconnected != {} && attempts < 200
      invariant ConnMap(rooms) == m
      invariant PhaseOneOn(rooms, spawn, connected, unconnected, made, m)
      decreases 200 - attempts
    {
      attempts := attempts + 1;
      connected, unconnected, made, ok, m := SpanPass(rooms, spawn, g, connected, unconnected, made, attempts, m);
      if !ok {
        return;
      }
    }
  }

  // -------------------------------------------------------------- phase 1.5

  /** Phase 1.5 measures closeness in lattice tiles: `|dx| + |dy|` of `grid_x` and `grid_y`. */
  function GridDistance(a: Room, b: Room): nat
    reads a`gridX, a`gridY, b`gridX, b`gridY
  {
    Abs(a.gridX - b.gridX) + Abs(a.gridY - b.gridY)
  }

  /** Phase 1.5 force-links no further than 120 lattice tiles (six slots). */
  const FORCE_REACH: int := 120

  /** Waiting rooms are dropped only when at least this many rooms besides the spawn room are linked. */
  const TARGET_NORMAL_ROOMS: int := 15

  /**
   * The unsaturated linked room closest to `d`, the first met in set order
   * among equally close ones; none when every linked room is saturated.
   */
  method FindClosest(d: Room, connected: set<Room>) returns (closest: Option<Room>)
    ensures closest.Some? ==>
      closest.value in connected && !Saturated(closest.value) &&
      forall c :: c in connected && !Saturated(c) ==> GridDistance(d, closest.value) <= GridDistance(d, c)
    ensures closest.None? ==> forall c :: c in connected ==> Saturated(c)
  {
    closest := None;
    var todo := connected;
    while todo != {}
      invariant todo <= connected
      invariant closest.Some? ==>
        closest.value in connected && !Saturated(closest.value) &&
        forall c :: c in connected - todo && !Saturated(c) ==> GridDistance(d, closest.value) <= GridDistance(d, c)
      invariant closest.None? ==> forall c :: c in connected - todo ==> Saturated(c)
      decreases |todo|
    {
      var c :| c in todo;
      todo := todo - {c};
      if Saturated(c) {
        continue;
      }
      if closest.None? || GridDistance(d, c) < GridDistance(d, closest.value) {
        closest := Some(c);
      }
    }
  }

  /**
   * Phase 1.5 for one waiting room `d`: a dead end is skipped; otherwise a
   * hallway to the closest unsaturated linked room, if that room is within
   * reach, moves `d` across. `partner` is the room linked to, if any.
   */
  method ForceOne(rooms: seq<Room>, spawn: Room, g: array2<int>, d: Room, connected0: set<Room>,
                  unconnected0: set<Room>, made0: nat, ghost m0: map<Room, seq<Room>>)
    returns (connected: set<Room>, unconnected: set<Room>, made: nat, ok: bool, partner: Option<Room>,
             ghost m: map<Room, seq<Room>>)
    requires ConnMap(rooms) == m0 && PhaseOneOn(rooms, spawn, connected0, unconnected0, made0, m0)
    requires d in unconnected0
    modifies g, rooms`connections
    ensures ConnMap(rooms) == m
    ensures ok ==> PhaseOneOn(rooms, spawn, connected, unconnected, made, m)
    ensures partner.Some? ==>
      !d.singleConnection && partner.value in connected0 && GridDistance(d, partner.value) <= FORCE_REACH &&
      connected == connected0 + {d} && unconnected == unconnected0 - {d} && made == made0 + 1 &&
      m == Joined(m0, d, partner.value)
    ensures partner.None? ==> connected == connected0 && unconnected == unconnected0 && made == made0 && m == m0
  {
    connected, unconnected, made, ok, partner, m := connected0, unconnected0, made0, true, None, m0;
    if d.singleConnection {
      return;
    }
    var closest := FindClosest(d, connected);
    if closest.Some? && GridDistance(d, closest.value) <= FORCE_REACH {
      var out;
      out, connected, unconnected, made, m := JoinWaiting(rooms, spawn, g, d, closest.value, connected, unconnected, made, m);
      ok := out != OutOfRange;
      if out == Carved {
        partner := closest;
      }
    }
  }

  /** The force-link loop of phase 1.5: every room waiting at its start, in any order. */
  method ForceConnect(rooms: seq<Room>, spawn: Room, g: array2<int>, connected0: set<Room>, unconnected0: set<Room>,
                      made0: nat, ghost m0: map<Room, seq<Room>>)
    returns (connected: set<Room>, unconnected: set<Room>, made: nat, ok: bool, ghost m: map<Room, seq<Room>>)
    requires ConnMap(rooms) == m0 && PhaseOneOn(rooms, spawn, connected0, unconnected0, made0, m0)
    modifies g, rooms`connections
    ensures ConnMap(rooms) == m
    ensures ok ==> PhaseOneOn(rooms, spawn, connected, unconnected, made, m)
  {
    connected, unconnected, made, ok, m := connected0, unconnected0, made0, true, m0;
    var todo := unconnected0;
    while todo != {} && ok
      invariant todo <= unconnected
      invariant ConnMap(rooms) == m && (ok ==> PhaseOneOn(rooms, spawn, connected, unconnected, made, m))
      decreases |todo|
    {
      var d :| d in todo;
      todo := todo - {d};
      var partner;
      connected, unconnected, made, ok, partner, m := ForceOne(rooms, spawn, g, d, connected, unconnected, made, m);
    }
  }

  /** The waiting rooms phase 1.5 may drop: those that are not dead ends. */
  function Stranded(unconnected: set<Room>): (drop: set<Room>)
    reads unconnected`singleConnection
    ensures drop <= unconnected
    ensures forall r :: r in unconnected && !r.singleConnection ==> r in drop
    ensures forall r :: r in drop ==> !r.singleConnection
  {
    set r | r in unconnected && !r.singleConnection
  }

  /**
   * The end of phase 1.5: with rooms still waiting and at least
   * `TARGET_NORMAL_ROOMS` linked rooms besides the spawn room, the stranded
   * rooms are deleted from the list; otherwise every room is kept.
   */
  function Survivors(rooms: seq<Room>, connected: set<Room>, unconnected: set<Room>): (r: seq<Room>)
    reads unconnected`singleConnection
    ensures |connected| - 1 >= TARGET_NORMAL_ROOMS && unconnected != {} ==> r == Without(rooms, Stranded(unconnected))
    ensures !(|connected| - 1 >= TARGET_NORMAL_ROOMS && unconnected != {}) ==> r == rooms
  {
    if |connected| - 1 >= TARGET_NORMAL_ROOMS && unconnected != {} then Without(rooms, Stranded(unconnected)) else rooms
  }


  /** After phase 1.5 the surviving rooms are ready for the repair pass. */
  lemma SurvivorsReady(rooms: seq<Room>, spawn: Room, connected: set<Room>, unconnected: set<Room>, made: nat,
                       m: map<Room, seq<Room>>)
    requires PhaseOneOn(rooms, spawn, connected, unconnected, made, m)
    ensures ReadyOn(Survivors(rooms, connected, unconnected), spawn, made, m)
  {
    if |connected| - 1 >= TARGET_NORMAL_ROOMS && unconnected != {} {
      DropReady(rooms, spawn, connected, unconnected, made, m, Stranded(unconnected));
    } else {
      DropReady(rooms, spawn, connected, unconnected, made, m, {});
      assert Without(rooms, {}) == rooms by {
        WithoutNothing(rooms);
      }
    }
  }
}
