/**
 * The invariants the connection passes keep about the rooms' links, stated
 * on value snapshots of the lists, with the lemmas that carry them across
 * one hallway, one dropped waiting room, or the deletion of rooms without
 * links.
 */
module LinkState {
  import opened Rooms
  import opened Links
  import opened Wrappers

  /**
   * Where every hallway so far joined a room without links to another room,
   * one more such hallway keeps the links well formed and adds two entries.
   */
  lemma JoinKeepsLinks(rooms: seq<Room>, m: map<Room, seq<Room>>, a: Room, b: Room, made: nat)
    requires Covers(rooms, m) && Distinct(rooms) && a != b && a in rooms && b in rooms && m[a] == []
    requires WellLinkedOn(rooms, m) && Entries(rooms, m) == 2 * made
    ensures WellLinkedOn(rooms, Joined(m, a, b)) && Entries(rooms, Joined(m, a, b)) == 2 * (made + 1)
  {
    JoinedWellLinked(rooms, m, a, b);
    JoinedAddsTwo(rooms, m, a, b);
  }

  /**
   * What phase 1 keeps: the spawn room is linked; the two sets are disjoint
   * sets of rooms of the list; a room still waiting has no links; a dead-end
   * room other than the spawn room has none either, and the spawn room at
   * most one if it is a dead end; the linked set holds only the spawn room
   * and rooms that are not dead ends.
   */
  ghost predicate SpanState(rooms: seq<Room>, spawn: Room, connected: set<Room>, unconnected: set<Room>,
                            m: map<Room, seq<Room>>)
    reads rooms`singleConnection
    requires Covers(rooms, m)
  {
    spawn in connected && connected !! unconnected &&
    (forall r :: r in connected ==> r in rooms) &&
    (forall r :: r in unconnected ==> r in rooms && m[r] == []) &&
    (forall r :: r in rooms && r.singleConnection && r != spawn ==> m[r] == []) &&
    (spawn.singleConnection ==> |m[spawn]| <= 1) &&
    (forall r :: r in connected && r != spawn ==> !r.singleConnection)
  }

  /** Linking a waiting room that is not a dead end to an unsaturated linked room moves it across. */
  lemma SpanJoin(rooms: seq<Room>, spawn: Room, connected: set<Room>, unconnected: set<Room>,
                 m: map<Room, seq<Room>>, u: Room, c: Room)
    requires Covers(rooms, m) && SpanState(rooms, spawn, connected, unconnected, m)
    requires u in unconnected && !u.singleConnection && c in connected && !(c.singleConnection && |m[c]| >= 1)
    ensures SpanState(rooms, spawn, connected + {u}, unconnected - {u}, Joined(m, u, c))
  {
  }

  /**
   * Everything phase 1 keeps between passes, for the lists `m`: the set
   * invariant, well-formed links with two entries per hallway made, and
   * every room that is neither a dead end nor a spawn room linked or waiting.
   */
  ghost predicate PhaseOneOn(rooms: seq<Room>, spawn: Room, connected: set<Room>, unconnected: set<Room>, made: nat,
                             m: map<Room, seq<Room>>)
    reads rooms`singleConnection, rooms`roomType
  {
    Distinct(rooms) && Covers(rooms, m) &&
    SpanState(rooms, spawn, connected, unconnected, m) &&
    WellLinkedOn(rooms, m) && Entries(rooms, m) == 2 * made &&
    (forall r :: r in rooms && !r.singleConnection && r.roomType != Spawn ==> r in connected || r in unconnected) &&
    (forall r :: r in unconnected ==> r.roomType != Spawn)
  }

  /** A hallway from a waiting room that is not a dead end to an unsaturated linked room keeps phase 1's invariant. */
  lemma PhaseOneJoin(rooms: seq<Room>, spawn: Room, connected: set<Room>, unconnected: set<Room>, made: nat,
                     m: map<Room, seq<Room>>, u: Room, c: Room)
    requires PhaseOneOn(rooms, spawn, connected, unconnected, made, m)
    requires u in unconnected && !u.singleConnection && c in connected && !(c.singleConnection && |m[c]| >= 1)
    ensures PhaseOneOn(rooms, spawn, connected + {u}, unconnected - {u}, made + 1, Joined(m, u, c))
  {
    SpanJoin(rooms, spawn, connected, unconnected, m, u, c);
    JoinKeepsLinks(rooms, m, u, c, made);
  }

  /** Dropping dead-end rooms from the waiting set keeps phase 1's invariant. */
  lemma PhaseOneDrop(rooms: seq<Room>, spawn: Room, connected: set<Room>, unconnected: set<Room>, made: nat,
                     m: map<Room, seq<Room>>, kept: set<Room>)
    requires PhaseOneOn(rooms, spawn, connected, unconnected, made, m)
    requires kept <= unconnected && forall r :: r in unconnected && r !in kept ==> r.singleConnection
    ensures PhaseOneOn(rooms, spawn, connected, kept, made, m)
  {
  }

  /**
   * What the repair pass and phase 2 rely on, for the lists `m`: distinct
   * rooms, well-formed links with two entries per hallway made, and no
   * dead-end room linked yet except the spawn room, at most once.
   */
  ghost predicate ReadyOn(rooms: seq<Room>, spawn: Room, made: nat, m: map<Room, seq<Room>>)
    reads rooms`singleConnection
  {
    Distinct(rooms) && Covers(rooms, m) && spawn in rooms &&
    WellLinkedOn(rooms, m) && Entries(rooms, m) == 2 * made &&
    (forall r :: r in rooms && r.singleConnection && r != spawn ==> m[r] == []) &&
    (spawn.singleConnection ==> |m[spawn]| <= 1)
  }

  /**
   * The dead-end part of readiness over a snapshot `ss` of the dead-end
   * flags: every dead-end room but the spawn room `rooms[k]` has no links,
   * and a dead-end spawn room has at most one.
   */
  ghost predicate BareSingles(rooms: seq<Room>, ss: seq<bool>, k: nat, m: map<Room, seq<Room>>) {
    |ss| == |rooms| && k < |rooms| && Covers(rooms, m) &&
    (forall i :: 0 <= i < |rooms| && ss[i] && i != k ==> m[rooms[i]] == []) &&
    (ss[k] ==> |m[rooms[k]]| <= 1)
  }

  /** Readiness is the link invariants together with `BareSingles` over the rooms' current flags. */
  lemma ReadyIff(rooms: seq<Room>, k: nat, made: nat, m: map<Room, seq<Room>>)
    requires k < |rooms|
    ensures ReadyOn(rooms, rooms[k], made, m) <==>
      Distinct(rooms) && Covers(rooms, m) && WellLinkedOn(rooms, m) && Entries(rooms, m) == 2 * made &&
      BareSingles(rooms, SinglesOf(rooms), k, m)
  {
    var ss := SinglesOf(rooms);
    if Distinct(rooms) && Covers(rooms, m) && BareSingles(rooms, ss, k, m) {
      forall r | r in rooms && r.singleConnection && r != rooms[k]
        ensures m[r] == []
      {
        var i :| 0 <= i < |rooms| && rooms[i] == r;
        assert ss[i] && i != k;
      }
    }
    if ReadyOn(rooms, rooms[k], made, m) {
      forall i | 0 <= i < |rooms| && ss[i] && i != k
        ensures m[rooms[i]] == []
      {
        assert rooms[i] in rooms && rooms[i] != rooms[k];
      }
    }
  }

  /** Readiness for a snapshot of the lists that agrees with `m` on the rooms carries over to the snapshot. */
  lemma ReadyAgree(rooms: seq<Room>, spawn: Room, made: nat, m: map<Room, seq<Room>>, m': map<Room, seq<Room>>)
    requires ReadyOn(rooms, spawn, made, m) && Covers(rooms, m') && forall x :: x in rooms ==> m'[x] == m[x]
    ensures ReadyOn(rooms, spawn, made, m')
  {
    AgreeOn(rooms, m, m');
  }

  /**
   * Deleting waiting rooms, which have no links, from the list leaves the
   * rest ready for the repair pass: nobody lists a deleted room and no entry
   * is lost.
   */
  lemma DropReady(rooms: seq<Room>, spawn: Room, connected: set<Room>, unconnected: set<Room>, made: nat,
                  m: map<Room, seq<Room>>, drop: set<Room>)
    requires PhaseOneOn(rooms, spawn, connected, unconnected, made, m) && drop <= unconnected
    ensures ReadyOn(Without(rooms, drop), spawn, made, m)
  {
    WithoutDistinct(rooms, drop);
    WithoutWellLinked(rooms, m, drop);
    WithoutEntries(rooms, m, drop);
  }

  /** `next(room for room in rooms if room.room_type == "spawn")`: the first spawn room of the list. */
  function FirstSpawn(rooms: seq<Room>): (r: Option<Room>)
    reads rooms`roomType
    ensures r.Some? ==> r.value in rooms && r.value.roomType == Spawn
    ensures r.None? <==> forall x :: x in rooms ==> x.roomType != Spawn
  {
    if rooms == [] then None
    else
      var p := FirstSpawn(rooms[..|rooms| - 1]);
      if p.Some? then p
      else if rooms[|rooms| - 1].roomType == Spawn then Some(rooms[|rooms| - 1])
      else None
  }

  /** The spawn room at `i` with none before it is the first spawn room. */
  lemma {:induction false} FirstSpawnAt(rooms: seq<Room>, i: nat)
    requires i < |rooms| && rooms[i].roomType == Spawn
    requires forall j :: 0 <= j < i ==> rooms[j].roomType != Spawn
    ensures FirstSpawn(rooms) == Some(rooms[i])
  {
    var k := |rooms| - 1;
    if i < k {
      FirstSpawnAt(rooms[..k], i);
    } else {
      assert forall x :: x in rooms[..k] ==> x.roomType != Spawn;
    }
  }

  /** Deleting rooms that are not spawn rooms keeps the first spawn room. */
  lemma {:induction false} FirstSpawnWithout(rooms: seq<Room>, drop: set<Room>)
    requires forall x :: x in drop ==> x.roomType != Spawn
    ensures FirstSpawn(Without(rooms, drop)) == FirstSpawn(rooms)
  {
    if rooms != [] {
      var k := |rooms| - 1;
      FirstSpawnWithout(rooms[..k], drop);
      var w := Without(rooms[..k], drop);
      var x := rooms[k];
      if x in drop {
        assert Without(rooms, drop) == w;
      } else {
        var w' := w + [x];
        assert Without(rooms, drop) == w';
        assert w'[..|w'| - 1] == w && w'[|w'| - 1] == x;
      }
    }
  }

  /** Waiting rooms are never spawn rooms, so the rooms phase 1.5 deletes keep the first spawn room. */
  lemma DropKeepsSpawn(rooms: seq<Room>, spawn: Room, connected: set<Room>, unconnected: set<Room>, made: nat,
                       m: map<Room, seq<Room>>, drop: set<Room>)
    requires PhaseOneOn(rooms, spawn, connected, unconnected, made, m) && drop <= unconnected
    ensures FirstSpawn(Without(rooms, drop)) == FirstSpawn(rooms)
  {
    FirstSpawnWithout(rooms, drop);
  }
}
