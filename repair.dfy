/**
 * `ensure_all_special_rooms_connected`: the pass between phase 1.5 and
 * phase 2 of `connect_rooms`. It finds the dead-end rooms whose floor the
 * tile search from the spawn room cannot reach, lists the reachable normal
 * rooms with exactly one normal or spawn neighbour on the lattice, and
 * moves each unreachable dead-end room onto such a room, swapping the two
 * rooms' roles and links.
 */
module Repair {
  import opened Rooms
  import opened Wrappers
  import opened Hallways
  import opened Lattice
  import opened Links
  import opened LinkState
  import opened Relocation
  import opened TileSearch

  /** The spawn search `for i, room in enumerate(rooms): if room.room_type == "spawn": ... break`. */
  method FindSpawn(rooms: seq<Room>) returns (k: Option<nat>)
    ensures k.Some? ==> k.value < |rooms| && FirstSpawn(rooms) == Some(rooms[k.value])
    ensures k.None? ==> FirstSpawn(rooms).None?
  {
    for i := 0 to |rooms|
      invariant forall j :: 0 <= j < i ==> rooms[j].roomType != Spawn
    {
      if rooms[i].roomType == Spawn {
        FirstSpawnAt(rooms, i);
        return Some(i);
      }
    }
    return None;
  }

  /**
   * `can_reach_spawn(i)`: room `i` is the spawn room `k` itself, or the
   * search from the centre of the spawn room's floor reaches a floor tile
   * of room `i`'s floor.
   */
  ghost predicate ReachesSpawn(rooms: seq<Room>, g: array2<int>, k: nat, i: nat)
    reads g
    requires k < |rooms| && i < |rooms|
  {
    i == k || FloorReachable(g, Centre(rooms[k].rect), FloorOrigin(rooms[i].rect))
  }

  method CanReachSpawn(rooms: seq<Room>, g: array2<int>, k: nat, i: nat) returns (reached: bool)
    requires k < |rooms| && i < |rooms|
    ensures reached <==> ReachesSpawn(rooms, g, k, i)
  {
    if i == k {
      return true;
    }
    reached := SearchFloor(g, Centre(rooms[k].rect), FloorOrigin(rooms[i].rect));
  }

  predicate Increasing(s: seq<nat>) {
    forall a, b :: 0 <= a < b < |s| ==> s[a] < s[b]
  }

  /** The indices of the dead-end rooms that cannot reach spawn, in list order. */
  method FindDisconnected(rooms: seq<Room>, g: array2<int>, k: nat) returns (ds: seq<nat>)
    requires k < |rooms|
    ensures Increasing(ds) && forall j :: 0 <= j < |ds| ==> ds[j] < |rooms|
    ensures forall i :: 0 <= i < |rooms| ==> (i in ds <==> rooms[i].singleConnection && !ReachesSpawn(rooms, g, k, i))
  {
    ds := [];
    for i := 0 to |rooms|
      invariant Increasing(ds) && forall j :: 0 <= j < |ds| ==> ds[j] < i
      invariant forall i' :: 0 <= i' < i ==> (i' in ds <==> rooms[i'].singleConnection && !ReachesSpawn(rooms, g, k, i'))
    {
      if rooms[i].singleConnection {
        var reached := CanReachSpawn(rooms, g, k, i);
        if !reached {
          ds := ds + [i];
        }
      }
    }
  }

  /** The tag of an offered position: `"any_special"` or `"chest_unlocked_only"`. */
  datatype Spot = AnySpecial | UnlockedOnly

  /** How many slots of `ns` hold a normal room, and how many a spawn room. */
  function Tally(rooms: seq<Room>, grid: map<Slot, nat>, ns: seq<Slot>): (t: (nat, nat))
    reads rooms`roomType
    requires forall key :: key in grid ==> grid[key] < |rooms|
    ensures t.0 + t.1 <= |ns|
    ensures t == (0, 0) <==> forall key :: key in ns && key in grid ==> rooms[grid[key]].roomType !in {Normal, Spawn}
  {
    if ns == [] then (0, 0)
    else
      var key := ns[|ns| - 1];
      assert forall key' :: key' in ns <==> key' in ns[..|ns| - 1] || key' == key;
      var t := Tally(rooms, grid, ns[..|ns| - 1]);
      if key in grid && rooms[grid[key]].roomType == Normal then (t.0 + 1, t.1)
      else if key in grid && rooms[grid[key]].roomType == Spawn then (t.0, t.1 + 1)
      else t
  }

  /** The count of normal and spawn rooms in the four neighbouring slots of `key`. */
  method NeighbourTally(rooms: seq<Room>, grid: map<Slot, nat>, key: Slot) returns (normal: nat, spawn: nat)
    requires forall key' :: key' in grid ==> grid[key'] < |rooms|
    ensures (normal, spawn) == Tally(rooms, grid, NeighbourSlots(key))
  {
    var ns := NeighbourSlots(key);
    normal, spawn := 0, 0;
    for d := 0 to 4
      invariant (normal, spawn) == Tally(rooms, grid, ns[..d])
    {
      assert ns[..d + 1][..d] == ns[..d];
      var n := ns[d];
      if n in grid {
        var t := rooms[grid[n]].roomType;
        if t == Normal {
          normal := normal + 1;
        } else if t == Spawn {
          spawn := spawn + 1;
        }
      }
    }
    assert ns[..4] == ns;
  }

  /**
   * Room `i` is offered as position `spot`: it is a normal room that can
   * reach spawn with exactly one normal or spawn room among its lattice
   * neighbours, tagged for the unlocked chest alone when that neighbour is
   * a spawn room.
   */
  ghost predicate Offers(rooms: seq<Room>, grid: map<Slot, nat>, g: array2<int>, k: nat, i: nat, spot: Spot)
    reads rooms`roomType, rooms`gridX, rooms`gridY, g
    requires k < |rooms| && i < |rooms| && forall key :: key in grid ==> grid[key] < |rooms|
  {
    var t := Tally(rooms, grid, NeighbourSlots(GridSlot(rooms[i])));
    rooms[i].roomType == Normal && ReachesSpawn(rooms, g, k, i) &&
    t.0 + t.1 == 1 && spot == (if t.1 > 0 then UnlockedOnly else AnySpecial)
  }

  predicate SpotsIncreasing(avail: seq<(nat, Spot)>) {
    forall a, b :: 0 <= a < b < |avail| ==> avail[a].0 < avail[b].0
  }

  /** The checks `available_normal_rooms` makes of room `i`: the position it offers, if any. */
  method OfferOf(rooms: seq<Room>, grid: map<Slot, nat>, g: array2<int>, k: nat, i: nat) returns (spot: Option<Spot>)
    requires k < |rooms| && i < |rooms| && forall key :: key in grid ==> grid[key] < |rooms|
    ensures forall s :: Offers(rooms, grid, g, k, i, s) <==> spot == Some(s)
  {
    if rooms[i].roomType != Normal {
      return None;
    }
    var reached := CanReachSpawn(rooms, g, k, i);
    if !reached {
      return None;
    }
    var normal, spawn := NeighbourTally(rooms, grid, GridSlot(rooms[i]));
    if normal + spawn != 1 {
      return None;
    }
    spot := Some(if spawn > 0 then UnlockedOnly else AnySpecial);
  }

  /**
   * `avail` lists, in increasing order of rooms, exactly the positions the
   * snapshot `offers` offers, where `offers[i]` is the position room `i`
   * offers, if any.
   */
  predicate Gathered(avail: seq<(nat, Spot)>, offers: seq<Option<Spot>>) {
    SpotsIncreasing(avail) &&
    (forall e :: e in avail ==> e.0 < |offers| && offers[e.0] == Some(e.1)) &&
    (forall i, s :: 0 <= i < |offers| && offers[i] == Some(s) ==> (i, s) in avail)
  }

  /** Appending the next room's position, if it offers one, keeps the list complete and ordered. */
  lemma CollectStep(avail: seq<(nat, Spot)>, offers: seq<Option<Spot>>, o: Option<Spot>)
    requires Gathered(avail, offers)
    ensures Gathered(avail + (if o.Some? then [(|offers|, o.value)] else []), offers + [o])
  {
    var avail' := avail + (if o.Some? then [(|offers|, o.value)] else []);
    var offers' := offers + [o];
    forall e | e in avail'
      ensures e.0 < |offers'| && offers'[e.0] == Some(e.1)
    {
      if e in avail {
        assert offers'[e.0] == offers[e.0];
      }
    }
    forall i, s | 0 <= i < |offers'| && offers'[i] == Some(s)
      ensures (i, s) in avail'
    {
      if i < |offers| {
        assert offers[i] == Some(s);
      }
    }
    forall a, b | 0 <= a < b < |avail'|
      ensures avail'[a].0 < avail'[b].0
    {
      if b < |avail| {
        assert avail'[a] == avail[a] && avail'[b] == avail[b];
      } else {
        assert avail'[a] == avail[a] && avail[a] in avail;
      }
    }
  }

  /** `available_normal_rooms`: every offered position, in list order. */
  method FindAvailable(rooms: seq<Room>, grid: map<Slot, nat>, g: array2<int>, k: nat) returns (avail: seq<(nat, Spot)>)
    requires k < |rooms| && forall key :: key in grid ==> grid[key] < |rooms|
    ensures SpotsIncreasing(avail)
    ensures forall e :: e in avail ==> e.0 < |rooms| && ReachesSpawn(rooms, g, k, e.0) && Offers(rooms, grid, g, k, e.0, e.1)
    ensures forall i, spot :: 0 <= i < |rooms| && Offers(rooms, grid, g, k, i, spot) ==> (i, spot) in avail
  {
    avail := [];
    ghost var offers: seq<Option<Spot>> := [];
    for i := 0 to |rooms|
      invariant |offers| == i && Gathered(avail, offers)
      invariant forall i', s :: 0 <= i' < i ==> (Offers(rooms, grid, g, k, i', s) <==> offers[i'] == Some(s))
    {
      avail, offers := GatherOne(rooms, grid, g, k, i, avail, offers);
    }
  }

  /** One step of `FindAvailable`: the checks of the next room, its position appended if it offers one. */
  method GatherOne(rooms: seq<Room>, grid: map<Slot, nat>, g: array2<int>, k: nat, n: nat,
                   avail: seq<(nat, Spot)>, ghost offers: seq<Option<Spot>>)
    returns (avail': seq<(nat, Spot)>, ghost offers': seq<Option<Spot>>)
    requires k < |rooms| && forall key :: key in grid ==> grid[key] < |rooms|
    requires n == |offers| < |rooms| && Gathered(avail, offers)
    requires forall i', s :: 0 <= i' < |offers| ==> (Offers(rooms, grid, g, k, i', s) <==> offers[i'] == Some(s))
    ensures |offers'| == |offers| + 1 && Gathered(avail', offers')
    ensures forall i', s :: 0 <= i' < |offers'| ==> (Offers(rooms, grid, g, k, i', s) <==> offers'[i'] == Some(s))
  {
    var spot := OfferOf(rooms, grid, g, k, n);
    CollectStep(avail, offers, spot);
    avail' := avail + (if spot.Some? then [(n, spot.value)] else []);
    offers' := offers + [spot];
    forall i', s | 0 <= i' < n + 1
      ensures Offers(rooms, grid, g, k, i', s) <==> offers'[i'] == Some(s)
    {
      if i' < n {
        assert offers'[i'] == offers[i'];
      }
    }
  }

  // ---------------------------------------------------------------------
  // Which dead-end room goes where

  /** A position tagged `spot` may take a dead-end room of role `t`. */
  predicate Suits(spot: Spot, t: RoomType) {
    spot == AnySpecial || t == ChestUnlocked
  }

  /** The first offered position that may take a room of role `t`. */
  function FirstSuiting(avail: seq<(nat, Spot)>, t: RoomType): (f: Option<nat>)
    ensures f.Some? ==> f.value < |avail| && Suits(avail[f.value].1, t) &&
                        forall j :: 0 <= j < f.value ==> !Suits(avail[j].1, t)
    ensures f.None? ==> forall j :: 0 <= j < |avail| ==> !Suits(avail[j].1, t)
  {
    if avail == [] then None
    else if Suits(avail[0].1, t) then Some(0)
    else
      var f := FirstSuiting(avail[1..], t);
      if f.None? then None else Some(f.value + 1)
  }

  /** `available_normal_rooms.pop(i)` */
  function Removed(avail: seq<(nat, Spot)>, i: nat): (r: seq<(nat, Spot)>)
    requires i < |avail|
    ensures |r| == |avail| - 1
    ensures forall e :: e in r ==> e in avail
  {
    avail[..i] + avail[i + 1..]
  }

  /**
   * The relocation loop as written: the dead-end rooms of roles `types`
   * take, in turn, the first suitable position still offered, but every
   * scan over the positions first stops once `relocated` reaches the
   * number of positions LEFT, a list that shrinks with each move.
   */
  function PlanAsWritten(types: seq<RoomType>, avail: seq<(nat, Spot)>, relocated: nat): (p: seq<Option<nat>>)
    ensures |p| == |types|
  {
    if types == [] then []
    else
      var f := if relocated >= |avail| then None else FirstSuiting(avail, types[0]);
      if f.None? then [None] + PlanAsWritten(types[1..], avail, relocated)
      else [Some(avail[f.value].0)] + PlanAsWritten(types[1..], Removed(avail, f.value), relocated + 1)
  }

  /** The relocation loop without the early stop: each dead-end room takes the first suitable position left. */
  function Plan(types: seq<RoomType>, avail: seq<(nat, Spot)>): (p: seq<Option<nat>>)
    ensures |p| == |types|
  {
    if types == [] then []
    else
      var f := FirstSuiting(avail, types[0]);
      if f.None? then [None] + Plan(types[1..], avail)
      else [Some(avail[f.value].0)] + Plan(types[1..], Removed(avail, f.value))
  }

  /** The plan for the dead-end rooms from the `j`-th on: the `j`-th takes the first suitable position, the rest are planned over what is left. */
  lemma PlanNext(types: seq<RoomType>, j: nat, avail: seq<(nat, Spot)>)
    requires j < |types|
    ensures var f := FirstSuiting(avail, types[j]);
      Plan(types[j..], avail) ==
        if f.None? then [None] + Plan(types[j + 1..], avail)
        else [Some(avail[f.value].0)] + Plan(types[j + 1..], Removed(avail, f.value))
  {
    assert types[j..][0] == types[j] && types[j..][1..] == types[j + 1..];
  }

  /** The as-written plan for the dead-end rooms from the `j`-th on, after `relocated` moves. */
  lemma PlanAsWrittenNext(types: seq<RoomType>, j: nat, avail: seq<(nat, Spot)>, relocated: nat)
    requires j < |types|
    ensures var f := if relocated >= |avail| then None else FirstSuiting(avail, types[j]);
      PlanAsWritten(types[j..], avail, relocated) ==
        if f.None? then [None] + PlanAsWritten(types[j + 1..], avail, relocated)
        else [Some(avail[f.value].0)] + PlanAsWritten(types[j + 1..], Removed(avail, f.value), relocated + 1)
  {
    assert types[j..][0] == types[j] && types[j..][1..] == types[j + 1..];
  }

  /** One turn of the relocation loop extends the moves made so far along the as-written plan. */
  lemma PlanAsWrittenStep(types: seq<RoomType>, j: nat, avail0: seq<(nat, Spot)>, avail: seq<(nat, Spot)>,
                          relocated: nat, placed: seq<Option<nat>>, f: Option<nat>)
    requires |placed| == j < |types|
    requires placed + PlanAsWritten(types[j..], avail, relocated) == PlanAsWritten(types, avail0, 0)
    requires f == if relocated >= |avail| then None else FirstSuiting(avail, types[j])
    ensures f.None? ==> (placed + [None]) + PlanAsWritten(types[j + 1..], avail, relocated) == PlanAsWritten(types, avail0, 0)
    ensures f.Some? ==>
      (placed + [Some(avail[f.value].0)]) + PlanAsWritten(types[j + 1..], Removed(avail, f.value), relocated + 1)
      == PlanAsWritten(types, avail0, 0)
  {
    PlanAsWrittenNext(types, j, avail, relocated);
    if f.None? {
      AppendOne(placed, None, PlanAsWritten(types[j + 1..], avail, relocated));
    } else {
      AppendOne(placed, Some(avail[f.value].0), PlanAsWritten(types[j + 1..], Removed(avail, f.value), relocated + 1));
    }
  }

  /** Once the moves made reach the positions left, the loop as written moves no further room. */
  lemma {:induction false} AsWrittenStopped(types: seq<RoomType>, avail: seq<(nat, Spot)>, relocated: nat)
    requires relocated >= |avail|
    ensures forall j :: 0 <= j < |types| ==> PlanAsWritten(types, avail, relocated)[j].None?
  {
    if types != [] {
      AsWrittenStopped(types[1..], avail, relocated);
    }
  }

  /**
   * The loop as written makes the same moves as the corrected loop until
   * it stops early; from then on it moves nothing.
   */
  lemma {:induction false} AsWrittenAgrees(types: seq<RoomType>, avail: seq<(nat, Spot)>, relocated: nat)
    ensures forall j :: 0 <= j < |types| && PlanAsWritten(types, avail, relocated)[j].Some? ==>
      PlanAsWritten(types, avail, relocated)[j] == Plan(types, avail)[j]
  {
    if types != [] {
      if relocated >= |avail| {
        AsWrittenStopped(types, avail, relocated);
      } else {
        var f := FirstSuiting(avail, types[0]);
        if f.None? {
          AsWrittenAgrees(types[1..], avail, relocated);
        } else {
          AsWrittenAgrees(types[1..], Removed(avail, f.value), relocated + 1);
        }
      }
    }
  }

  /**
   * Two unreachable dead-end rooms and two positions open to any dead-end
   * room: as written, the second room is not moved, because after the
   * first move one move has been made and one position is left.
   */
  lemma AsWrittenStopsEarly()
    ensures PlanAsWritten([Boss, Shop], [(3, AnySpecial), (4, AnySpecial)], 0) == [Some(3), None]
    ensures Plan([Boss, Shop], [(3, AnySpecial), (4, AnySpecial)]) == [Some(3), Some(4)]
  {
    var avail := [(3, AnySpecial), (4, AnySpecial)];
    assert FirstSuiting(avail, Boss) == Some(0);
    assert Removed(avail, 0) == [(4, AnySpecial)];
    assert FirstSuiting([(4, AnySpecial)], Shop) == Some(0);
  }

  /** With at least as many open positions as dead-end rooms, every room is moved. */
  lemma {:induction false} PlanPlacesAll(types: seq<RoomType>, avail: seq<(nat, Spot)>)
    requires |types| <= |avail| && forall e :: e in avail ==> e.1 == AnySpecial
    ensures forall j :: 0 <= j < |types| ==> Plan(types, avail)[j].Some?
  {
    if types != [] {
      assert avail[0] in avail;
      assert FirstSuiting(avail, types[0]) == Some(0);
      PlanPlacesAll(types[1..], Removed(avail, 0));
    }
  }

  /** Popping a position keeps the rest in order and leaves no other position of the same room. */
  lemma RemovedSpots(avail: seq<(nat, Spot)>, i: nat)
    requires SpotsIncreasing(avail) && i < |avail|
    ensures SpotsIncreasing(Removed(avail, i))
    ensures forall e :: e in Removed(avail, i) ==> e.0 != avail[i].0
  {
    var rest := Removed(avail, i);
    forall a, b | 0 <= a < b < |rest|
      ensures rest[a].0 < rest[b].0
    {
      if b < i {
      } else if a < i {
        assert rest[a] == avail[a] && rest[b] == avail[b + 1];
      } else {
        assert rest[a] == avail[a + 1] && rest[b] == avail[b + 1];
      }
    }
    forall e | e in rest
      ensures e.0 != avail[i].0
    {
      var j :| 0 <= j < |rest| && rest[j] == e;
      if j < i {
        assert rest[j] == avail[j];
      } else {
        assert rest[j] == avail[j + 1];
      }
    }
  }

  /** Every room of the plan is an offered position, and no position is used twice. */
  lemma {:induction false} PlanUsesOffered(types: seq<RoomType>, avail: seq<(nat, Spot)>)
    requires SpotsIncreasing(avail)
    ensures forall j :: 0 <= j < |types| && Plan(types, avail)[j].Some? ==> exists e :: e in avail && e.0 == Plan(types, avail)[j].value
    ensures forall a, b :: 0 <= a < b < |types| && Plan(types, avail)[a].Some? ==> Plan(types, avail)[a] != Plan(types, avail)[b]
  {
    if types != [] {
      var f := FirstSuiting(avail, types[0]);
      if f.None? {
        PlanUsesOffered(types[1..], avail);
      } else {
        var rest := Removed(avail, f.value);
        RemovedSpots(avail, f.value);
        PlanUsesOffered(types[1..], rest);
      }
    }
  }

  /** The loop as written also moves rooms only onto offered positions, and onto no position twice. */
  lemma PlanAsWrittenUsesOffered(types: seq<RoomType>, avail: seq<(nat, Spot)>)
    requires SpotsIncreasing(avail)
    ensures var p := PlanAsWritten(types, avail, 0);
      forall j :: 0 <= j < |types| && p[j].Some? ==> exists e :: e in avail && e.0 == p[j].value
    ensures var p := PlanAsWritten(types, avail, 0);
      forall a, b :: 0 <= a < b < |types| && p[a].Some? ==> p[a] != p[b]
  {
    AsWrittenAgrees(types, avail, 0);
    PlanUsesOffered(types, avail);
  }

  // ---------------------------------------------------------------------
  // The moves

  /**
   * One move: the normal room `n` takes the role and dead-end flag of `s`
   * and is left with no links; `s` becomes a normal room holding `n`'s
   * links; the rooms `n` was linked to now name `s`, and the rooms that
   * named `s` forget it.
   */
  method Relocate(rooms: seq<Room>, n: Room, s: Room)
    requires n != s && n in rooms && s in rooms
    requires (forall c :: c in n.connections ==> c in rooms) && (forall c :: c in s.connections ==> c in rooms)
    modifies n`roomType, n`singleConnection, s`roomType, s`singleConnection, rooms`connections
    ensures n.roomType == old(s.roomType) && n.singleConnection == old(s.singleConnection)
    ensures s.roomType == Normal && !s.singleConnection
    ensures Listable(old(ConnMap(rooms)), n, s) && ConnMap(rooms) == Relocated(old(ConnMap(rooms)), n, s)
  {
    ghost var m := ConnMap(rooms);
    var nLinks := n.connections;
    var sLinks := s.connections;
    var role, single := s.roomType, s.singleConnection;
    n.roomType, n.singleConnection, n.connections := role, single, [];
    s.roomType, s.singleConnection, s.connections := Normal, false, nLinks;
    ghost var m1: map<Room, seq<Room>> := m[n := []][s := m[n]];
    assert ConnMap(rooms) == m1;
    RetargetLinks(rooms, nLinks, n, s, m1);
    UnlistLinks(rooms, sLinks, s, RetargetAll(m1, nLinks, n, s));
  }

  /** `for c in links: drop n from c's list if there, then append s if absent`. */
  method RetargetLinks(rooms: seq<Room>, links: seq<Room>, n: Room, s: Room, ghost m: map<Room, seq<Room>>)
    requires ConnMap(rooms) == m && forall c :: c in links ==> c in rooms
    modifies rooms`connections
    ensures ConnMap(rooms) == RetargetAll(m, links, n, s)
  {
    for i := 0 to |links|
      invariant ConnMap(rooms) == RetargetAll(m, links[..i], n, s)
    {
      assert links[..i + 1][..i] == links[..i];
      assert links[i] in rooms;
      RetargetOne(rooms, links[i], n, s, RetargetAll(m, links[..i], n, s));
    }
    assert links[..|links|] == links;
  }

  /** The body of that loop for one room `c`. */
  method RetargetOne(rooms: seq<Room>, c: Room, n: Room, s: Room, ghost m: map<Room, seq<Room>>)
    requires ConnMap(rooms) == m && c in rooms
    modifies c`connections
    ensures ConnMap(rooms) == m[c := Retarget(m[c], n, s)]
  {
    if n in c.connections {
      c.connections := RemoveFirst(c.connections, n);
    }
    if s !in c.connections {
      c.connections := c.connections + [s];
    }
  }

  /** `for c in links: drop s from c's list if there`. */
  method UnlistLinks(rooms: seq<Room>, links: seq<Room>, s: Room, ghost m: map<Room, seq<Room>>)
    requires ConnMap(rooms) == m && forall c :: c in links ==> c in rooms
    modifies rooms`connections
    ensures ConnMap(rooms) == UnlistAll(m, links, s)
  {
    for i := 0 to |links|
      invariant ConnMap(rooms) == UnlistAll(m, links[..i], s)
    {
      assert links[..i + 1][..i] == links[..i];
      assert links[i] in links;
      UnlistOne(rooms, links[i], s, UnlistAll(m, links[..i], s));
    }
    assert links[..|links|] == links;
  }

  /** `c.connections.remove(s)` when `c` lists `s`. */
  method UnlistOne(rooms: seq<Room>, c: Room, s: Room, ghost p: map<Room, seq<Room>>)
    requires ConnMap(rooms) == p && c in rooms
    modifies c`connections
    ensures ConnMap(rooms) == p[c := Unlist(p[c], s)]
  {
    if s in c.connections {
      c.connections := RemoveFirst(c.connections, s);
    }
  }

  /**
   * Moving the dead-end room at `s`, which has no links, onto the room at
   * `ni` keeps the rooms ready for phase 2 once the flags are swapped: the
   * room at `ni` is left with no links and the one at `s` is no longer a
   * dead end, and every other room keeps its list.
   */
  lemma RelocatedReady(rooms: seq<Room>, ss: seq<bool>, k: nat, made: nat, m: map<Room, seq<Room>>, ni: nat, s: nat)
    requires Distinct(rooms) && Covers(rooms, m) && WellLinkedOn(rooms, m) && Entries(rooms, m) == 2 * made
    requires BareSingles(rooms, ss, k, m)
    requires ni < |rooms| && s < |rooms| && ni != s && ni != k && s != k && ss[s]
    ensures Listable(m, rooms[ni], rooms[s])
    ensures var m' := Relocated(m, rooms[ni], rooms[s]);
      Covers(rooms, m') && WellLinkedOn(rooms, m') && Entries(rooms, m') == 2 * made &&
      BareSingles(rooms, ss[ni := true][s := false], k, m')
  {
    var n, sr := rooms[ni], rooms[s];
    assert m[sr] == [];
    RelocatedWellLinked(rooms, m, n, sr);
    RelocatedEntries(rooms, m, n, sr);
    RelocatedForm(rooms, m, n, sr);
    var m' := Relocated(m, n, sr);
    var ss' := ss[ni := true][s := false];
    forall i | 0 <= i < |rooms| && ss'[i] && i != k
      ensures m'[rooms[i]] == []
    {
      if i != ni {
        var r := rooms[i];
        assert r != n && r != sr && ss[i] && m[r] == [];
        assert Listed(m, r, n) == 0 && Listed(m, n, r) == Listed(m, r, n);
      }
    }
    assert rooms[k] != n && rooms[k] != sr;
    if ss'[k] {
      assert Listed(m, rooms[k], n) == Listed(m, n, rooms[k]);
      if rooms[k] in m[n] {
        assert |m'[rooms[k]]| == |m[rooms[k]]|;
      }
    }
  }

  /** `special_room.room_type`, read for each dead-end room of `ds` in turn. */
  function RolesAt(ts: seq<RoomType>, ds: seq<nat>): (r: seq<RoomType>)
    requires forall j :: 0 <= j < |ds| ==> ds[j] < |ts|
    ensures |r| == |ds| && forall j :: 0 <= j < |ds| ==> r[j] == ts[ds[j]]
  {
    seq(|ds|, j requires 0 <= j < |ds| => ts[ds[j]])
  }

  /**
   * The inner search over the positions left. Its early-stop test reads
   * only the move count and the number of positions left, which the search
   * does not change, so `RelocateAll` makes that test once before calling it.
   */
  method FindSpot(avail: seq<(nat, Spot)>, t: RoomType) returns (f: Option<nat>)
    ensures f == FirstSuiting(avail, t)
  {
    for i := 0 to |avail|
      invariant forall j :: 0 <= j < i ==> !Suits(avail[j].1, t)
    {
      if avail[i].1 == AnySpecial || t == ChestUnlocked {
        return Some(i);
      }
    }
    return None;
  }

  /** `Relocate` on the rooms at positions `ni` and `s`, seen through the roles and flags of all the rooms. */
  method RelocateAt(rooms: seq<Room>, ni: nat, s: nat)
    requires ni < |rooms| && s < |rooms| && ni != s && Distinct(rooms)
    requires forall c :: c in rooms[ni].connections ==> c in rooms
    requires forall c :: c in rooms[s].connections ==> c in rooms
    modifies rooms`roomType, rooms`singleConnection, rooms`connections
    ensures TypesOf(rooms) == old(TypesOf(rooms))[ni := old(rooms[s].roomType)][s := Normal]
    ensures SinglesOf(rooms) == old(SinglesOf(rooms))[ni := old(rooms[s].singleConnection)][s := false]
    ensures Listable(old(ConnMap(rooms)), rooms[ni], rooms[s])
    ensures ConnMap(rooms) == Relocated(old(ConnMap(rooms)), rooms[ni], rooms[s])
  {
    ghost var ts, ss := TypesOf(rooms), SinglesOf(rooms);
    var n, sr := rooms[ni], rooms[s];
    Relocate(rooms, n, sr);
    forall i | 0 <= i < |rooms| && i != ni && i != s
      ensures rooms[i].roomType == ts[i] && rooms[i].singleConnection == ss[i]
    {
      assert rooms[i] != n && rooms[i] != sr;
    }
    SwappedFlags(rooms, ts, ss, ni, s);
  }

  /** The roles and flags of the rooms when only the rooms at `ni` and `s` changed. */
  lemma SwappedFlags(rooms: seq<Room>, ts: seq<RoomType>, ss: seq<bool>, ni: nat, s: nat)
    requires |ts| == |ss| == |rooms| && ni < |rooms| && s < |rooms| && ni != s
    requires forall i :: 0 <= i < |rooms| && i != ni && i != s ==> rooms[i].roomType == ts[i] && rooms[i].singleConnection == ss[i]
    ensures TypesOf(rooms) == ts[ni := rooms[ni].roomType][s := rooms[s].roomType]
    ensures SinglesOf(rooms) == ss[ni := rooms[ni].singleConnection][s := rooms[s].singleConnection]
  {
    SwappedTypes(rooms, ts, ni, s);
    SwappedSingles(rooms, ss, ni, s);
  }

  /** The roles of the rooms when only the rooms at `ni` and `s` may have changed role. */
  lemma SwappedTypes(rooms: seq<Room>, ts: seq<RoomType>, ni: nat, s: nat)
    requires |ts| == |rooms| && ni < |rooms| && s < |rooms|
    requires forall i :: 0 <= i < |rooms| && i != ni && i != s ==> rooms[i].roomType == ts[i]
    ensures TypesOf(rooms) == ts[ni := rooms[ni].roomType][s := rooms[s].roomType]
  {
    var ts' := ts[ni := rooms[ni].roomType][s := rooms[s].roomType];
    assert forall i :: 0 <= i < |rooms| ==> TypesOf(rooms)[i] == ts'[i];
  }

  /** The dead-end flags of the rooms when only the rooms at `ni` and `s` may have changed flag. */
  lemma SwappedSingles(rooms: seq<Room>, ss: seq<bool>, ni: nat, s: nat)
    requires |ss| == |rooms| && ni < |rooms| && s < |rooms|
    requires forall i :: 0 <= i < |rooms| && i != ni && i != s ==> rooms[i].singleConnection == ss[i]
    ensures SinglesOf(rooms) == ss[ni := rooms[ni].singleConnection][s := rooms[s].singleConnection]
  {
    var ss' := ss[ni := rooms[ni].singleConnection][s := rooms[s].singleConnection];
    assert forall i :: 0 <= i < |rooms| ==> SinglesOf(rooms)[i] == ss'[i];
  }

  /**
   * One dead-end room `s`: find its position and move it there, if any
   * suits it. The move swaps the roles and dead-end flags of the two rooms:
   * the position takes `s`'s role and becomes a dead end, `s` becomes a
   * normal room.
   */
  method RelocateOne(rooms: seq<Room>, s: nat, avail: seq<(nat, Spot)>, ghost k: nat, ghost made: nat,
                     ghost m0: map<Room, seq<Room>>)
    returns (f: Option<nat>, ghost m: map<Room, seq<Room>>)
    requires k < |rooms| && s < |rooms| && s != k && rooms[k].roomType == Spawn && rooms[s].singleConnection
    requires ConnMap(rooms) == m0 && ReadyOn(rooms, rooms[k], made, m0)
    requires forall e :: e in avail ==> e.0 < |rooms| && e.0 != s && rooms[e.0].roomType == Normal
    modifies rooms`roomType, rooms`singleConnection, rooms`connections
    ensures f == FirstSuiting(avail, old(rooms[s].roomType))
    ensures ConnMap(rooms) == m && ReadyOn(rooms, rooms[k], made, m) && rooms[k].roomType == Spawn
    ensures f.None? ==> m == m0 && TypesOf(rooms) == old(TypesOf(rooms)) && SinglesOf(rooms) == old(SinglesOf(rooms))
    ensures f.Some? ==>
      TypesOf(rooms) == old(TypesOf(rooms))[avail[f.value].0 := old(rooms[s].roomType)][s := Normal] &&
      SinglesOf(rooms) == old(SinglesOf(rooms))[avail[f.value].0 := true][s := false]
  {
    f := FindSpot(avail, rooms[s].roomType);
    if f.None? {
      return f, m0;
    }
    assert avail[f.value] in avail;
    m := MoveTo(rooms, s, avail[f.value].0, k, made, m0);
  }

  /** The move of the dead-end room at `s` onto the normal room at `ni`, which keeps the rooms ready for phase 2. */
  method MoveTo(rooms: seq<Room>, s: nat, ni: nat, ghost k: nat, ghost made: nat, ghost m0: map<Room, seq<Room>>)
    returns (ghost m: map<Room, seq<Room>>)
    requires k < |rooms| && s < |rooms| && ni < |rooms| && s != k && ni != s
    requires rooms[k].roomType == Spawn && rooms[s].singleConnection && rooms[ni].roomType == Normal
    requires ConnMap(rooms) == m0 && ReadyOn(rooms, rooms[k], made, m0)
    modifies rooms`roomType, rooms`singleConnection, rooms`connections
    ensures ConnMap(rooms) == m && ReadyOn(rooms, rooms[k], made, m) && rooms[k].roomType == Spawn
    ensures TypesOf(rooms) == old(TypesOf(rooms))[ni := old(rooms[s].roomType)][s := Normal]
    ensures SinglesOf(rooms) == old(SinglesOf(rooms))[ni := true][s := false]
  {
    ghost var ts, ss := TypesOf(rooms), SinglesOf(rooms);
    ReadyIff(rooms, k, made, m0);
    RelocatedReady(rooms, ss, k, made, m0, ni, s);
    assert ts[k] == Spawn;
    RelocateAt(rooms, ni, s);
    m := Relocated(m0, rooms[ni], rooms[s]);
    ghost var ts' := TypesOf(rooms);
    ReadyIff(rooms, k, made, m);
    assert ts'[k] == Spawn;
  }

  /** Appending one plan entry and then the rest of the plan. */
  lemma AppendOne(a: seq<Option<nat>>, x: Option<nat>, b: seq<Option<nat>>)
    ensures (a + [x]) + b == a + ([x] + b)
  {
  }

  /** Rooms of the list by index, as the set of first components of the positions. */
  ghost function Offered(avail: seq<(nat, Spot)>): set<nat> {
    set e | e in avail :: e.0
  }

  /**
   * What the relocation loop keeps, over the roles `ts` and dead-end flags
   * `ss` of the rooms (`ts0` and `ss0` before the loop), once the first
   * `|placed|` dead-end rooms of `ds` are handled and `avail` is left of
   * the positions `avail0`: a moved room is normal and no longer a dead
   * end, its position has its role and is a dead end and is offered no
   * more; a room not moved, or not yet handled, keeps its role and flag,
   * and so does every room that is neither in `ds` nor offered.
   */
  ghost predicate Progress(ts0: seq<RoomType>, ss0: seq<bool>, ts: seq<RoomType>, ss: seq<bool>, ds: seq<nat>,
                           avail0: seq<(nat, Spot)>, avail: seq<(nat, Spot)>, placed: seq<Option<nat>>)
  {
    |ts| == |ts0| == |ss| == |ss0| && |placed| <= |ds| &&
    SpotsIncreasing(avail) &&
    (forall e :: e in avail ==> e in avail0 && e.0 < |ts| && ts[e.0] == Normal && Some(e.0) !in placed) &&
    (forall j :: 0 <= j < |placed| ==>
      ds[j] < |ts| &&
      if placed[j].Some? then
        placed[j].value in Offered(avail0) && placed[j].value < |ts| &&
        ts[placed[j].value] == ts0[ds[j]] && ss[placed[j].value] && ts[ds[j]] == Normal && !ss[ds[j]]
      else ts[ds[j]] == ts0[ds[j]] && ss[ds[j]]) &&
    (forall j :: |placed| <= j < |ds| ==> ds[j] < |ts| && ts[ds[j]] == ts0[ds[j]] && ss[ds[j]]) &&
    (forall i :: 0 <= i < |ts| && i !in ds && i !in Offered(avail0) ==> ts[i] == ts0[i] && ss[i] == ss0[i])
  }

  /** Before the next dead-end room is handled, it is still a dead end with its first role, and every position left is a normal room other than it. */
  lemma ProgressNext(ts0: seq<RoomType>, ss0: seq<bool>, ts: seq<RoomType>, ss: seq<bool>, ds: seq<nat>,
                     avail0: seq<(nat, Spot)>, avail: seq<(nat, Spot)>, placed: seq<Option<nat>>)
    requires Progress(ts0, ss0, ts, ss, ds, avail0, avail, placed) && |placed| < |ds|
    requires forall e :: e in avail0 ==> e.0 !in ds
    ensures ds[|placed|] < |ts| && ts[ds[|placed|]] == ts0[ds[|placed|]] && ss[ds[|placed|]]
    ensures forall e :: e in avail ==> e.0 < |ts| && e.0 != ds[|placed|] && ts[e.0] == Normal
  {
    forall e | e in avail
      ensures e.0 != ds[|placed|]
    {
      assert e in avail0;
    }
  }

  /** Handling the next dead-end room, moved to the position at `f` of `avail` or not moved, keeps `Progress`. */
  lemma ProgressStep(ts0: seq<RoomType>, ss0: seq<bool>, ts: seq<RoomType>, ss: seq<bool>, ds: seq<nat>,
                     avail0: seq<(nat, Spot)>, avail: seq<(nat, Spot)>, placed: seq<Option<nat>>, f: Option<nat>)
    requires Progress(ts0, ss0, ts, ss, ds, avail0, avail, placed) && |placed| < |ds|
    requires Increasing(ds) && forall e :: e in avail0 ==> e.0 !in ds
    requires f.Some? ==> f.value < |avail|
    ensures f.None? ==> Progress(ts0, ss0, ts, ss, ds, avail0, avail, placed + [None])
    ensures f.Some? ==>
      var s, ni := ds[|placed|], avail[f.value].0;
      Progress(ts0, ss0, ts[ni := ts[s]][s := Normal], ss[ni := true][s := false], ds, avail0,
               Removed(avail, f.value), placed + [Some(ni)])
  {
    if f.Some? {
      ProgressMoved(ts0, ss0, ts, ss, ds, avail0, avail, placed, f.value);
    } else {
      ProgressKept(ts0, ss0, ts, ss, ds, avail0, avail, placed);
    }
  }

  /** Moving the next dead-end room to the position at `f` of `avail` keeps `Progress`. */
  lemma ProgressMoved(ts0: seq<RoomType>, ss0: seq<bool>, ts: seq<RoomType>, ss: seq<bool>, ds: seq<nat>,
                      avail0: seq<(nat, Spot)>, avail: seq<(nat, Spot)>, placed: seq<Option<nat>>, f: nat)
    requires Progress(ts0, ss0, ts, ss, ds, avail0, avail, placed) && |placed| < |ds|
    requires Increasing(ds) && forall e :: e in avail0 ==> e.0 !in ds
    requires f < |avail|
    ensures var s, ni := ds[|placed|], avail[f].0;
      Progress(ts0, ss0, ts[ni := ts[s]][s := Normal], ss[ni := true][s := false], ds, avail0,
               Removed(avail, f), placed + [Some(ni)])
  {
    var j := |placed|;
    var s := ds[j];
    var ni := avail[f].0;
    assert avail[f] in avail && avail[f] in avail0;
    assert ni in Offered(avail0) && ni !in ds && ni != s;
    RemovedSpots(avail, f);
    var ts', ss', placed' := ts[ni := ts[s]][s := Normal], ss[ni := true][s := false], placed + [Some(ni)];
    forall j' | 0 <= j' < |placed'|
      ensures ds[j'] < |ts'| &&
        if placed'[j'].Some? then
          placed'[j'].value in Offered(avail0) && placed'[j'].value < |ts'| &&
          ts'[placed'[j'].value] == ts0[ds[j']] && ss'[placed'[j'].value] && ts'[ds[j']] == Normal && !ss'[ds[j']]
        else ts'[ds[j']] == ts0[ds[j']] && ss'[ds[j']]
    {
      if j' < j {
        assert placed'[j'] == placed[j'] && ds[j'] != s && ds[j'] != ni;
        if placed[j'].Some? {
          var p := placed[j'].value;
          assert p != ni;
          assert exists e :: e in avail0 && e.0 == p;
          var e :| e in avail0 && e.0 == p;
          assert p !in ds && p != s;
        }
      }
    }
    forall j' | j + 1 <= j' < |ds|
      ensures ds[j'] < |ts'| && ts'[ds[j']] == ts0[ds[j']] && ss'[ds[j']]
    {
      assert ds[j'] != s && ds[j'] != ni;
    }
    forall e | e in Removed(avail, f)
      ensures e in avail0 && e.0 < |ts'| && ts'[e.0] == Normal && Some(e.0) !in placed'
    {
      assert e in avail && e.0 != ni && e.0 != s;
    }
  }

  /** Leaving the next dead-end room where it is keeps `Progress`. */
  lemma ProgressKept(ts0: seq<RoomType>, ss0: seq<bool>, ts: seq<RoomType>, ss: seq<bool>, ds: seq<nat>,
                     avail0: seq<(nat, Spot)>, avail: seq<(nat, Spot)>, placed: seq<Option<nat>>)
    requires Progress(ts0, ss0, ts, ss, ds, avail0, avail, placed) && |placed| < |ds|
    ensures Progress(ts0, ss0, ts, ss, ds, avail0, avail, placed + [None])
  {
    var placed' := placed + [None];
    forall j' | 0 <= j' < |placed'|
      ensures ds[j'] < |ts| &&
        if placed'[j'].Some? then
          placed'[j'].value in Offered(avail0) && placed'[j'].value < |ts| &&
          ts[placed'[j'].value] == ts0[ds[j']] && ss[placed'[j'].value] && ts[ds[j']] == Normal && !ss[ds[j']]
        else ts[ds[j']] == ts0[ds[j']] && ss[ds[j']]
    {
      if j' < |placed| {
        assert placed'[j'] == placed[j'];
      }
    }
  }

  /**
   * The relocation loop: the dead-end rooms of `ds` are handled in turn as
   * `PlanAsWritten` says, counting the moves made, and the rooms stay ready
   * for phase 2. Each moved room is normal afterwards and its position has
   * its role and is a dead end; each room not moved keeps its role and
   * stays a dead end; every other room keeps its role and flag.
   */
  method RelocateAll(rooms: seq<Room>, ds: seq<nat>, avail0: seq<(nat, Spot)>, ghost k: nat, ghost made: nat,
                     ghost m0: map<Room, seq<Room>>)
    returns (placed: seq<Option<nat>>, ghost m: map<Room, seq<Room>>)
    requires k < |rooms| && rooms[k].roomType == Spawn
    requires ConnMap(rooms) == m0 && ReadyOn(rooms, rooms[k], made, m0)
    requires Increasing(ds) && forall j :: 0 <= j < |ds| ==> ds[j] < |rooms| && ds[j] != k && rooms[ds[j]].singleConnection
    requires SpotsIncreasing(avail0)
    requires forall e :: e in avail0 ==> e.0 < |rooms| && e.0 !in ds && rooms[e.0].roomType == Normal
    modifies rooms`roomType, rooms`singleConnection, rooms`connections
    ensures placed == PlanAsWritten(RolesAt(old(TypesOf(rooms)), ds), avail0, 0)
    ensures ConnMap(rooms) == m && ReadyOn(rooms, rooms[k], made, m) && rooms[k].roomType == Spawn
    ensures exists avail :: Progress(old(TypesOf(rooms)), old(SinglesOf(rooms)), TypesOf(rooms), SinglesOf(rooms),
                                     ds, avail0, avail, placed)
  {
    ghost var T0, S0 := TypesOf(rooms), SinglesOf(rooms);
    ghost var T, S := T0, S0;
    ghost var types := RolesAt(T0, ds);
    placed, m := [], m0;
    var avail := avail0;
    var relocated := 0;
    for j := 0 to |ds|
      invariant |placed| == j && placed + PlanAsWritten(types[j..], avail, relocated) == PlanAsWritten(types, avail0, 0)
      invariant ConnMap(rooms) == m && ReadyOn(rooms, rooms[k], made, m) && rooms[k].roomType == Spawn
      invariant TypesOf(rooms) == T && SinglesOf(rooms) == S
      invariant Progress(T0, S0, T, S, ds, avail0, avail, placed)
    {
      ProgressNext(T0, S0, T, S, ds, avail0, avail, placed);
      assert rooms[ds[j]].roomType == types[j];
      var f: Option<nat> := None;
      if relocated < |avail| {
        f, m := RelocateOne(rooms, ds[j], avail, k, made, m);
      }
      ProgressStep(T0, S0, T, S, ds, avail0, avail, placed, f);
      PlanAsWrittenStep(types, j, avail0, avail, relocated, placed, f);
      if f.None? {
        placed := placed + [None];
      } else {
        var ni := avail[f.value].0;
        T, S := T[ni := T[ds[j]]][ds[j] := Normal], S[ni := true][ds[j] := false];
        placed := placed + [Some(ni)];
        avail := Removed(avail, f.value);
        relocated := relocated + 1;
      }
    }
  }

  /** `FindAvailable`, seen from the relocation loop: normal rooms outside `ds` that reach spawn, in list order. */
  method OpenPositions(rooms: seq<Room>, grid: map<Slot, nat>, g: array2<int>, k: nat, ds: seq<nat>)
    returns (avail: seq<(nat, Spot)>)
    requires k < |rooms| && forall key :: key in grid ==> grid[key] < |rooms|
    requires forall j :: 0 <= j < |ds| ==> ds[j] < |rooms| && !ReachesSpawn(rooms, g, k, ds[j])
    ensures SpotsIncreasing(avail)
    ensures forall e :: e in avail ==>
      e.0 < |rooms| && e.0 !in ds && rooms[e.0].roomType == Normal && ReachesSpawn(rooms, g, k, e.0)
  {
    avail := FindAvailable(rooms, grid, g, k);
    forall e | e in avail
      ensures e.0 !in ds && rooms[e.0].roomType == Normal
    {
      assert Offers(rooms, grid, g, k, e.0, e.1);
      assert forall j :: 0 <= j < |ds| ==> ds[j] != e.0;
    }
  }

  /**
   * The moves for the dead-end rooms `ds` that cannot reach the spawn room
   * `k`: the rooms stay ready for phase 2, a dead-end room outside `ds`
   * afterwards reaches spawn, and a room of `ds` is still a dead end
   * exactly when no position was found for it.
   */
  method MoveDisconnected(rooms: seq<Room>, grid: map<Slot, nat>, g: array2<int>, k: nat, ds: seq<nat>,
                          ghost made: nat, ghost m0: map<Room, seq<Room>>)
    returns (placed: seq<Option<nat>>, ghost m: map<Room, seq<Room>>)
    requires k < |rooms| && rooms[k].roomType == Spawn && forall key :: key in grid ==> grid[key] < |rooms|
    requires ConnMap(rooms) == m0 && ReadyOn(rooms, rooms[k], made, m0)
    requires Increasing(ds) && forall j :: 0 <= j < |ds| ==> ds[j] < |rooms|
    requires forall i :: 0 <= i < |rooms| ==> (i in ds <==> rooms[i].singleConnection && !ReachesSpawn(rooms, g, k, i))
    modifies rooms`roomType, rooms`singleConnection, rooms`connections
    ensures ConnMap(rooms) == m && ReadyOn(rooms, rooms[k], made, m) && rooms[k].roomType == Spawn
    ensures |placed| == |ds|
    ensures forall i :: 0 <= i < |rooms| && rooms[i].singleConnection && i !in ds ==> ReachesSpawn(rooms, g, k, i)
    ensures forall j :: 0 <= j < |ds| ==> (placed[j].None? <==> rooms[ds[j]].singleConnection)
  {
    var avail := OpenPositions(rooms, grid, g, k, ds);
    ghost var ts0, ss0 := TypesOf(rooms), SinglesOf(rooms);
    assert forall i :: 0 <= i < |rooms| && ss0[i] && i !in ds ==> ReachesSpawn(rooms, g, k, i);
    placed, m := RelocateAll(rooms, ds, avail, k, made, m0);
    ghost var ss := SinglesOf(rooms);
    ghost var left :| Progress(ts0, ss0, TypesOf(rooms), ss, ds, avail, left, placed);
    MovedReach(rooms, g, k, ts0, ss0, TypesOf(rooms), ss, ds, avail, left, placed);
  }

  /**
   * After the moves, a dead-end room outside `ds` is either a position
   * that reached spawn or a room that was a dead end reaching spawn
   * before, and a room of `ds` is still a dead end exactly when it was
   * not moved.
   */
  lemma MovedReach(rooms: seq<Room>, g: array2<int>, k: nat, ts0: seq<RoomType>, ss0: seq<bool>,
                   ts: seq<RoomType>, ss: seq<bool>, ds: seq<nat>, avail0: seq<(nat, Spot)>,
                   avail: seq<(nat, Spot)>, placed: seq<Option<nat>>)
    requires k < |rooms| && |ts0| == |rooms| && |placed| == |ds| && ss == SinglesOf(rooms)
    requires Progress(ts0, ss0, ts, ss, ds, avail0, avail, placed)
    requires forall e :: e in avail0 ==> e.0 < |rooms| && ReachesSpawn(rooms, g, k, e.0)
    requires forall i :: 0 <= i < |rooms| && ss0[i] && i !in ds ==> ReachesSpawn(rooms, g, k, i)
    ensures forall i :: 0 <= i < |rooms| && rooms[i].singleConnection && i !in ds ==> ReachesSpawn(rooms, g, k, i)
    ensures forall j :: 0 <= j < |ds| ==> (placed[j].None? <==> rooms[ds[j]].singleConnection)
  {
    forall i | 0 <= i < |rooms| && ss[i] && i !in ds
      ensures ReachesSpawn(rooms, g, k, i)
    {
      if i in Offered(avail0) {
        var e :| e in avail0 && e.0 == i;
      } else {
        assert ss0[i];
      }
    }
  }

  /**
   * The pass once the spawn room `k` is found: the rooms stay ready for
   * phase 2, the only dead-end rooms left that cannot reach spawn are ones
   * no position was found for, and after any move every room's lattice slot
   * is written into the grid.
   */
  method RepairFrom(rooms: seq<Room>, grid: map<Slot, nat>, g: array2<int>, k: nat, ghost made: nat,
                    ghost m0: map<Room, seq<Room>>)
    returns (ds: seq<nat>, placed: seq<Option<nat>>, grid': map<Slot, nat>, ghost m: map<Room, seq<Room>>)
    requires k < |rooms| && rooms[k].roomType == Spawn && forall key :: key in grid ==> grid[key] < |rooms|
    requires ConnMap(rooms) == m0 && ReadyOn(rooms, rooms[k], made, m0)
    modifies rooms`roomType, rooms`singleConnection, rooms`connections
    ensures ConnMap(rooms) == m && ReadyOn(rooms, rooms[k], made, m) && rooms[k].roomType == Spawn
    ensures |placed| == |ds| && forall j :: 0 <= j < |ds| ==> ds[j] < |rooms|
    ensures forall i :: 0 <= i < |rooms| && rooms[i].singleConnection && !ReachesSpawn(rooms, g, k, i) ==> i in ds
    ensures forall j :: 0 <= j < |ds| ==> (placed[j].None? <==> rooms[ds[j]].singleConnection)
    ensures forall key :: key in grid' ==> grid'[key] < |rooms|
    ensures ds == [] ==> grid' == grid
    ensures ds != [] ==> grid' == grid + RoomGridOf(old(GridSlots(rooms)))
  {
    // The moves change roles and links, never grid positions, so the grid
    // rebuilt after them can be computed first.
    var rebuilt := PlaceAll(grid, GridSlots(rooms));
    ds := FindDisconnected(rooms, g, k);
    if ds == [] {
      return ds, [], grid, m0;
    }
    placed, m := MoveDisconnected(rooms, grid, g, k, ds, made, m0);
    grid' := rebuilt;
  }

  /**
   * `ensure_all_special_rooms_connected`. Without a spawn room nothing
   * changes; otherwise as `RepairFrom` says, for the first spawn room.
   */
  method RepairSpecialRooms(rooms: seq<Room>, grid: map<Slot, nat>, g: array2<int>, ghost made: nat,
                            ghost m0: map<Room, seq<Room>>)
    returns (k: Option<nat>, ds: seq<nat>, placed: seq<Option<nat>>, grid': map<Slot, nat>,
             ghost m: map<Room, seq<Room>>)
    requires forall key :: key in grid ==> grid[key] < |rooms|
    requires ConnMap(rooms) == m0
    requires FirstSpawn(rooms).Some? ==> ReadyOn(rooms, FirstSpawn(rooms).value, made, m0)
    modifies rooms`roomType, rooms`singleConnection, rooms`connections
    ensures ConnMap(rooms) == m && |placed| == |ds| && forall j :: 0 <= j < |ds| ==> ds[j] < |rooms|
    ensures k.None? <==> old(FirstSpawn(rooms)).None?
    ensures k.None? ==>
      m == m0 && grid' == grid && ds == [] &&
      forall r :: r in rooms ==> r.roomType == old(r.roomType) && r.singleConnection == old(r.singleConnection)
    ensures k.Some? ==>
      k.value < |rooms| && old(FirstSpawn(rooms)) == Some(rooms[k.value]) &&
      rooms[k.value].roomType == Spawn && ReadyOn(rooms, rooms[k.value], made, m)
    ensures k.Some? ==> forall i :: 0 <= i < |rooms| && rooms[i].singleConnection && !ReachesSpawn(rooms, g, k.value, i) ==> i in ds
    ensures forall j :: 0 <= j < |ds| ==> (placed[j].None? <==> rooms[ds[j]].singleConnection)
    ensures forall key :: key in grid' ==> grid'[key] < |rooms|
    ensures ds == [] ==> grid' == grid
    ensures ds != [] ==> grid' == grid + RoomGridOf(old(GridSlots(rooms)))
  {
    ghost var slots := GridSlots(rooms);
    k := FindSpawn(rooms);
    if k.None? {
      return k, [], [], grid, m0;
    }
    assert GridSlots(rooms) == slots;
    ds, placed, grid', m := RepairFrom(rooms, grid, g, k.value, made, m0);
  }
}
