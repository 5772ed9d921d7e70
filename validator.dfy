/**
 * The world validator and the retry loop around the generator.
 *
 * A world is accepted when it has at least ROOM_AMT rooms; exactly one
 * spawn, boss, shop and unlocked chest room and exactly two locked chest
 * rooms; every boss, shop and chest room has exactly one hallway and spawn
 * at least one; spawn is linked only to normal rooms and the unlocked chest
 * room; and every other room has a floor tile that the breadth-first flood
 * from spawn's centre reaches over floor and door tiles.
 */
module Validator {
  import opened Tiles
  import opened Rooms
  import opened Flood
  import opened TileSearch
  import opened Hallways

  const ROOM_AMT: nat := 16
  /** The world is 6400 x 5200 pixels of 40-pixel tiles. */
  const GRID_WIDTH: int := 160
  const GRID_HEIGHT: int := 130

  /** Why `validate_world` rejected a world, or that it accepted it. */
  datatype Verdict =
    | Valid
    | NoRooms
    | TooFewRooms
    | SpawnCount
    | BossCount
    | ShopCount
    | UnlockedChestCount
    | LockedChestCount
    | DeadEndViolation
    | SpawnLinkViolation
    | Unreachable

  /** The rooms that the rooms of the list are linked to, list after list. */
  ghost function Linked(rooms: seq<Room>): seq<Room>
    reads rooms
  {
    if rooms == [] then [] else Linked(rooms[..|rooms| - 1]) + rooms[|rooms| - 1].connections
  }

  /** Exactly the role counts a playable world has. */
  ghost predicate RoleCounts(types: seq<RoomType>) {
    Count(types, Spawn) == 1 && Count(types, Boss) == 1 && Count(types, Shop) == 1 &&
    Count(types, ChestUnlocked) == 1 && Count(types, ChestLocked) == 2
  }

  /** Boss, shop and chest rooms are dead ends with one hallway; spawn has at least one. */
  ghost predicate DeadEnds(rooms: seq<Room>)
    reads rooms
  {
    forall i :: 0 <= i < |rooms| ==>
      (rooms[i].roomType.IsSpecial() ==> |rooms[i].connections| == 1) &&
      (rooms[i].roomType == Spawn ==> |rooms[i].connections| >= 1)
  }

  /** Every room linked to `spawn` is a normal room or the unlocked chest room. */
  ghost predicate SpawnLinksOk(spawn: Room)
    reads spawn, spawn.connections
  {
    forall c :: c in spawn.connections ==> c.roomType == Normal || c.roomType == ChestUnlocked
  }

  /** Every room other than the spawn room `k` has a floor tile the flood from spawn's centre reaches. */
  ghost predicate AllReached(rooms: seq<Room>, g: array2<int>, k: nat)
    reads rooms, g
    requires k < |rooms|
  {
    forall i :: 0 <= i < |rooms| && rooms[i].roomType != Spawn ==>
      FloorReachable(g, Centre(rooms[k].rect), FloorOrigin(rooms[i].rect))
  }

  /** The world `validate_world` accepts. */
  ghost predicate WorldValid(rooms: seq<Room>, g: array2<int>)
    reads rooms, Linked(rooms), g
  {
    |rooms| >= ROOM_AMT && RoleCounts(TypesOf(rooms)) && DeadEnds(rooms) &&
    forall k :: 0 <= k < |rooms| && rooms[k].roomType == Spawn ==>
      (LinkedCovers(rooms, k); SpawnLinksOk(rooms[k])) && AllReached(rooms, g, k)
  }

  lemma {:induction false} LinkedCovers(rooms: seq<Room>, k: nat)
    requires k < |rooms|
    ensures forall c :: c in rooms[k].connections ==> c in Linked(rooms)
    ensures forall j :: 0 <= j < |rooms[k].connections| ==> rooms[k].connections[j] in Linked(rooms)
  {
    if k < |rooms| - 1 {
      LinkedCovers(rooms[..|rooms| - 1], k);
    }
  }

  /** A role that occurs once in a list occurs at one index only. */
  lemma CountOneUnique(rooms: seq<Room>, t: RoomType, i: nat, j: nat)
    requires Count(TypesOf(rooms), t) == 1
    requires i < |rooms| && j < |rooms| && rooms[i].roomType == t && rooms[j].roomType == t
    ensures i == j
  {
    TwoOccurrences(TypesOf(rooms), t, i, j);
    TwoOccurrences(TypesOf(rooms), t, j, i);
  }

  lemma TwoOccurrences<T>(ts: seq<T>, t: T, i: nat, j: nat)
    ensures i < j < |ts| && ts[i] == t && ts[j] == t ==> multiset(ts)[t] >= 2
  {
    if i < j < |ts| && ts[i] == t && ts[j] == t {
      assert ts == ts[..i] + [t] + ts[i + 1..j] + [t] + ts[j + 1..];
    }
  }

  /** With a single spawn room, checking the spawn conditions at that room checks them at every spawn room. */
  lemma ValidFromSpawnChecks(rooms: seq<Room>, g: array2<int>, k: nat)
    requires |rooms| >= ROOM_AMT && RoleCounts(TypesOf(rooms)) && DeadEnds(rooms)
    requires k < |rooms| && rooms[k].roomType == Spawn
    ensures WorldValid(rooms, g) <==> SpawnLinksOk(rooms[k]) && AllReached(rooms, g, k)
  {
    if SpawnLinksOk(rooms[k]) && AllReached(rooms, g, k) {
      forall j | 0 <= j < |rooms| && rooms[j].roomType == Spawn
        ensures SpawnLinksOk(rooms[j]) && AllReached(rooms, g, j)
      {
        CountOneUnique(rooms, Spawn, j, k);
      }
    }
  }

  /** The role-count checks of `validate_world`, in its order: the first count that is off names the verdict. */
  function RoleVerdict(types: seq<RoomType>): (v: Verdict)
    ensures v in {Valid, SpawnCount, BossCount, ShopCount, UnlockedChestCount, LockedChestCount}
    ensures v == Valid <==> RoleCounts(types)
    ensures v == SpawnCount <==> Count(types, Spawn) != 1
    ensures v == BossCount ==> Count(types, Boss) != 1
    ensures v == ShopCount ==> Count(types, Shop) != 1
    ensures v == UnlockedChestCount ==> Count(types, ChestUnlocked) != 1
    ensures v == LockedChestCount ==> Count(types, ChestLocked) != 2
  {
    if Count(types, Spawn) != 1 then SpawnCount
    else if Count(types, Boss) != 1 then BossCount
    else if Count(types, Shop) != 1 then ShopCount
    else if Count(types, ChestUnlocked) != 1 then UnlockedChestCount
    else if Count(types, ChestLocked) != 2 then LockedChestCount
    else Valid
  }

  /** The dead-end loop of `validate_world`. */
  method CheckDeadEnds(rooms: seq<Room>) returns (ok: bool)
    ensures ok <==> DeadEnds(rooms)
  {
    for i := 0 to |rooms|
      invariant forall j :: 0 <= j < i ==>
        (rooms[j].roomType.IsSpecial() ==> |rooms[j].connections| == 1) &&
        (rooms[j].roomType == Spawn ==> |rooms[j].connections| >= 1)
    {
      var n := |rooms[i].connections|;
      if rooms[i].roomType.IsSpecial() && n != 1 {
        return false;
      } else if rooms[i].roomType == Spawn && n == 0 {
        return false;
      }
    }
    return true;
  }

  /** The spawn-link loop of `validate_world`. */
  method CheckSpawnLinks(spawn: Room) returns (ok: bool)
    ensures ok <==> SpawnLinksOk(spawn)
  {
    var links := spawn.connections;
    for i := 0 to |links|
      invariant forall j :: 0 <= j < i ==> links[j].roomType == Normal || links[j].roomType == ChestUnlocked
    {
      if links[i].roomType != ChestUnlocked && links[i].roomType != Normal {
        return false;
      }
    }
    return true;
  }

  /**
   * Scans a room's 14 x 14 floor row by row for a tile that the flood
   * reached and that holds floor.
   */
  method FloorTileReached(g: array2<int>, s: Cell, visited: set<Cell>, f: Cell) returns (reached: bool)
    requires forall c :: c in visited <==> Reaches(g, [], s, c)
    ensures reached <==> FloorReachable(g, s, f)
  {
    for dy := 0 to 14
      invariant forall c: Cell :: f.0 <= c.0 < f.0 + 14 && f.1 <= c.1 < f.1 + dy ==> !(c in visited && FloorHit(g, f, c))
    {
      for dx := 0 to 14
        invariant forall c: Cell :: f.0 <= c.0 < f.0 + 14 && f.1 <= c.1 < f.1 + dy ==> !(c in visited && FloorHit(g, f, c))
        invariant forall c: Cell :: f.0 <= c.0 < f.0 + dx && c.1 == f.1 + dy ==> !(c in visited && FloorHit(g, f, c))
      {
        var c := (f.0 + dx, f.1 + dy);
        if c in visited && 0 <= c.0 < g.Length1 && 0 <= c.1 < g.Length0 && g[c.1, c.0] == FLOOR {
          assert Reaches(g, [], s, c) && FloorHit(g, f, c);
          return true;
        }
      }
    }
    return false;
  }

  /** The loop over the rooms other than spawn of `validate_world`. */
  method CheckAllReached(rooms: seq<Room>, g: array2<int>, k: nat, visited: set<Cell>) returns (ok: bool)
    requires k < |rooms|
    requires forall c :: c in visited <==> Reaches(g, [], Centre(rooms[k].rect), c)
    ensures ok <==> AllReached(rooms, g, k)
  {
    var s := Centre(rooms[k].rect);
    for i := 0 to |rooms|
      invariant forall j :: 0 <= j < i && rooms[j].roomType != Spawn ==> FloorReachable(g, s, FloorOrigin(rooms[j].rect))
    {
      if rooms[i].roomType == Spawn {
        continue;
      }
      var reached := FloorTileReached(g, s, visited, FloorOrigin(rooms[i].rect));
      if !reached {
        return false;
      }
    }
    return true;
  }

  /**
   * `validate_world`: the checks in the order the source makes them; the
   * verdict names the first one that fails.
   */
  method ValidateWorld(rooms: seq<Room>, g: array2<int>) returns (v: Verdict)
    requires g.Length0 == GRID_HEIGHT && g.Length1 == GRID_WIDTH
    ensures v == Valid <==> WorldValid(rooms, g)
    ensures v == NoRooms <==> rooms == []
    ensures v == TooFewRooms <==> 0 < |rooms| < ROOM_AMT
    ensures v == SpawnCount ==> Count(TypesOf(rooms), Spawn) != 1
    ensures v == BossCount ==> Count(TypesOf(rooms), Boss) != 1
    ensures v == ShopCount ==> Count(TypesOf(rooms), Shop) != 1
    ensures v == UnlockedChestCount ==> Count(TypesOf(rooms), ChestUnlocked) != 1
    ensures v == LockedChestCount ==> Count(TypesOf(rooms), ChestLocked) != 2
    ensures v == DeadEndViolation ==> !DeadEnds(rooms)
    ensures v == SpawnLinkViolation ==> exists k :: 0 <= k < |rooms| && rooms[k].roomType == Spawn && !SpawnLinksOk(rooms[k])
    ensures v == Unreachable ==> exists k :: 0 <= k < |rooms| && rooms[k].roomType == Spawn && !AllReached(rooms, g, k)
  {
    if |rooms| == 0 {
      return NoRooms;
    }
    if |rooms| < ROOM_AMT {
      return TooFewRooms;
    }
    v := RoleVerdict(TypesOf(rooms));
    if v != Valid {
      return;
    }
    v := ValidateLinks(rooms, g);
  }

  /** The checks of `validate_world` after the role counts: dead ends, spawn's links, reachability. */
  method ValidateLinks(rooms: seq<Room>, g: array2<int>) returns (v: Verdict)
    requires |rooms| >= ROOM_AMT && RoleCounts(TypesOf(rooms))
    ensures v in {Valid, DeadEndViolation, SpawnLinkViolation, Unreachable}
    ensures v == Valid <==> WorldValid(rooms, g)
    ensures v == DeadEndViolation <==> !DeadEnds(rooms)
    ensures v == SpawnLinkViolation ==> exists k :: 0 <= k < |rooms| && rooms[k].roomType == Spawn && !SpawnLinksOk(rooms[k])
    ensures v == Unreachable ==> exists k :: 0 <= k < |rooms| && rooms[k].roomType == Spawn && !AllReached(rooms, g, k)
  {
    var types := TypesOf(rooms);
    var deadEndsOk := CheckDeadEnds(rooms);
    if !deadEndsOk {
      return DeadEndViolation;
    }
    assert Spawn in multiset(types);
    var k :| 0 <= k < |rooms| && types[k] == Spawn;
    v := CheckSpawnRoom(rooms, g, k);
    assert TypesOf(rooms) == types;
    ValidFromSpawnChecks(rooms, g, k);
  }

  /** The spawn-room stage of `validate_world`: spawn's links, then the flood from its centre. */
  method CheckSpawnRoom(rooms: seq<Room>, g: array2<int>, k: nat) returns (v: Verdict)
    requires k < |rooms|
    ensures v == Valid || v == SpawnLinkViolation || v == Unreachable
    ensures v == Valid <==> SpawnLinksOk(rooms[k]) && AllReached(rooms, g, k)
    ensures v == SpawnLinkViolation <==> !SpawnLinksOk(rooms[k])
  {
    var linksOk := CheckSpawnLinks(rooms[k]);
    if !linksOk {
      return SpawnLinkViolation;
    }
    var visited := FloodFrom(g, Centre(rooms[k].rect));
    var reachedOk := CheckAllReached(rooms, g, k, visited);
    if !reachedOk {
      return Unreachable;
    }
    return Valid;
  }

  /**
   * One pass of the retry loop: generation came back with no rooms, raised
   * an exception, or built rooms and hallways on a fresh wall-filled
   * tilemap. Room placement, connection and repair are random and are
   * given here as their outcome.
   */
  datatype Attempt = NoRoomsBuilt | Raised | Built(rooms: seq<Room>, world: array2<int>)

  /** What `generate_valid_world` ends with. */
  datatype WorldResult =
    | Published(rooms: seq<Room>, attempt: nat)  // the 1-based attempt whose world was accepted
    | GaveUp(attempt: nat)                       // the cap of 100 attempts was hit
    | OutOfAttempts                              // every supplied attempt was used up

  const MAX_ATTEMPTS: nat := 100

  /** Attempt `a` built a world that `validate_world` accepts. */
  ghost predicate Accepted(a: Attempt)
    reads if a.Built? then a.rooms else [], if a.Built? then Linked(a.rooms) else []
    reads if a.Built? then {a.world} else {}
  {
    a.Built? && WorldValid(a.rooms, a.world)
  }

  /** The `is_valid` flag `generate_valid_world` takes from `validate_world`'s answer. */
  method IsValidWorld(a: Attempt, ghost acc: bool) returns (isValid: bool)
    requires a.Built? && WorldSized(a.world) && acc == Accepted(a)
    ensures isValid == acc
  {
    var verdict := ValidateWorld(a.rooms, a.world);
    isValid := verdict == Valid;
  }

  /** A tilemap of the world's size. */
  predicate WorldSized(g: array2<int>) {
    g.Length0 == GRID_HEIGHT && g.Length1 == GRID_WIDTH
  }

  /** The copy loop of `generate_valid_world`: every cell of `src` into `dst`. */
  method CopyTilemap(src: array2<int>, dst: array2<int>)
    requires src != dst && src.Length0 == dst.Length0 && src.Length1 == dst.Length1
    modifies dst
    ensures forall y, x :: 0 <= y < dst.Length0 && 0 <= x < dst.Length1 ==> dst[y, x] == src[y, x]
  {
    for y := 0 to dst.Length0
      invariant forall y', x :: 0 <= y' < y && 0 <= x < dst.Length1 ==> dst[y', x] == src[y', x]
    {
      for x := 0 to dst.Length1
        invariant forall y', x' :: 0 <= y' < y && 0 <= x' < dst.Length1 ==> dst[y', x'] == src[y', x']
        invariant forall x' :: 0 <= x' < x ==> dst[y, x'] == src[y, x']
      {
        dst[y, x] := src[y, x];
      }
    }
  }

  /**
   * `accepted[i]` is `validate_world`'s answer on attempt `i`'s world, in
   * the state the attempts are judged in.
   */
  ghost predicate Verdicts(attempts: seq<Attempt>, accepted: seq<bool>)
    reads *
  {
    |accepted| == |attempts| && forall i :: 0 <= i < |attempts| ==> accepted[i] == Accepted(attempts[i])
  }

  /**
   * How `generate_valid_world` ends, given the attempts from the `n`-th
   * (0-based) on and whether each was accepted: the first accepted attempt
   * is published; an attempt that built no rooms goes straight to the next
   * one and so never meets the cap; any other failed attempt ends the loop
   * once it is the 100th or a later one.
   */
  function RetryOutcome(attempts: seq<Attempt>, accepted: seq<bool>, n: nat): WorldResult
    requires |accepted| == |attempts| && n <= |attempts|
    decreases |attempts| - n
  {
    if n == |attempts| then OutOfAttempts
    else if attempts[n] == NoRoomsBuilt then RetryOutcome(attempts, accepted, n + 1)
    else if attempts[n].Built? && accepted[n] then Published(attempts[n].rooms, n + 1)
    else if n + 1 >= MAX_ATTEMPTS then GaveUp(n + 1)
    else RetryOutcome(attempts, accepted, n + 1)
  }

  /** The attempt loop of `generate_valid_world` up to its decision. */
  method RunAttempts(attempts: seq<Attempt>, ghost accepted: seq<bool>) returns (r: WorldResult)
    requires forall i :: 0 <= i < |attempts| && attempts[i].Built? ==> WorldSized(attempts[i].world)
    requires Verdicts(attempts, accepted)
    ensures r == RetryOutcome(attempts, accepted, 0)
  {
    var attempt := 0;
    while attempt < |attempts|
      invariant 0 <= attempt <= |attempts|
      invariant RetryOutcome(attempts, accepted, attempt) == RetryOutcome(attempts, accepted, 0)
    {
      attempt := attempt + 1;
      if attempts[attempt - 1] == NoRoomsBuilt {
        continue;
      }
      if attempts[attempt - 1].Built? {
        var isValid := IsValidWorld(attempts[attempt - 1], accepted[attempt - 1]);
        if isValid {
          return Published(attempts[attempt - 1].rooms, attempt);
        }
      }
      if attempt >= MAX_ATTEMPTS {
        return GaveUp(attempt);
      }
    }
    return OutOfAttempts;
  }

  /**
   * `generate_valid_world`: runs the attempts and, when one is accepted,
   * copies its tilemap into `tilemap` cell by cell; otherwise `tilemap` is
   * left alone.
   */
  method GenerateValidWorld(attempts: seq<Attempt>, ghost accepted: seq<bool>, tilemap: array2<int>) returns (r: WorldResult)
    requires WorldSized(tilemap)
    requires forall i :: 0 <= i < |attempts| && attempts[i].Built? ==>
      attempts[i].world != tilemap && WorldSized(attempts[i].world)
    requires Verdicts(attempts, accepted)
    modifies tilemap
    ensures r == RetryOutcome(attempts, accepted, 0)
    ensures r.Published? ==>
      1 <= r.attempt <= |attempts| && attempts[r.attempt - 1].Built? && WorldSized(attempts[r.attempt - 1].world) &&
      forall y, x :: 0 <= y < GRID_HEIGHT && 0 <= x < GRID_WIDTH ==> tilemap[y, x] == attempts[r.attempt - 1].world[y, x]
    ensures !r.Published? ==> unchanged(tilemap)
  {
    r := RunAttempts(attempts, accepted);
    if r.Published? {
      RetryPublishes(attempts, accepted, 0);
      CopyTilemap(attempts[r.attempt - 1].world, tilemap);
    }
  }

  /** A published result names a built, accepted attempt, and no attempt before it was accepted. */
  lemma {:induction false} RetryPublishes(attempts: seq<Attempt>, accepted: seq<bool>, n: nat)
    requires |accepted| == |attempts| && n <= |attempts|
    ensures RetryOutcome(attempts, accepted, n).Published? ==>
      var k := RetryOutcome(attempts, accepted, n).attempt;
      n < k <= |attempts| && attempts[k - 1].Built? && accepted[k - 1] &&
      RetryOutcome(attempts, accepted, n).rooms == attempts[k - 1].rooms &&
      forall i :: n <= i < k - 1 ==> !(attempts[i].Built? && accepted[i])
    decreases |attempts| - n
  {
    if n < |attempts| {
      RetryPublishes(attempts, accepted, n + 1);
    }
  }

  /**
   * The loop gives up at the first failed attempt that is the 100th or
   * later, and only when it built rooms; everything from the 100th attempt
   * up to it built no rooms, and nothing before it was accepted.
   */
  lemma {:induction false} RetryGivesUp(attempts: seq<Attempt>, accepted: seq<bool>, n: nat)
    requires |accepted| == |attempts| && n <= |attempts|
    ensures RetryOutcome(attempts, accepted, n).GaveUp? ==>
      var k := RetryOutcome(attempts, accepted, n).attempt;
      n < k <= |attempts| && MAX_ATTEMPTS <= k && attempts[k - 1] != NoRoomsBuilt &&
      (forall i :: n <= i < k ==> !(attempts[i].Built? && accepted[i])) &&
      forall i :: n <= i < k - 1 && MAX_ATTEMPTS <= i + 1 ==> attempts[i] == NoRoomsBuilt
    decreases |attempts| - n
  {
    if n < |attempts| {
      RetryGivesUp(attempts, accepted, n + 1);
    }
  }

  /**
   * The loop runs out of attempts only when none was accepted and every
   * attempt from the 100th on built no rooms: the cap is reached by any
   * attempt that built rooms.
   */
  lemma {:induction false} RetryRunsOut(attempts: seq<Attempt>, accepted: seq<bool>, n: nat)
    requires |accepted| == |attempts| && n <= |attempts|
    ensures RetryOutcome(attempts, accepted, n) == OutOfAttempts <==>
      (forall i :: n <= i < |attempts| ==> !(attempts[i].Built? && accepted[i])) &&
      forall i :: n <= i < |attempts| && MAX_ATTEMPTS <= i + 1 ==> attempts[i] == NoRoomsBuilt
    decreases |attempts| - n
  {
    if n < |attempts| {
      RetryRunsOut(attempts, accepted, n + 1);
    }
  }
}
