/**
 * Room creation and role assignment of `generate_grid_rooms`. The rooms are
 * built from the chosen footprints: the first is the spawn room, the rest
 * are normal. The boss, the three chest rooms and the shop are then picked
 * among the non-spawn rooms. The picks follow the lattice rules and the
 * hop distance from the spawn room. Any role still missing is forced onto
 * a normal room.
 *
 * The selection is stated on value snapshots: `ts` holds the rooms' roles,
 * `slots` their lattice slots, `grid` the room grid and `dists` the hop
 * distances from room 0.
 */
module Roles {
  import opened Tiles
  import opened Rooms
  import opened Wrappers
  import opened Graphs
  import opened Lattice

  // ---------------------------------------------------------------- creation

  const FLOOR_SIZE: int := 14
  const WALL_THICKNESS: int := 1

  /** The floor rectangle, in pixels, of the room whose footprint starts at tile `pos`. */
  function FloorRect(pos: (int, int)): Rect {
    Rect((pos.0 + WALL_THICKNESS) * TILE_SIZE, (pos.1 + WALL_THICKNESS) * TILE_SIZE,
         FLOOR_SIZE * TILE_SIZE, FLOOR_SIZE * TILE_SIZE)
  }

  /** The role a room is created with: spawn for the first, normal for the others. */
  function InitialRole(i: nat): RoomType {
    if i == 0 then Spawn else Normal
  }

  /**
   * One fresh room per footprint, in order. Each room has its floor
   * rectangle and its initial role, and the footprint's top-left tile is
   * its grid position.
   */
  method CreateRooms(positions: seq<(int, int)>) returns (rooms: seq<Room>)
    ensures |rooms| == |positions| && Distinct(rooms)
    ensures forall i :: 0 <= i < |rooms| ==> fresh(rooms[i])
    ensures forall i :: 0 <= i < |rooms| ==>
      rooms[i].rect == FloorRect(positions[i]) && (rooms[i].gridX, rooms[i].gridY) == positions[i] &&
      rooms[i].roomType == InitialRole(i) && !rooms[i].singleConnection &&
      rooms[i].connections == [] && !rooms[i].revealed
    ensures Placements(rooms, positions) && TypesOf(rooms) == InitialRoles(|rooms|)
  {
    rooms := [];
    for i := 0 to |positions|
      invariant |rooms| == i && Distinct(rooms)
      invariant forall j :: 0 <= j < i ==> fresh(rooms[j])
      invariant forall j :: 0 <= j < i ==>
        rooms[j].rect == FloorRect(positions[j]) && (rooms[j].gridX, rooms[j].gridY) == positions[j] &&
        rooms[j].roomType == InitialRole(j) && !rooms[j].singleConnection &&
        rooms[j].connections == [] && !rooms[j].revealed
    {
      var x, y := positions[i].0, positions[i].1;
      var r := new Room((x + WALL_THICKNESS) * TILE_SIZE, (y + WALL_THICKNESS) * TILE_SIZE,
                        FLOOR_SIZE * TILE_SIZE, FLOOR_SIZE * TILE_SIZE, InitialRole(i));
      r.gridX, r.gridY := x, y;
      rooms := rooms + [r];
    }
  }

  /** Each room sits on its footprint, unrevealed and with no links yet. */
  predicate Placements(rooms: seq<Room>, positions: seq<(int, int)>)
    reads rooms`gridX, rooms`gridY, rooms`connections, rooms`revealed
  {
    |rooms| == |positions| &&
    forall i :: 0 <= i < |rooms| ==>
      rooms[i].rect == FloorRect(positions[i]) && (rooms[i].gridX, rooms[i].gridY) == positions[i] &&
      rooms[i].connections == [] && !rooms[i].revealed
  }

  // ---------------------------------------------------------------- candidates

  /**
   * `can_connect_to_normal_or_spawn`: a normal or spawn neighbour, and no
   * spawn neighbour unless the room is meant to be the unlocked chest room.
   */
  predicate CanConnect(grid: map<Slot, nat>, ts: seq<RoomType>, k: Slot, intended: Option<RoomType>) {
    (HasNeighbourOfRole(grid, ts, k, Normal) || HasNeighbourOfRole(grid, ts, k, Spawn)) &&
    (HasNeighbourOfRole(grid, ts, k, Spawn) ==> intended == Some(ChestUnlocked))
  }

  /** A candidate for role `t`: it can connect for `t` and is not a corner room. */
  predicate Eligible(grid: map<Slot, nat>, slots: seq<Slot>, ts: seq<RoomType>, i: nat, t: RoomType)
    requires i < |slots|
  {
    CanConnect(grid, ts, slots[i], Some(t)) && NeighbourCount(grid, slots[i]) > 2
  }

  predicate Ascending(s: seq<nat>) {
    forall p, q :: 0 <= p < q < |s| ==> s[p] < s[q]
  }

  /** In an ascending list a smaller element comes first. */
  lemma AscendingOrder(s: seq<nat>, p: nat, q: nat)
    requires Ascending(s) && p < |s| && q < |s| && s[q] < s[p]
    ensures q < p
  {
  }

  /** The candidates for `t` among the rooms 1 .. n-1 not in `skip`, in list order. */
  function CandidatesOf(grid: map<Slot, nat>, slots: seq<Slot>, ts: seq<RoomType>, n: nat, skip: set<nat>,
                        t: RoomType): (c: seq<nat>)
    requires n <= |slots|
    ensures Ascending(c) && forall q :: 0 <= q < |c| ==> 1 <= c[q] < n
    ensures forall i :: i in c <==> 1 <= i < n && i !in skip && Eligible(grid, slots, ts, i, t)
  {
    if n <= 1 then []
    else
      var c := CandidatesOf(grid, slots, ts, n - 1, skip, t);
      if n - 1 !in skip && Eligible(grid, slots, ts, n - 1, t) then c + [n - 1] else c
  }

  /** The list comprehension over the non-spawn rooms: the candidates for `t` not in `skip`. */
  method Candidates(grid: map<Slot, nat>, slots: seq<Slot>, ts: seq<RoomType>, skip: set<nat>, t: RoomType)
    returns (c: seq<nat>)
    ensures c == CandidatesOf(grid, slots, ts, |slots|, skip, t)
  {
    c := [];
    if |slots| <= 1 {
      return;
    }
    for i := 1 to |slots|
      invariant c == CandidatesOf(grid, slots, ts, i, skip, t)
    {
      if i !in skip {
        var ok := IsEligible(grid, slots, ts, i, t);
        if ok {
          c := c + [i];
        }
      }
    }
  }

  /** The test the comprehension applies to the room at `i`. */
  method IsEligible(grid: map<Slot, nat>, slots: seq<Slot>, ts: seq<RoomType>, i: nat, t: RoomType) returns (ok: bool)
    requires i < |slots|
    ensures ok == Eligible(grid, slots, ts, i, t)
  {
    var connects := CanConnectToNormalOrSpawn(grid, ts, slots[i], Some(t));
    var corner := IsCornerRoom(grid, slots[i]);
    ok := connects && !corner;
  }

  // ---------------------------------------------------------------- distances

  /** `a < b` between hop distances, infinity above every number. */
  predicate Nearer(a: Distance, b: Distance) {
    a.Finite? && (b.Infinite? || a.n < b.n)
  }

  /** `max(cands, key=distance)`: the position of the first candidate with the greatest distance. */
  function FirstFarthest(cands: seq<nat>, dists: seq<Distance>): (p: nat)
    requires cands != [] && forall q :: 0 <= q < |cands| ==> cands[q] < |dists|
    ensures p < |cands|
    ensures forall q :: 0 <= q < |cands| ==> !Nearer(dists[cands[p]], dists[cands[q]])
    ensures forall q :: 0 <= q < p ==> Nearer(dists[cands[q]], dists[cands[p]])
  {
    if |cands| == 1 then 0
    else
      var n := |cands| - 1;
      var p := FirstFarthest(cands[..n], dists);
      assert forall q :: 0 <= q < n ==> cands[..n][q] == cands[q];
      if Nearer(dists[cands[p]], dists[cands[n]]) then n else p
  }

  /** The head of a stable ascending sort by distance: the position of the first nearest candidate. */
  function FirstNearest(cands: seq<nat>, dists: seq<Distance>): (p: nat)
    requires cands != [] && forall q :: 0 <= q < |cands| ==> cands[q] < |dists|
    ensures p < |cands|
    ensures forall q :: 0 <= q < |cands| ==> !Nearer(dists[cands[q]], dists[cands[p]])
    ensures forall q :: 0 <= q < p ==> Nearer(dists[cands[p]], dists[cands[q]])
  {
    if |cands| == 1 then 0
    else
      var n := |cands| - 1;
      var p := FirstNearest(cands[..n], dists);
      assert forall q :: 0 <= q < n ==> cands[..n][q] == cands[q];
      if Nearer(dists[cands[n]], dists[cands[p]]) then n else p
  }

  /** The list without `x`, order kept. */
  function Drop(s: seq<nat>, x: nat): (r: seq<nat>)
    ensures forall y :: y in r <==> y in s && y != x
    ensures forall q :: 0 <= q < |r| ==> r[q] in s
    ensures x !in s ==> r == s
    ensures Ascending(s) ==> Ascending(r) && |r| >= |s| - 1
  {
    if s == [] then []
    else
      var n := |s| - 1;
      assert s[..n] + [s[n]] == s;
      DropLast(s[..n], s[n], x, Drop(s[..n], x));
      if s[n] == x then Drop(s[..n], x) else Drop(s[..n], x) + [s[n]]
  }

  /** `Drop`'s properties carry over from a list to the list with one more element. */
  lemma DropLast(p: seq<nat>, e: nat, x: nat, r: seq<nat>)
    requires forall y :: y in r <==> y in p && y != x
    requires forall q :: 0 <= q < |r| ==> r[q] in p
    requires x !in p ==> r == p
    requires Ascending(p) ==> Ascending(r) && |r| >= |p| - 1
    ensures var r' := if e == x then r else r + [e];
      (forall y :: y in r' <==> y in p + [e] && y != x) &&
      (forall q :: 0 <= q < |r'| ==> r'[q] in p + [e]) &&
      (x !in p + [e] ==> r' == p + [e]) &&
      (Ascending(p + [e]) ==> Ascending(r') && |r'| >= |p + [e]| - 1)
  {
    if Ascending(p + [e]) {
      assert forall q :: 0 <= q < |p| ==> (p + [e])[q] == p[q];
      assert Ascending(p);
      forall y | y in p
        ensures y < e
      {
        var q :| 0 <= q < |p| && p[q] == y;
        assert (p + [e])[q] == y && (p + [e])[|p|] == e;
      }
    }
  }

  /** The first farthest candidate itself, as a member of the list. */
  function Farthest(cands: seq<nat>, dists: seq<Distance>): (c: nat)
    requires cands != [] && forall q :: 0 <= q < |cands| ==> cands[q] < |dists|
    ensures c in cands
    ensures forall x :: x in cands ==> !Nearer(dists[c], dists[x])
  {
    var p := FirstFarthest(cands, dists);
    assert forall x :: x in cands ==> exists q :: 0 <= q < |cands| && cands[q] == x;
    cands[p]
  }

  /** The first nearest candidate itself, as a member of the list. */
  function Nearest(cands: seq<nat>, dists: seq<Distance>): (c: nat)
    requires cands != [] && forall q :: 0 <= q < |cands| ==> cands[q] < |dists|
    ensures c in cands
    ensures forall x :: x in cands ==> !Nearer(dists[x], dists[c])
  {
    var p := FirstNearest(cands, dists);
    assert forall x :: x in cands ==> exists q :: 0 <= q < |cands| && cands[q] == x;
    cands[p]
  }

  /**
   * The locked chests among the locked candidates left: the farthest, then
   * the farthest of the others when there is another.
   */
  function LockedPicks(rest: seq<nat>, dists: seq<Distance>): (picks: seq<nat>)
    requires rest != [] && Ascending(rest)
    requires forall q :: 0 <= q < |rest| ==> rest[q] < |dists|
    ensures 1 <= |picks| <= 2 && picks[0] in rest
    ensures forall c :: c in rest ==> !Nearer(dists[picks[0]], dists[c])
    ensures |picks| == 2 ==> picks[1] in rest && picks[1] != picks[0]
    ensures |picks| == 2 ==> forall c :: c in rest && c != picks[0] ==> !Nearer(dists[picks[1]], dists[c])
    ensures |picks| == 1 ==> forall c :: c in rest ==> c == picks[0]
  {
    var a := Farthest(rest, dists);
    if |rest| >= 2 then
      var rest2 := Drop(rest, a);
      [a, Farthest(rest2, dists)]
    else
      assert forall c :: c in rest ==> c == rest[0];
      [a]
  }

  /**
   * Step 2 when there is an unlocked candidate and two locked ones: the
   * unlocked chest is the nearest unlocked candidate; the locked chests are
   * the farthest locked candidates other than it, two of them when there
   * are two. A stable sort followed by taking the head gives the first
   * extreme candidate.
   */
  function ChestPicks(unlocked: seq<nat>, locked: seq<nat>, dists: seq<Distance>): (picks: seq<nat>)
    requires |unlocked| >= 1 && |locked| >= 2 && Ascending(locked)
    requires forall q :: 0 <= q < |unlocked| ==> unlocked[q] < |dists|
    requires forall q :: 0 <= q < |locked| ==> locked[q] < |dists|
    ensures 2 <= |picks| <= 3 && picks[0] in unlocked && picks[1] in locked
    ensures |picks| == 3 ==> picks[2] in locked && picks[2] != picks[0] && picks[2] != picks[1]
    ensures picks[1] != picks[0]
    ensures forall c :: c in unlocked ==> !Nearer(dists[c], dists[picks[0]])
    ensures forall c :: c in locked && c != picks[0] ==> !Nearer(dists[picks[1]], dists[c])
    ensures |picks| == 3 ==>
      forall c :: c in locked && c != picks[0] && c != picks[1] ==> !Nearer(dists[picks[2]], dists[c])
    ensures |picks| == 2 ==> forall c :: c in locked ==> c == picks[0] || c == picks[1]
  {
    var u := Nearest(unlocked, dists);
    [u] + LockedPicks(Drop(locked, u), dists)
  }

  // ---------------------------------------------------------------- shop

  /** A float score: a number, positive infinity, or NaN. */
  datatype Score = Fin(n: int) | PosInf | NaN

  /**
   * `hallway_dist_spawn * 2 + abs(boss_dist - hallway_dist_spawn)` in
   * floating point: an infinite distance makes the score infinite, and two
   * infinite distances make it NaN (infinity minus infinity).
   */
  function ShopScore(ds: Distance, db: Distance): Score {
    match (ds, db)
    case (Finite(a), Finite(b)) => Fin(2 * a + (if b >= a then b - a else a - b))
    case (Finite(_), Infinite) => PosInf
    case (Infinite, Finite(_)) => PosInf
    case (Infinite, Infinite) => NaN
  }

  /** `s > best` between floats; no comparison with NaN holds. */
  predicate Beats(s: Score, best: Score) {
    match (s, best)
    case (Fin(a), Fin(b)) => a > b
    case (PosInf, Fin(_)) => true
    case _ => false
  }

  /** The best score and the room holding it after scanning `cands` from `best = 0`, keeping the first on ties. */
  function ShopScan(cands: seq<nat>, dists: seq<Distance>, db: Distance): (r: (Score, Option<nat>))
    requires forall q :: 0 <= q < |cands| ==> cands[q] < |dists|
    ensures r.0 != NaN
    ensures r.1.None? ==> r.0 == Fin(0)
    ensures r.1.Some? ==> r.1.value in cands && r.0 == ShopScore(dists[r.1.value], db)
  {
    if cands == [] then (Fin(0), None)
    else
      var n := |cands| - 1;
      var r := ShopScan(cands[..n], dists, db);
      var s := ShopScore(dists[cands[n]], db);
      if Beats(s, r.0) then (s, Some(cands[n])) else r
  }

  /** The scan keeps a best score that no candidate beats. */
  lemma {:induction false} ShopScanBest(cands: seq<nat>, dists: seq<Distance>, db: Distance)
    requires forall q :: 0 <= q < |cands| ==> cands[q] < |dists|
    ensures forall c :: c in cands ==> !Beats(ShopScore(dists[c], db), ShopScan(cands, dists, db).0)
  {
    if cands != [] {
      var n := |cands| - 1;
      ShopScanBest(cands[..n], dists, db);
      assert forall c :: c in cands ==> c in cands[..n] || c == cands[n];
    }
  }

  /** The scan picks no room exactly when no candidate's score beats 0. */
  lemma {:induction false} ShopScanNone(cands: seq<nat>, dists: seq<Distance>, db: Distance)
    requires forall q :: 0 <= q < |cands| ==> cands[q] < |dists|
    ensures ShopScan(cands, dists, db).1.None? <==> forall c :: c in cands ==> !Beats(ShopScore(dists[c], db), Fin(0))
  {
    if cands != [] {
      var n := |cands| - 1;
      ShopScanNone(cands[..n], dists, db);
      assert forall c :: c in cands ==> c in cands[..n] || c == cands[n];
    }
  }

  /**
   * A room other than spawn is at least one hop away, so its score is
   * above 0 unless it is NaN: the scan picks no room only when every
   * candidate and the boss room are unreachable.
   */
  lemma ShopMissedOnlyWhenUnreachable(cands: seq<nat>, dists: seq<Distance>, db: Distance)
    requires forall q :: 0 <= q < |cands| ==> cands[q] < |dists| && dists[cands[q]] != Finite(0)
    ensures ShopScan(cands, dists, db).1.None? <==>
      cands == [] || (db.Infinite? && forall c :: c in cands ==> dists[c].Infinite?)
  {
    ShopScanNone(cands, dists, db);
    if ShopScan(cands, dists, db).1.None? && cands != [] {
      forall c | c in cands
        ensures dists[c].Infinite? && db.Infinite?
      {
        var q :| 0 <= q < |cands| && cands[q] == c;
        assert !Beats(ShopScore(dists[c], db), Fin(0));
      }
    }
  }

  /** The shop loop: the room `ShopScan` picks. */
  method PickShop(cands: seq<nat>, dists: seq<Distance>, db: Distance) returns (shop: Option<nat>)
    requires forall q :: 0 <= q < |cands| ==> cands[q] < |dists|
    ensures shop == ShopScan(cands, dists, db).1
  {
    var best := Fin(0);
    shop := None;
    for q := 0 to |cands|
      invariant (best, shop) == ShopScan(cands[..q], dists, db)
    {
      assert cands[..q + 1][..q] == cands[..q];
      var score := ShopScore(dists[cands[q]], db);
      if Beats(score, best) {
        best, shop := score, Some(cands[q]);
      }
    }
    assert cands[..|cands|] == cands;
  }

  // ---------------------------------------------------------------- hop distances

  /** `calculate_hallway_distance_from_spawn` for every room, in list order. */
  method Distances(grid: map<Slot, nat>, slots: seq<Slot>) returns (dists: seq<Distance>)
    requires IsRoomGrid(slots, grid) && |slots| > 0
    ensures |dists| == |slots|
    ensures forall i :: 0 <= i < |slots| ==> IsHopDistance(LatticeAdj(grid, slots), 0, i, dists[i])
  {
    dists := [];
    for i := 0 to |slots|
      invariant |dists| == i
      invariant forall j :: 0 <= j < i ==> IsHopDistance(LatticeAdj(grid, slots), 0, j, dists[j])
    {
      var d := HallwayDistanceFromSpawn(grid, slots, i);
      dists := dists + [d];
    }
  }

  /** Only the spawn room is zero hops from the spawn room. */
  lemma OnlySpawnAtZero(adj: Adj, dists: seq<Distance>)
    requires forall i :: 0 <= i < |dists| ==> IsHopDistance(adj, 0, i, dists[i])
    ensures forall i :: 0 < i < |dists| ==> dists[i] != Finite(0)
  {
    forall i | 0 < i < |dists| && dists[i] == Finite(0)
      ensures false
    {
      assert IsHopDistance(adj, 0, i, dists[i]);
      WalkZeroIsStart(adj, 0, i);
    }
  }

  // ---------------------------------------------------------------- steps 1 to 3

  /** The boss room: a farthest candidate, the first in list order among the farthest. */
  predicate BossChoice(cands: seq<nat>, dists: seq<Distance>, boss: Option<nat>)
    requires forall c :: c in cands ==> c < |dists|
  {
    (boss.None? <==> cands == []) &&
    (boss.Some? ==>
       boss.value in cands &&
       (forall c :: c in cands ==> !Nearer(dists[boss.value], dists[c])) &&
       (forall c :: c in cands && c < boss.value ==> Nearer(dists[c], dists[boss.value])))
  }

  /** Step 1: the boss room among the candidates for `boss`. */
  method PickBoss(grid: map<Slot, nat>, slots: seq<Slot>, ts: seq<RoomType>, dists: seq<Distance>)
    returns (boss: Option<nat>)
    requires |dists| == |slots|
    ensures BossChoice(CandidatesOf(grid, slots, ts, |slots|, {}, Boss), dists, boss)
  {
    var c := Candidates(grid, slots, ts, {}, Boss);
    if c == [] {
      return None;
    }
    var p := FirstFarthest(c, dists);
    forall x | x in c && x < c[p]
      ensures Nearer(dists[x], dists[c[p]])
    {
      var q :| 0 <= q < |c| && c[q] == x;
      AscendingOrder(c, p, q);
    }
    boss := Some(c[p]);
  }

  /** The distinct values of a list. */
  function PoolSet(pool: seq<nat>): set<nat> {
    set x | x in pool
  }

  /** `list(set(pool))[:3]`: up to three distinct members of the pool, in no particular order. */
  predicate Pooled(picks: seq<nat>, pool: seq<nat>) {
    |picks| == (if |PoolSet(pool)| < 3 then |PoolSet(pool)| else 3) &&
    (forall q :: 0 <= q < |picks| ==> picks[q] in pool) &&
    (forall p, q :: 0 <= p < q < |picks| ==> picks[p] != picks[q])
  }

  /** Up to three distinct members of `s`, chosen in any order. */
  method AnyThree(s: set<nat>) returns (picks: seq<nat>)
    ensures |picks| == if |s| < 3 then |s| else 3
    ensures forall q :: 0 <= q < |picks| ==> picks[q] in s
    ensures forall p, q :: 0 <= p < q < |picks| ==> picks[p] != picks[q]
  {
    picks := [];
    var rest := s;
    while |picks| < 3 && rest != {}
      invariant rest <= s && |picks| <= 3 && |rest| == |s| - |picks|
      invariant forall q :: 0 <= q < |picks| ==> picks[q] in s && picks[q] !in rest
      invariant forall p, q :: 0 <= p < q < |picks| ==> picks[p] != picks[q]
      decreases |rest|
    {
      var x :| x in rest;
      picks := picks + [x];
      rest := rest - {x};
    }
  }

  /**
   * Step 2: the chest rooms. With an unlocked candidate and two locked ones
   * the picks are `ChestPicks`; otherwise up to three of the candidates.
   */
  predicate ChestChoice(unlocked: seq<nat>, locked: seq<nat>, dists: seq<Distance>, chests: seq<nat>)
    requires Ascending(locked)
    requires forall q :: 0 <= q < |unlocked| ==> unlocked[q] < |dists|
    requires forall q :: 0 <= q < |locked| ==> locked[q] < |dists|
  {
    if |unlocked| >= 1 && |locked| >= 2 then chests == ChestPicks(unlocked, locked, dists)
    else Pooled(chests, unlocked + locked)
  }

  /** Step 2 on the rooms not in `skip`. */
  method PickChests(grid: map<Slot, nat>, slots: seq<Slot>, ts: seq<RoomType>, dists: seq<Distance>, skip: set<nat>)
    returns (chests: seq<nat>)
    requires |dists| == |slots|
    ensures ChestChoice(CandidatesOf(grid, slots, ts, |slots|, skip, ChestUnlocked),
                        CandidatesOf(grid, slots, ts, |slots|, skip, ChestLocked), dists, chests)
  {
    var unlocked := Candidates(grid, slots, ts, skip, ChestUnlocked);
    var locked := Candidates(grid, slots, ts, skip, ChestLocked);
    if |unlocked| >= 1 && |locked| >= 2 {
      chests := ChestPicks(unlocked, locked, dists);
    } else {
      chests := AnyThree(PoolSet(unlocked + locked));
    }
  }

  /**
   * Step 3: the shop room is the first best-scoring candidate. With no
   * boss room there is no shop room.
   */
  predicate ShopChoice(cands: seq<nat>, dists: seq<Distance>, boss: Option<nat>, shop: Option<nat>)
    requires forall q :: 0 <= q < |cands| ==> cands[q] < |dists|
    requires boss.Some? ==> boss.value < |dists|
  {
    if boss.None? then shop.None? else shop == ShopScan(cands, dists, dists[boss.value]).1
  }

  /**
   * The candidates for the boss and for the shop pass the same test, so
   * when no room is a boss candidate no room is a shop candidate either.
   */
  lemma NoBossNoShop(grid: map<Slot, nat>, slots: seq<Slot>, ts: seq<RoomType>, n: nat, skip: set<nat>)
    requires n <= |slots|
    requires CandidatesOf(grid, slots, ts, n, {}, Boss) == []
    ensures CandidatesOf(grid, slots, ts, n, skip, Shop) == []
  {
  }

  /** Step 3 on the rooms not in `skip`; `rooms[boss_room_index]` is read only when there is a candidate. */
  method PickShopRoom(grid: map<Slot, nat>, slots: seq<Slot>, ts: seq<RoomType>, dists: seq<Distance>,
                      skip: set<nat>, boss: Option<nat>) returns (shop: Option<nat>)
    requires |dists| == |slots|
    requires boss.Some? ==> boss.value < |dists|
    requires boss.None? ==> CandidatesOf(grid, slots, ts, |slots|, {}, Boss) == []
    ensures ShopChoice(CandidatesOf(grid, slots, ts, |slots|, skip, Shop), dists, boss, shop)
  {
    var c := Candidates(grid, slots, ts, skip, Shop);
    if c == [] {
      return None;
    }
    if boss.None? {
      NoBossNoShop(grid, slots, ts, |slots|, skip);
    }
    shop := PickShop(c, dists, dists[boss.value]);
  }

  // ---------------------------------------------------------------- the whole selection

  /** `ts` with room `r`, when there is one, given role `t`. */
  function Put(ts: seq<RoomType>, r: Option<nat>, t: RoomType): (u: seq<RoomType>)
    ensures |u| == |ts|
    ensures forall i :: 0 <= i < |ts| ==> u[i] == if r == Some(i) then t else ts[i]
  {
    if r.Some? && r.value < |ts| then ts[r.value := t] else ts
  }

  function OptSet(r: Option<nat>): set<nat> {
    if r.Some? then {r.value} else {}
  }

  /** The `q`-th entry of a list, if it has one. */
  function At(s: seq<nat>, q: nat): Option<nat> {
    if q < |s| then Some(s[q]) else None
  }

  /** The roles once the chest rooms and the shop room are assigned. */
  function ApplyRest(ts: seq<RoomType>, chests: seq<nat>, shop: Option<nat>): (u: seq<RoomType>)
    ensures |u| == |ts|
  {
    Put(Put(Put(Put(ts, At(chests, 0), ChestUnlocked), At(chests, 1), ChestLocked), At(chests, 2), ChestLocked),
        shop, Shop)
  }

  /** The roles once the boss room, the chest rooms and the shop room are assigned. */
  function Applied(ts: seq<RoomType>, boss: Option<nat>, chests: seq<nat>, shop: Option<nat>): (u: seq<RoomType>)
    ensures |u| == |ts|
  {
    ApplyRest(Put(ts, boss, Boss), chests, shop)
  }

  /** The roles rooms are created with: spawn first, normal after. */
  function InitialRoles(n: nat): (ts: seq<RoomType>)
    ensures |ts| == n && forall i :: 0 <= i < n ==> ts[i] == InitialRole(i)
  {
    seq(n, i requires 0 <= i => InitialRole(i))
  }

  /** Step 1 from the created rooms. */
  ghost predicate BossStep(grid: map<Slot, nat>, slots: seq<Slot>, dists: seq<Distance>, boss: Option<nat>)
    requires |dists| == |slots|
  {
    BossChoice(CandidatesOf(grid, slots, InitialRoles(|slots|), |slots|, {}, Boss), dists, boss)
  }

  /** Step 2, with the boss room already assigned and excluded. */
  ghost predicate ChestStep(grid: map<Slot, nat>, slots: seq<Slot>, dists: seq<Distance>, boss: Option<nat>,
                            chests: seq<nat>)
    requires |dists| == |slots|
  {
    var ts1 := Put(InitialRoles(|slots|), boss, Boss);
    ChestChoice(CandidatesOf(grid, slots, ts1, |slots|, OptSet(boss), ChestUnlocked),
                CandidatesOf(grid, slots, ts1, |slots|, OptSet(boss), ChestLocked), dists, chests)
  }

  /** Step 3 among what is left, the chest rooms not yet assigned. */
  ghost predicate ShopStep(grid: map<Slot, nat>, slots: seq<Slot>, dists: seq<Distance>, boss: Option<nat>,
                           chests: seq<nat>, shop: Option<nat>)
    requires |dists| == |slots| && (boss.Some? ==> boss.value < |dists|)
  {
    var ts1 := Put(InitialRoles(|slots|), boss, Boss);
    ShopChoice(CandidatesOf(grid, slots, ts1, |slots|, OptSet(boss) + PoolSet(chests), Shop), dists, boss, shop)
  }

  /** Steps 1 to 3 from the created rooms. */
  ghost predicate Selected(grid: map<Slot, nat>, slots: seq<Slot>, dists: seq<Distance>,
                           boss: Option<nat>, chests: seq<nat>, shop: Option<nat>)
    requires |dists| == |slots|
  {
    BossStep(grid, slots, dists, boss) &&
    (boss.Some? ==> boss.value < |dists|) &&
    ChestStep(grid, slots, dists, boss, chests) &&
    ShopStep(grid, slots, dists, boss, chests, shop)
  }

  /** Distinct non-spawn rooms for the boss, at most three chests and the shop. */
  predicate Disjoint(n: nat, boss: Option<nat>, chests: seq<nat>, shop: Option<nat>) {
    (boss.Some? ==> 1 <= boss.value < n) &&
    |chests| <= 3 &&
    (forall q :: 0 <= q < |chests| ==> 1 <= chests[q] < n && boss != Some(chests[q]) && shop != Some(chests[q])) &&
    (forall p, q :: 0 <= p < q < |chests| ==> chests[p] != chests[q]) &&
    (shop.Some? ==> 1 <= shop.value < n && shop != boss)
  }

  /** The pooled picks are at most three distinct candidates. */
  lemma PooledMembers(unlocked: seq<nat>, locked: seq<nat>, chests: seq<nat>)
    requires Pooled(chests, unlocked + locked)
    ensures |chests| <= 3
    ensures forall q :: 0 <= q < |chests| ==> chests[q] in unlocked || chests[q] in locked
  {
    forall q | 0 <= q < |chests|
      ensures chests[q] in unlocked || chests[q] in locked
    {
      assert chests[q] in unlocked + locked;
    }
  }

  /** `ChestPicks` gives two or three distinct candidates. */
  lemma PicksMembers(unlocked: seq<nat>, locked: seq<nat>, dists: seq<Distance>)
    requires |unlocked| >= 1 && |locked| >= 2 && Ascending(locked)
    requires forall q :: 0 <= q < |unlocked| ==> unlocked[q] < |dists|
    requires forall q :: 0 <= q < |locked| ==> locked[q] < |dists|
    ensures var picks := ChestPicks(unlocked, locked, dists);
      |picks| <= 3 &&
      (forall q :: 0 <= q < |picks| ==> picks[q] in unlocked || picks[q] in locked) &&
      (forall p, q :: 0 <= p < q < |picks| ==> picks[p] != picks[q])
  {
    var picks := ChestPicks(unlocked, locked, dists);
    ThreeDistinct(picks, unlocked, locked);
  }

  /** Two or three picks, the first unlocked, the others locked, pairwise different. */
  lemma ThreeDistinct(picks: seq<nat>, unlocked: seq<nat>, locked: seq<nat>)
    requires 2 <= |picks| <= 3 && picks[0] in unlocked && picks[1] in locked && picks[0] != picks[1]
    requires |picks| == 3 ==> picks[2] in locked && picks[2] != picks[0] && picks[2] != picks[1]
    ensures forall q :: 0 <= q < |picks| ==> picks[q] in unlocked || picks[q] in locked
    ensures forall p, q :: 0 <= p < q < |picks| ==> picks[p] != picks[q]
  {
  }

  /** The chest picks are at most three distinct candidates. */
  lemma ChestChoiceMembers(unlocked: seq<nat>, locked: seq<nat>, dists: seq<Distance>, chests: seq<nat>)
    requires Ascending(locked)
    requires forall q :: 0 <= q < |unlocked| ==> unlocked[q] < |dists|
    requires forall q :: 0 <= q < |locked| ==> locked[q] < |dists|
    requires ChestChoice(unlocked, locked, dists, chests)
    ensures |chests| <= 3
    ensures forall q :: 0 <= q < |chests| ==> chests[q] in unlocked || chests[q] in locked
    ensures forall p, q :: 0 <= p < q < |chests| ==> chests[p] != chests[q]
  {
    if |unlocked| >= 1 && |locked| >= 2 {
      PicksMembers(unlocked, locked, dists);
    } else {
      PooledMembers(unlocked, locked, chests);
    }
  }

  /** The selection never gives two roles to one room, nor a role to the spawn room. */
  lemma SelectionDisjoint(grid: map<Slot, nat>, slots: seq<Slot>, dists: seq<Distance>,
                          boss: Option<nat>, chests: seq<nat>, shop: Option<nat>)
    requires |dists| == |slots| && Selected(grid, slots, dists, boss, chests, shop)
    ensures Disjoint(|slots|, boss, chests, shop)
  {
    var n := |slots|;
    var ts1 := Put(InitialRoles(n), boss, Boss);
    var u := CandidatesOf(grid, slots, ts1, n, OptSet(boss), ChestUnlocked);
    var l := CandidatesOf(grid, slots, ts1, n, OptSet(boss), ChestLocked);
    ChestChoiceMembers(u, l, dists, chests);
    if shop.Some? {
      var c := CandidatesOf(grid, slots, ts1, n, OptSet(boss) + PoolSet(chests), Shop);
      assert shop.value in c;
    }
  }

  // ---------------------------------------------------------------- roles on the rooms

  /** The four roles every floor needs. */
  const REQUIRED: set<RoomType> := {Boss, Shop, ChestUnlocked, ChestLocked}

  /** The required roles no room holds. */
  function Missing(ts: seq<RoomType>): (m: set<RoomType>)
    ensures forall t :: t in m <==> t in REQUIRED && t !in ts
  {
    set t | t in REQUIRED && t !in ts
  }

  /** A room is a dead end exactly when its role is a special one. */
  predicate RolesAgree(ts: seq<RoomType>, ss: seq<bool>) {
    |ts| == |ss| && forall i :: 0 <= i < |ts| ==> (ss[i] <==> ts[i].IsSpecial())
  }

  /** `room.room_type = t; room.single_connection = True`. */
  method SetRole(rooms: seq<Room>, i: nat, t: RoomType)
    requires i < |rooms| && Distinct(rooms)
    modifies rooms`roomType, rooms`singleConnection
    ensures TypesOf(rooms) == old(TypesOf(rooms))[i := t]
    ensures SinglesOf(rooms) == old(SinglesOf(rooms))[i := true]
  {
    rooms[i].roomType, rooms[i].singleConnection := t, true;
  }

  /** `SetRole` on the snapshots: a special role keeps roles and dead-end flags in step. */
  method GiveRole(rooms: seq<Room>, ts: seq<RoomType>, ghost ss: seq<bool>, i: nat, t: RoomType)
    returns (ts': seq<RoomType>, ghost ss': seq<bool>)
    requires Distinct(rooms) && i < |rooms| && t.IsSpecial()
    requires TypesOf(rooms) == ts && SinglesOf(rooms) == ss && RolesAgree(ts, ss)
    modifies rooms`roomType, rooms`singleConnection
    ensures ts' == ts[i := t] && ss' == ss[i := true]
    ensures TypesOf(rooms) == ts' && SinglesOf(rooms) == ss' && RolesAgree(ts', ss')
  {
    AgreeAfterSet(ts, ss, i, t);
    SetRole(rooms, i, t);
    ts', ss' := ts[i := t], ss[i := true];
  }

  /** Giving a special role to a room keeps roles and dead-end flags in step. */
  lemma AgreeAfterSet(ts: seq<RoomType>, ss: seq<bool>, i: nat, t: RoomType)
    requires RolesAgree(ts, ss) && i < |ts| && t.IsSpecial()
    ensures RolesAgree(ts[i := t], ss[i := true])
  {
  }

  /** Giving a role to a normal room leaves one normal room fewer. */
  lemma NormalsDrop(ts: seq<RoomType>, i: nat, t: RoomType)
    requires i < |ts| && ts[i] == Normal && t != Normal
    ensures Count(ts[i := t], Normal) == Count(ts, Normal) - 1
  {
  }

  /** The types of the dead-end rooms, the `assigned_types` loop. */
  method AssignedTypes(rooms: seq<Room>, ghost ts: seq<RoomType>, ghost ss: seq<bool>) returns (held: set<RoomType>)
    requires TypesOf(rooms) == ts && SinglesOf(rooms) == ss
    ensures forall t :: t in held <==> exists i :: 0 <= i < |rooms| && ss[i] && ts[i] == t
  {
    held := {};
    for i := 0 to |rooms|
      invariant forall t :: t in held <==> exists j :: 0 <= j < i && ss[j] && ts[j] == t
    {
      if rooms[i].singleConnection {
        held := held + {rooms[i].roomType};
      }
    }
  }

  /** When dead ends are exactly the special rooms, the required roles no dead end holds are the missing ones. */
  lemma MissingFromHeld(ts: seq<RoomType>, ss: seq<bool>, held: set<RoomType>)
    requires RolesAgree(ts, ss)
    requires forall t :: t in held <==> exists i :: 0 <= i < |ts| && ss[i] && ts[i] == t
    ensures REQUIRED - held == Missing(ts)
  {
    forall t | t in REQUIRED && t in ts
      ensures t in held
    {
      var i :| 0 <= i < |ts| && ts[i] == t;
      assert ss[i];
    }
  }

  /** A normal room that can connect to a normal or spawn neighbour. */
  predicate Connectable(grid: map<Slot, nat>, slots: seq<Slot>, ts: seq<RoomType>, i: nat)
    requires i < |slots| && i < |ts|
  {
    ts[i] == Normal && CanConnect(grid, ts, slots[i], None)
  }

  /**
   * The room a missing role is forced onto: the first normal room that can
   * connect, or else the first normal room; none when no room is normal.
   */
  method FindTarget(grid: map<Slot, nat>, slots: seq<Slot>, ts: seq<RoomType>) returns (target: Option<nat>)
    requires |slots| == |ts|
    ensures target.None? <==> Normal !in ts
    ensures target.Some? ==> target.value < |ts| && ts[target.value] == Normal
    ensures target.Some? && Connectable(grid, slots, ts, target.value) ==>
      forall j :: 0 <= j < target.value ==> !Connectable(grid, slots, ts, j)
    ensures target.Some? && !Connectable(grid, slots, ts, target.value) ==>
      (forall j :: 0 <= j < |ts| ==> !Connectable(grid, slots, ts, j)) &&
      forall j :: 0 <= j < target.value ==> ts[j] != Normal
  {
    for i := 0 to |ts|
      invariant forall j :: 0 <= j < i ==> !Connectable(grid, slots, ts, j)
    {
      if ts[i] == Normal {
        var ok := CanConnectToNormalOrSpawn(grid, ts, slots[i], None);
        if ok {
          return Some(i);
        }
      }
    }
    for i := 0 to |ts|
      invariant forall j :: 0 <= j < i ==> ts[j] != Normal
    {
      if ts[i] == Normal {
        return Some(i);
      }
    }
    return None;
  }

  /**
   * Progress of the forced assignment: `todo` holds the missing roles not
   * yet handled. A handled role is held unless no room is normal; with
   * `enough` normal rooms at the start, every handled role is held and
   * enough normal rooms remain. Only normal rooms change, each to a role
   * that was missing.
   */
  ghost predicate Forcing(ts0: seq<RoomType>, ts: seq<RoomType>, todo: set<RoomType>, enough: bool) {
    todo <= Missing(ts0) && |ts| == |ts0| &&
    (forall t :: t in REQUIRED && t !in todo ==> t in ts || Normal !in ts) &&
    (enough ==> |todo| <= Count(ts, Normal) && forall t :: t in REQUIRED && t !in todo ==> t in ts) &&
    (forall i :: 0 <= i < |ts| && ts[i] != ts0[i] ==> ts0[i] == Normal && ts[i] in Missing(ts0))
  }

  /** Giving missing role `t` to normal room `i` keeps `Forcing`. */
  lemma ForcingGive(ts0: seq<RoomType>, ts: seq<RoomType>, todo: set<RoomType>, enough: bool, t: RoomType, i: nat)
    requires Forcing(ts0, ts, todo, enough) && t in todo
    requires i < |ts| && ts[i] == Normal
    ensures Forcing(ts0, ts[i := t], todo - {t}, enough)
  {
    var ts' := ts[i := t];
    NormalsDrop(ts, i, t);
    forall u | u in REQUIRED && u in ts
      ensures u in ts'
    {
      var j :| 0 <= j < |ts| && ts[j] == u;
      assert ts'[j] == u;
    }
    assert ts'[i] == t;
  }

  /** Handling one missing role keeps `Forcing`; with no normal room left nothing changes. */
  lemma ForcingStep(ts0: seq<RoomType>, ts: seq<RoomType>, todo: set<RoomType>, enough: bool, t: RoomType,
                    target: Option<nat>)
    requires Forcing(ts0, ts, todo, enough) && t in todo
    requires target.None? <==> Normal !in ts
    requires target.Some? ==> target.value < |ts| && ts[target.value] == Normal
    ensures t.IsSpecial() && |todo - {t}| < |todo|
    ensures target.None? ==> Forcing(ts0, ts, todo - {t}, enough)
    ensures target.Some? ==> Forcing(ts0, ts[target.value := t], todo - {t}, enough)
  {
    if target.Some? {
      ForcingGive(ts0, ts, todo, enough, t, target.value);
    }
  }

  /** One turn of the forced assignment: a missing role goes to `FindTarget`'s room, if any. */
  method ForceOne(rooms: seq<Room>, grid: map<Slot, nat>, slots: seq<Slot>, ghost ts0: seq<RoomType>,
                  ts: seq<RoomType>, ghost ss: seq<bool>, todo: set<RoomType>, ghost enough: bool)
    returns (ts': seq<RoomType>, ghost ss': seq<bool>, todo': set<RoomType>)
    requires Distinct(rooms) && |slots| == |rooms| && todo != {}
    requires TypesOf(rooms) == ts && SinglesOf(rooms) == ss && RolesAgree(ts, ss)
    requires Forcing(ts0, ts, todo, enough)
    modifies rooms`roomType, rooms`singleConnection
    ensures TypesOf(rooms) == ts' && SinglesOf(rooms) == ss' && RolesAgree(ts', ss')
    ensures Forcing(ts0, ts', todo', enough) && |todo'| < |todo|
  {
    var t :| t in todo;
    var target := FindTarget(grid, slots, ts);
    ForcingStep(ts0, ts, todo, enough, t, target);
    ts', ss', todo' := ts, ss, todo - {t};
    if target.Some? {
      ts', ss' := GiveRole(rooms, ts, ss, target.value, t);
    }
  }

  /**
   * The forced assignment of the missing roles, taken in any order. Only
   * normal rooms change, each to a role that was missing. Every required
   * role ends up held unless the normal rooms run out, and they do not
   * when there are at least as many normal rooms as missing roles.
   */
  method AssignMissing(rooms: seq<Room>, grid: map<Slot, nat>, slots: seq<Slot>, ts0: seq<RoomType>)
    returns (ts: seq<RoomType>)
    requires Distinct(rooms) && |slots| == |rooms|
    requires TypesOf(rooms) == ts0 && RolesAgree(ts0, SinglesOf(rooms))
    modifies rooms`roomType, rooms`singleConnection
    ensures TypesOf(rooms) == ts && RolesAgree(ts, SinglesOf(rooms))
    ensures Forcing(ts0, ts, {}, |Missing(ts0)| <= Count(ts0, Normal))
  {
    ghost var ss := SinglesOf(rooms);
    var held := AssignedTypes(rooms, ts0, ss);
    var todo := REQUIRED - held;
    MissingFromHeld(ts0, ss, held);
    ghost var enough := |Missing(ts0)| <= Count(ts0, Normal);
    ts := ts0;
    while todo != {}
      invariant TypesOf(rooms) == ts && SinglesOf(rooms) == ss && RolesAgree(ts, ss)
      invariant Forcing(ts0, ts, todo, enough)
      decreases |todo|
    {
      ts, ss, todo := ForceOne(rooms, grid, slots, ts0, ts, ss, todo, enough);
    }
  }

  // ---------------------------------------------------------------- counting normal rooms

  lemma {:induction false} InitialNormals(n: nat)
    requires n >= 1
    ensures Count(InitialRoles(n), Normal) == n - 1
  {
    if n == 1 {
      assert InitialRoles(1) == [Spawn];
    } else {
      InitialNormals(n - 1);
      assert InitialRoles(n) == InitialRoles(n - 1) + [Normal];
    }
  }

  lemma {:induction false} SubsetCard<T>(x: set<T>, y: set<T>)
    requires x <= y
    ensures |x| <= |y|
    decreases x
  {
    if x != {} {
      var e :| e in x;
      SubsetCard(x - {e}, y - {e});
    }
  }

  /** The required roles a selection leaves open. */
  function Unfilled(boss: Option<nat>, chests: seq<nat>, shop: Option<nat>): set<RoomType> {
    (if boss.Some? then {} else {Boss}) +
    (if |chests| == 0 then {ChestUnlocked} else {}) +
    (if |chests| <= 1 then {ChestLocked} else {}) +
    (if shop.Some? then {} else {Shop})
  }

  /** A selection that uses `k` rooms leaves at most `5 - k` roles open. */
  lemma UnfilledCard(boss: Option<nat>, chests: seq<nat>, shop: Option<nat>)
    requires |chests| <= 3
    ensures |Unfilled(boss, chests, shop)| <= (if boss.Some? then 0 else 1) + (3 - |chests|) + (if shop.Some? then 0 else 1)
  {
  }

  /** Where the selection puts the boss, chest and shop roles. */
  predicate Placed(ts: seq<RoomType>, boss: Option<nat>, chests: seq<nat>, shop: Option<nat>) {
    (boss.Some? ==> boss.value < |ts| && ts[boss.value] == Boss) &&
    (|chests| >= 1 ==> chests[0] < |ts| && ts[chests[0]] == ChestUnlocked) &&
    (|chests| >= 2 ==> chests[1] < |ts| && ts[chests[1]] == ChestLocked) &&
    (|chests| >= 3 ==> chests[2] < |ts| && ts[chests[2]] == ChestLocked) &&
    (shop.Some? ==> shop.value < |ts| && ts[shop.value] == Shop)
  }

  /** Giving a role to a normal room, if there is one, leaves one normal room fewer. */
  lemma PutCount(ts: seq<RoomType>, r: Option<nat>, t: RoomType)
    requires t != Normal && (r.Some? ==> r.value < |ts| && ts[r.value] == Normal)
    ensures Count(Put(ts, r, t), Normal) == Count(ts, Normal) - (if r.Some? then 1 else 0)
  {
    if r.Some? {
      NormalsDrop(ts, r.value, t);
    }
  }

  /** The rooms a selection uses. */
  function Used(boss: Option<nat>, chests: seq<nat>, shop: Option<nat>): nat {
    (if boss.Some? then 1 else 0) + |chests| + (if shop.Some? then 1 else 0)
  }

  /** `Disjoint` spelled out on the three chest slots. */
  lemma DisjointAt(n: nat, boss: Option<nat>, chests: seq<nat>, shop: Option<nat>)
    requires Disjoint(n, boss, chests, shop)
    ensures var c0, c1, c2 := At(chests, 0), At(chests, 1), At(chests, 2);
      |chests| == (if c0.Some? then 1 else 0) + (if c1.Some? then 1 else 0) + (if c2.Some? then 1 else 0) &&
      (c0.Some? ==> 1 <= c0.value < n && c0 != boss) &&
      (c1.Some? ==> 1 <= c1.value < n && c1 != boss && c1 != c0) &&
      (c2.Some? ==> 1 <= c2.value < n && c2 != boss && c2 != c0 && c2 != c1) &&
      (shop.Some? ==> shop != c0 && shop != c1 && shop != c2)
  {
    if |chests| >= 2 {
      assert chests[0] != chests[1];
    }
    if |chests| >= 3 {
      assert chests[0] != chests[2] && chests[1] != chests[2];
    }
  }

  /** A disjoint selection turns as many normal rooms as it uses. */
  lemma AppliedNormals(n: nat, boss: Option<nat>, chests: seq<nat>, shop: Option<nat>)
    requires n >= 1 && Disjoint(n, boss, chests, shop)
    ensures Count(Applied(InitialRoles(n), boss, chests, shop), Normal) == n - 1 - Used(boss, chests, shop)
  {
    var t0 := InitialRoles(n);
    InitialNormals(n);
    DisjointAt(n, boss, chests, shop);
    var c0, c1, c2 := At(chests, 0), At(chests, 1), At(chests, 2);
    PutCount(t0, boss, Boss);
    var t1 := Put(t0, boss, Boss);
    ChestCounts(t1, c0, c1, c2);
    var t4 := Put(Put(Put(t1, c0, ChestUnlocked), c1, ChestLocked), c2, ChestLocked);
    PutCount(t4, shop, Shop);
  }

  /** The three chest assignments, on three different normal rooms, turn one normal room each. */
  lemma ChestCounts(t1: seq<RoomType>, c0: Option<nat>, c1: Option<nat>, c2: Option<nat>)
    requires c0.Some? ==> c0.value < |t1| && t1[c0.value] == Normal
    requires c1.Some? ==> c1.value < |t1| && t1[c1.value] == Normal && c1 != c0
    requires c2.Some? ==> c2.value < |t1| && t1[c2.value] == Normal && c2 != c0 && c2 != c1
    ensures Count(Put(Put(Put(t1, c0, ChestUnlocked), c1, ChestLocked), c2, ChestLocked), Normal) ==
      Count(t1, Normal) - (if c0.Some? then 1 else 0) - (if c1.Some? then 1 else 0) - (if c2.Some? then 1 else 0)
  {
    PutCount(t1, c0, ChestUnlocked);
    var t2 := Put(t1, c0, ChestUnlocked);
    PutCount(t2, c1, ChestLocked);
    var t3 := Put(t2, c1, ChestLocked);
    PutCount(t3, c2, ChestLocked);
  }

  /** A disjoint selection leaves each chosen room with its role, and room 0 with the spawn role. */
  lemma AppliedPlaced(n: nat, boss: Option<nat>, chests: seq<nat>, shop: Option<nat>)
    requires n >= 1 && Disjoint(n, boss, chests, shop)
    ensures var ts := Applied(InitialRoles(n), boss, chests, shop);
      ts[0] == Spawn && Placed(ts, boss, chests, shop)
  {
  }

  /** Every required role a disjoint selection fills is held. */
  lemma MissingUnfilled(ts: seq<RoomType>, boss: Option<nat>, chests: seq<nat>, shop: Option<nat>)
    requires Placed(ts, boss, chests, shop)
    ensures Missing(ts) <= Unfilled(boss, chests, shop)
  {
    if boss.Some? { assert ts[boss.value] == Boss; }
    if |chests| >= 1 { assert ts[chests[0]] == ChestUnlocked; }
    if |chests| >= 2 { assert ts[chests[1]] == ChestLocked; }
    if shop.Some? { assert ts[shop.value] == Shop; }
  }

  /**
   * With five non-spawn rooms or more, a disjoint selection leaves at
   * least as many normal rooms as open roles, and room 0 keeps the spawn
   * role.
   */
  lemma EnoughNormals(n: nat, boss: Option<nat>, chests: seq<nat>, shop: Option<nat>)
    requires n >= 6 && Disjoint(n, boss, chests, shop)
    ensures var ts := Applied(InitialRoles(n), boss, chests, shop);
      |Missing(ts)| <= Count(ts, Normal) && ts[0] == Spawn && Placed(ts, boss, chests, shop)
  {
    var ts := Applied(InitialRoles(n), boss, chests, shop);
    AppliedNormals(n, boss, chests, shop);
    AppliedPlaced(n, boss, chests, shop);
    MissingUnfilled(ts, boss, chests, shop);
    SubsetCard(Missing(ts), Unfilled(boss, chests, shop));
    UnfilledCard(boss, chests, shop);
  }

  /**
   * Once every missing role is handled, with enough normal rooms to start
   * with: no required role is missing, and the rooms that held a role keep
   * it.
   */
  lemma ForcingDone(ts0: seq<RoomType>, ts: seq<RoomType>, boss: Option<nat>, chests: seq<nat>, shop: Option<nat>)
    requires |Missing(ts0)| <= Count(ts0, Normal) && Forcing(ts0, ts, {}, |Missing(ts0)| <= Count(ts0, Normal))
    requires |ts0| > 0 && ts0[0] == Spawn && Placed(ts0, boss, chests, shop)
    ensures Missing(ts) == {} && ts[0] == Spawn && Placed(ts, boss, chests, shop)
  {
  }

  // ---------------------------------------------------------------- generate_grid_rooms

  /** `SetRole` on the room `r` names, if it names one. */
  method GiveRoleTo(rooms: seq<Room>, ts: seq<RoomType>, ghost ss: seq<bool>, r: Option<nat>, t: RoomType)
    returns (ts': seq<RoomType>, ghost ss': seq<bool>)
    requires Distinct(rooms) && t.IsSpecial() && (r.Some? ==> r.value < |rooms|)
    requires TypesOf(rooms) == ts && SinglesOf(rooms) == ss && RolesAgree(ts, ss)
    modifies rooms`roomType, rooms`singleConnection
    ensures ts' == Put(ts, r, t)
    ensures TypesOf(rooms) == ts' && SinglesOf(rooms) == ss' && RolesAgree(ts', ss')
  {
    ts', ss' := ts, ss;
    if r.Some? {
      ts', ss' := GiveRole(rooms, ts, ss, r.value, t);
    }
  }

  /**
   * The role assignments of steps 1 to 3 in the source's order: the boss
   * room, the unlocked chest, the locked chests, the shop room.
   */
  method ApplyRoles(rooms: seq<Room>, ts: seq<RoomType>, ghost ss: seq<bool>,
                    boss: Option<nat>, chests: seq<nat>, shop: Option<nat>)
    returns (ts': seq<RoomType>, ghost ss': seq<bool>)
    requires Distinct(rooms) && TypesOf(rooms) == ts && SinglesOf(rooms) == ss && RolesAgree(ts, ss)
    requires Disjoint(|rooms|, boss, chests, shop)
    modifies rooms`roomType, rooms`singleConnection
    ensures ts' == Applied(ts, boss, chests, shop)
    ensures TypesOf(rooms) == ts' && SinglesOf(rooms) == ss' && RolesAgree(ts', ss')
  {
    DisjointAt(|rooms|, boss, chests, shop);
    ts', ss' := GiveRoleTo(rooms, ts, ss, boss, Boss);
    ts', ss' := GiveRoleTo(rooms, ts', ss', At(chests, 0), ChestUnlocked);
    ts', ss' := GiveRoleTo(rooms, ts', ss', At(chests, 1), ChestLocked);
    ts', ss' := GiveRoleTo(rooms, ts', ss', At(chests, 2), ChestLocked);
    ts', ss' := GiveRoleTo(rooms, ts', ss', shop, Shop);
  }

  /**
   * Steps 1 to 3 on the roles: the chest and shop candidates are taken
   * with the boss room already given its role.
   */
  method Select(grid: map<Slot, nat>, slots: seq<Slot>, dists: seq<Distance>)
    returns (boss: Option<nat>, chests: seq<nat>, shop: Option<nat>)
    requires |dists| == |slots|
    ensures Selected(grid, slots, dists, boss, chests, shop) && Disjoint(|slots|, boss, chests, shop)
  {
    var ts := InitialRoles(|slots|);
    boss := PickBoss(grid, slots, ts, dists);
    var ts1 := Put(ts, boss, Boss);
    chests := PickChests(grid, slots, ts1, dists, OptSet(boss));
    shop := PickShopRoom(grid, slots, ts1, dists, OptSet(boss) + PoolSet(chests), boss);
    SelectionDisjoint(grid, slots, dists, boss, chests, shop);
  }

  /**
   * Steps 1 to 3 on the created rooms: the boss room is assigned as soon
   * as it is chosen, the chest and shop rooms after step 3. Step 1 reads
   * the roles only through `ts`, so the choice is made on the roles and
   * the rooms are updated afterwards in the same order.
   */
  method SelectAndApply(rooms: seq<Room>, grid: map<Slot, nat>, slots: seq<Slot>, dists: seq<Distance>,
                        ts: seq<RoomType>, ghost ss: seq<bool>)
    returns (boss: Option<nat>, chests: seq<nat>, shop: Option<nat>, ts': seq<RoomType>, ghost ss': seq<bool>)
    requires Distinct(rooms) && |slots| == |rooms| && |dists| == |rooms|
    requires ts == InitialRoles(|rooms|) && TypesOf(rooms) == ts && SinglesOf(rooms) == ss && RolesAgree(ts, ss)
    modifies rooms`roomType, rooms`singleConnection
    ensures Selected(grid, slots, dists, boss, chests, shop) && Disjoint(|rooms|, boss, chests, shop)
    ensures ts' == Applied(ts, boss, chests, shop)
    ensures TypesOf(rooms) == ts' && SinglesOf(rooms) == ss' && RolesAgree(ts', ss')
  {
    boss, chests, shop := Select(grid, slots, dists);
    ts', ss' := ApplyRoles(rooms, ts, ss, boss, chests, shop);
  }

  /**
   * Role assignment of `generate_grid_rooms`. With fewer than five
   * non-spawn rooms nothing is assigned. Otherwise steps 1 to 3 choose the
   * boss, chest and shop rooms and the missing roles are forced onto normal
   * rooms: then every required role is held, room 0 is still the spawn
   * room and the chosen rooms keep their roles. Roles and dead-end flags
   * stay in step throughout.
   */
  method AssignRoles(rooms: seq<Room>, grid: map<Slot, nat>, slots: seq<Slot>)
    returns (dists: seq<Distance>, boss: Option<nat>, chests: seq<nat>, shop: Option<nat>)
    requires Distinct(rooms) && |slots| == |rooms| && IsRoomGrid(slots, grid)
    requires TypesOf(rooms) == InitialRoles(|rooms|)
    requires forall i :: 0 <= i < |rooms| ==> !rooms[i].singleConnection
    modifies rooms`roomType, rooms`singleConnection
    ensures RolesAgree(TypesOf(rooms), SinglesOf(rooms))
    ensures |rooms| - 1 < 5 ==> TypesOf(rooms) == InitialRoles(|rooms|) && boss.None? && chests == [] && shop.None?
    ensures |rooms| - 1 >= 5 ==>
      |dists| == |rooms| &&
      (forall i :: 0 <= i < |rooms| ==> IsHopDistance(LatticeAdj(grid, slots), 0, i, dists[i])) &&
      Selected(grid, slots, dists, boss, chests, shop)
    ensures |rooms| - 1 >= 5 ==>
      Missing(TypesOf(rooms)) == {} && TypesOf(rooms)[0] == Spawn && Placed(TypesOf(rooms), boss, chests, shop)
  {
    dists, boss, chests, shop := [], None, [], None;
    ghost var ss := SinglesOf(rooms);
    var ts := TypesOf(rooms);
    assert RolesAgree(ts, ss);
    if |rooms| - 1 < 5 {
      return;
    }
    dists := Distances(grid, slots);
    boss, chests, shop, ts, ss := SelectAndApply(rooms, grid, slots, dists, ts, ss);
    EnoughNormals(|rooms|, boss, chests, shop);
    ghost var applied := ts;
    ts := AssignMissing(rooms, grid, slots, ts);
    ForcingDone(applied, ts, boss, chests, shop);
  }

  /**
   * The second half of `generate_grid_rooms`: the room grid is built from
   * the rooms' grid positions and the roles are assigned.
   */
  method PlaceRoles(rooms: seq<Room>) returns (boss: Option<nat>, chests: seq<nat>, shop: Option<nat>)
    requires Distinct(rooms) && TypesOf(rooms) == InitialRoles(|rooms|)
    requires forall i :: 0 <= i < |rooms| ==> !rooms[i].singleConnection
    modifies rooms`roomType, rooms`singleConnection
    ensures RolesAgree(TypesOf(rooms), SinglesOf(rooms))
    ensures |rooms| < 6 ==> TypesOf(rooms) == InitialRoles(|rooms|)
    ensures |rooms| >= 6 ==> Missing(TypesOf(rooms)) == {} && rooms[0].roomType == Spawn
  {
    var slots := GridSlots(rooms);
    var grid := BuildRoomGrid(slots);
    var dists;
    dists, boss, chests, shop := AssignRoles(rooms, grid, slots);
    assert |rooms| >= 6 ==> TypesOf(rooms)[0] == Spawn;
  }

  /**
   * `generate_grid_rooms` from the chosen footprints: the rooms are created,
   * the room grid is built from their grid positions, and the roles are
   * assigned.
   */
  method GenerateRooms(positions: seq<(int, int)>)
    returns (rooms: seq<Room>, boss: Option<nat>, chests: seq<nat>, shop: Option<nat>)
    ensures |rooms| == |positions| && Distinct(rooms)
    ensures forall i :: 0 <= i < |rooms| ==> fresh(rooms[i])
    ensures Placements(rooms, positions)
    ensures RolesAgree(TypesOf(rooms), SinglesOf(rooms))
    ensures |rooms| < 6 ==> TypesOf(rooms) == InitialRoles(|rooms|)
    ensures |rooms| >= 6 ==> Missing(TypesOf(rooms)) == {} && rooms[0].roomType == Spawn
  {
    rooms := CreateRooms(positions);
    boss, chests, shop := PlaceRoles(rooms);
  }
}
