/**
 * Phase 2 of `connect_rooms`: each dead-end room that has no hallway yet
 * takes one hallway to a lattice neighbour that is not a dead end. Only an
 * unlocked chest room may take a spawn room, and it takes one whenever it
 * can; otherwise the neighbour with the fewest links, the first of them in
 * scan order, is chosen. The roles and dead-end flags do not change in this
 * phase, so they are read from snapshots `ts` and `ss` indexed like the
 * rooms.
 */
module PhaseTwo {
  import opened Rooms
  import opened Wrappers
  import opened Hallways
  import opened Lattice
  import opened Links
  import opened LinkState
  import opened Connect

  /**
   * The candidates among the rooms in slots `ns` for a dead-end room of
   * role `t`, in scan order: rooms that are neither dead ends nor spawn
   * rooms, and, for an unlocked chest room only, spawn rooms that are not
   * dead ends.
   */
  function AdjacentOf(grid: map<Slot, nat>, ss: seq<bool>, ts: seq<RoomType>, ns: seq<Slot>, t: RoomType)
    : (r: (seq<nat>, seq<nat>))
    requires |ss| == |ts| && forall key :: key in grid ==> grid[key] < |ss|
    ensures forall c :: c in r.0 ==> c < |ss| && !ss[c] && ts[c] != Spawn && c in OccupiedRooms(grid, ns)
    ensures forall c :: c in r.1 ==> c < |ss| && !ss[c] && ts[c] == Spawn && c in OccupiedRooms(grid, ns) && t == ChestUnlocked
    ensures forall c :: c in OccupiedRooms(grid, ns) && c < |ss| && !ss[c] ==>
      (ts[c] != Spawn ==> c in r.0) && (ts[c] == Spawn && t == ChestUnlocked ==> c in r.1)
  {
    if ns == [] then ([], [])
    else
      var init, key := ns[..|ns| - 1], ns[|ns| - 1];
      var r := AdjacentOf(grid, ss, ts, init, t);
      assert OccupiedRooms(grid, ns) == OccupiedRooms(grid, init) + (if key in grid then [grid[key]] else []);
      if key in grid && !ss[grid[key]] then
        if ts[grid[key]] == Spawn then
          if t == ChestUnlocked then (r.0, r.1 + [grid[key]]) else r
        else (r.0 + [grid[key]], r.1)
      else r
  }

  /** `AdjacentOf` on one slot more: that slot's room, if it is not a dead end, joins its list. */
  lemma AdjacentOfStep(grid: map<Slot, nat>, ss: seq<bool>, ts: seq<RoomType>, ns: seq<Slot>, j: nat, t: RoomType)
    requires |ss| == |ts| && (forall key :: key in grid ==> grid[key] < |ss|) && j < |ns|
    ensures var r := AdjacentOf(grid, ss, ts, ns[..j], t);
      AdjacentOf(grid, ss, ts, ns[..j + 1], t) ==
        if ns[j] in grid && !ss[grid[ns[j]]] then
          if ts[grid[ns[j]]] == Spawn then
            if t == ChestUnlocked then (r.0, r.1 + [grid[ns[j]]]) else r
          else (r.0 + [grid[ns[j]]], r.1)
        else r
  {
    assert ns[..j + 1][..j] == ns[..j];
  }

  /** The number of links of every room, in list order. */
  ghost function Lens(rooms: seq<Room>, m: map<Room, seq<Room>>): (l: seq<nat>)
    requires Covers(rooms, m)
    ensures |l| == |rooms| && forall j :: 0 <= j < |rooms| ==> l[j] == |m[rooms[j]]|
  {
    seq(|rooms|, j requires 0 <= j < |rooms| => |m[rooms[j]]|)
  }

  /**
   * `min(cands, key=lambda r: len(r.connections))`: the position of the
   * first candidate with the fewest links, `lens` giving each room's count.
   */
  function FirstFewest(cands: seq<nat>, lens: seq<nat>): (p: nat)
    requires cands != [] && forall q :: 0 <= q < |cands| ==> cands[q] < |lens|
    ensures p < |cands|
    ensures forall q :: 0 <= q < |cands| ==> lens[cands[p]] <= lens[cands[q]]
    ensures forall q :: 0 <= q < p ==> lens[cands[q]] > lens[cands[p]]
  {
    if |cands| == 1 then 0
    else
      var n := |cands| - 1;
      var p := FirstFewest(cands[..n], lens);
      assert cands[..n][p] == cands[p];
      assert forall q :: 0 <= q < n ==> cands[..n][q] == cands[q];
      if lens[cands[n]] < lens[cands[p]] then n else p
  }

  /**
   * The neighbour a dead-end room of role `t` in slot `key` takes: a room
   * in a neighbouring slot that is not a dead end; a spawn room only for an
   * unlocked chest room, which takes one whenever there is one; otherwise a
   * room with the fewest links among the candidates. None when there is no
   * candidate.
   */
  function Choose(grid: map<Slot, nat>, ss: seq<bool>, ts: seq<RoomType>, lens: seq<nat>, key: Slot, t: RoomType)
    : (c: Option<nat>)
    requires |ss| == |ts| == |lens| && forall k :: k in grid ==> grid[k] < |ss|
    ensures c.Some? ==>
      c.value in OccupiedRooms(grid, NeighbourSlots(key)) && c.value < |ss| && !ss[c.value] &&
      (ts[c.value] == Spawn ==> t == ChestUnlocked)
    ensures c.None? <==>
      forall w :: w in OccupiedRooms(grid, NeighbourSlots(key)) && w < |ss| && !ss[w] ==> ts[w] == Spawn && t != ChestUnlocked
    ensures t == ChestUnlocked && (exists w :: w in OccupiedRooms(grid, NeighbourSlots(key)) && w < |ss| && !ss[w] && ts[w] == Spawn) ==>
      c.Some? && ts[c.value] == Spawn
    ensures c.Some? && ts[c.value] != Spawn ==>
      forall w :: w in OccupiedRooms(grid, NeighbourSlots(key)) && w < |ss| && !ss[w] && ts[w] != Spawn ==> lens[c.value] <= lens[w]
  {
    var (normals, spawns) := AdjacentOf(grid, ss, ts, NeighbourSlots(key), t);
    if t == ChestUnlocked && spawns != [] then
      assert spawns[0] in spawns;
      Some(spawns[0])
    else if normals != [] then
      assert forall q :: 0 <= q < |normals| ==> normals[q] in normals;
      var p := FirstFewest(normals, lens);
      assert forall w :: w in normals ==> exists q :: 0 <= q < |normals| && normals[q] == w;
      Some(normals[p])
    else None
  }

  /**
   * The dead-end rule over snapshots: a dead-end room has at most one link,
   * and a dead-end room other than a spawn room that is linked to a spawn
   * room is an unlocked chest room.
   */
  ghost predicate DeadEndsOn(rooms: seq<Room>, ss: seq<bool>, ts: seq<RoomType>, m: map<Room, seq<Room>>) {
    |ss| == |rooms| && |ts| == |rooms| && Covers(rooms, m) &&
    (forall i :: 0 <= i < |rooms| && ss[i] ==> |m[rooms[i]]| <= 1) &&
    (forall i, j ::
       0 <= i < |rooms| && 0 <= j < |rooms| && ss[i] && ts[i] != Spawn && ts[j] == Spawn && rooms[j] in m[rooms[i]]
       ==> ts[i] == ChestUnlocked)
  }

  /** What phase 2 keeps: well-formed links, two entries per hallway, and the dead-end rule. */
  ghost predicate PhaseTwoOn(rooms: seq<Room>, ss: seq<bool>, ts: seq<RoomType>, made: nat, m: map<Room, seq<Room>>) {
    Distinct(rooms) && Covers(rooms, m) && WellLinkedOn(rooms, m) && Entries(rooms, m) == 2 * made &&
    DeadEndsOn(rooms, ss, ts, m)
  }

  /** Rooms ready after the repair pass, with the spawn room at `k`, satisfy phase 2's invariant. */
  lemma ReadyPhaseTwo(rooms: seq<Room>, k: nat, made: nat, m: map<Room, seq<Room>>, ts: seq<RoomType>)
    requires k < |rooms| && |ts| == |rooms| && ts[k] == Spawn
    requires ReadyOn(rooms, rooms[k], made, m)
    ensures PhaseTwoOn(rooms, SinglesOf(rooms), ts, made, m)
  {
    ReadyIff(rooms, k, made, m);
    var ss := SinglesOf(rooms);
    forall i, j | 0 <= i < |rooms| && 0 <= j < |rooms| && ss[i] && ts[i] != Spawn && ts[j] == Spawn
      ensures rooms[j] !in m[rooms[i]]
    {
      assert i != k && m[rooms[i]] == [];
    }
  }

  /**
   * A hallway from a dead-end room without links to a room that is not a
   * dead end, a spawn room only for an unlocked chest room, keeps phase 2's
   * invariant.
   */
  lemma PhaseTwoJoin(rooms: seq<Room>, ss: seq<bool>, ts: seq<RoomType>, made: nat, m: map<Room, seq<Room>>,
                     i: nat, c: nat)
    requires PhaseTwoOn(rooms, ss, ts, made, m)
    requires i < |rooms| && c < |rooms| && ss[i] && !ss[c] && m[rooms[i]] == []
    requires ts[c] == Spawn ==> ts[i] == ChestUnlocked
    ensures PhaseTwoOn(rooms, ss, ts, made + 1, Joined(m, rooms[i], rooms[c]))
  {
    var a, b := rooms[i], rooms[c];
    JoinKeepsLinks(rooms, m, a, b, made);
    var m' := Joined(m, a, b);
    forall i' | 0 <= i' < |rooms| && ss[i']
      ensures |m'[rooms[i']]| <= 1
    {
      if i' != i {
        assert rooms[i'] != a && rooms[i'] != b;
      }
    }
    forall i', j | 0 <= i' < |rooms| && 0 <= j < |rooms| && ss[i'] && ts[i'] != Spawn && ts[j] == Spawn &&
                   rooms[j] in m'[rooms[i']]
      ensures ts[i'] == ChestUnlocked
    {
      if i' == i {
        assert m'[a] == [b];
        assert rooms[j] == b && j == c;
      } else {
        assert rooms[i'] != a && rooms[i'] != b;
        assert m'[rooms[i']] == m[rooms[i']];
      }
    }
  }

  /**
   * A dead-end room of role `t` in slot `key` has no candidate at all: every
   * neighbouring room that is not a dead end is a spawn room, and the room
   * is not an unlocked chest room (`Choose` gives none, whatever the counts).
   */
  ghost predicate NoCandidate(grid: map<Slot, nat>, ss: seq<bool>, ts: seq<RoomType>, key: Slot, t: RoomType) {
    forall w :: w in OccupiedRooms(grid, NeighbourSlots(key)) && w < |ss| && w < |ts| && !ss[w] ==>
      ts[w] == Spawn && t != ChestUnlocked
  }

  /**
   * The room at `j`, in slot `ks[j]`, has a candidate neighbour, one that
   * is not a dead end and is a spawn room only for an unlocked chest room,
   * that is more than three slots away on the lattice, so the hallway to it
   * is refused.
   */
  ghost predicate Refused(rooms: seq<Room>, ks: seq<Slot>, grid: map<Slot, nat>, ss: seq<bool>, ts: seq<RoomType>, j: nat) {
    j < |rooms| && j < |ks| &&
    exists c :: c in OccupiedRooms(grid, NeighbourSlots(ks[j])) && c < |rooms| && c < |ss| && c < |ts| &&
      !ss[c] && (ts[c] == Spawn ==> j < |ts| && ts[j] == ChestUnlocked) &&
      LatticeDistance(rooms[j].rect, rooms[c].rect) > 3
  }

  /**
   * Phase 2 has dealt with the room at `j`, for the slots `ks` and the
   * lists `m`: it is not a dead end, or it has a link, or no neighbour
   * qualifies, or the hallway to the chosen neighbour was refused.
   */
  ghost predicate Attempted(rooms: seq<Room>, ks: seq<Slot>, grid: map<Slot, nat>, ss: seq<bool>, ts: seq<RoomType>,
                            m: map<Room, seq<Room>>, j: nat) {
    j < |rooms| && |ks| == |rooms| && |ss| == |rooms| && |ts| == |rooms| && rooms[j] in m &&
    (!ss[j] || m[rooms[j]] != [] || NoCandidate(grid, ss, ts, ks[j], ts[j]) || Refused(rooms, ks, grid, ss, ts, j))
  }

  /** Every list of `m0` is a prefix of its list in `m`: links were only appended. */
  ghost predicate Extends(m0: map<Room, seq<Room>>, m: map<Room, seq<Room>>) {
    forall r :: r in m0 ==> r in m && m0[r] <= m[r]
  }

  /** A hallway only appends: the lists before it are prefixes of the lists after. */
  lemma JoinedExtends(m: map<Room, seq<Room>>, a: Room, b: Room)
    requires a in m && b in m && a != b
    ensures Extends(m, Joined(m, a, b))
  {
    var m' := Joined(m, a, b);
    forall r | r in m
      ensures m[r] <= m'[r]
    {
      assert m'[r] == m[r] + Gain(r, a, b);
    }
  }

  lemma ExtendsTrans(m0: map<Room, seq<Room>>, m1: map<Room, seq<Room>>, m2: map<Room, seq<Room>>)
    requires Extends(m0, m1) && Extends(m1, m2)
    ensures Extends(m0, m2)
  {
    forall r | r in m0
      ensures m0[r] <= m2[r]
    {
      assert m1[r][..|m0[r]|] == m2[r][..|m1[r]|][..|m0[r]|];
    }
  }

  /** No partner from `Choose` means no candidate at all. */
  lemma ChooseNone(grid: map<Slot, nat>, ss: seq<bool>, ts: seq<RoomType>, lens: seq<nat>, key: Slot, t: RoomType)
    requires |ss| == |ts| == |lens| && forall k :: k in grid ==> grid[k] < |ss|
    requires Choose(grid, ss, ts, lens, key, t).None?
    ensures NoCandidate(grid, ss, ts, key, t)
  {
  }

  /** `Choose`'s partner, when its hallway is refused, makes the room `Refused`. */
  lemma ChosenRefused(rooms: seq<Room>, ks: seq<Slot>, grid: map<Slot, nat>, ss: seq<bool>, ts: seq<RoomType>,
                      lens: seq<nat>, i: nat)
    requires i < |rooms| && |ks| == |rooms| && |ss| == |rooms| && |ts| == |rooms| && |lens| == |rooms|
    requires forall k :: k in grid ==> grid[k] < |ss|
    requires Choose(grid, ss, ts, lens, ks[i], ts[i]).Some?
    requires LatticeDistance(rooms[i].rect, rooms[Choose(grid, ss, ts, lens, ks[i], ts[i]).value].rect) > 3
    ensures Refused(rooms, ks, grid, ss, ts, i)
  {
    var c := Choose(grid, ss, ts, lens, ks[i], ts[i]).value;
    assert c in OccupiedRooms(grid, NeighbourSlots(ks[i]));
  }

  /**
   * What `LinkDeadEnd` promises for the room at `i` makes it `Attempted`,
   * and the lists after it extend the lists before.
   */
  lemma DeadEndDealt(rooms: seq<Room>, ks: seq<Slot>, grid: map<Slot, nat>, ss: seq<bool>, ts: seq<RoomType>,
                     m0: map<Room, seq<Room>>, m: map<Room, seq<Room>>, i: nat, partner: Option<nat>,
                     made0: nat, made: nat, ok: bool)
    requires i < |rooms| && |ks| == |rooms| && |ss| == |rooms| && |ts| == |rooms| && Covers(rooms, m0)
    requires forall k :: k in grid ==> grid[k] < |rooms|
    requires !ss[i] || m0[rooms[i]] != [] ==> partner.None?
    requires ss[i] && m0[rooms[i]] == [] ==> partner == Choose(grid, ss, ts, Lens(rooms, m0), ks[i], ts[i])
    requires partner.None? ==> m == m0
    requires partner.Some? ==>
      partner.value < |rooms| && rooms[partner.value] != rooms[i] &&
      ((made == made0 + 1 && m == Joined(m0, rooms[i], rooms[partner.value])) || (made == made0 && m == m0))
    requires partner.Some? && made == made0 && ok ==> LatticeDistance(rooms[i].rect, rooms[partner.value].rect) > 3
    ensures Extends(m0, m)
    ensures ok ==> Attempted(rooms, ks, grid, ss, ts, m, i)
  {
    if partner.None? {
      if ss[i] && m0[rooms[i]] == [] {
        ChooseNone(grid, ss, ts, Lens(rooms, m0), ks[i], ts[i]);
      }
    } else if made == made0 + 1 && m == Joined(m0, rooms[i], rooms[partner.value]) {
      JoinedExtends(m0, rooms[i], rooms[partner.value]);
      assert m[rooms[i]] == m0[rooms[i]] + [rooms[partner.value]];
    } else if ok {
      ChosenRefused(rooms, ks, grid, ss, ts, Lens(rooms, m0), i);
    }
  }

  /** The first `n` rooms are all `Attempted`. */
  ghost predicate AttemptedUpTo(rooms: seq<Room>, ks: seq<Slot>, grid: map<Slot, nat>, ss: seq<bool>, ts: seq<RoomType>,
                                m: map<Room, seq<Room>>, n: nat)
    decreases n
  {
    n == 0 || (AttemptedUpTo(rooms, ks, grid, ss, ts, m, n - 1) && Attempted(rooms, ks, grid, ss, ts, m, n - 1))
  }

  /** `AttemptedUpTo` says what its name says. */
  lemma {:induction false} AttemptedUpToAll(rooms: seq<Room>, ks: seq<Slot>, grid: map<Slot, nat>, ss: seq<bool>,
                                            ts: seq<RoomType>, m: map<Room, seq<Room>>, n: nat)
    requires AttemptedUpTo(rooms, ks, grid, ss, ts, m, n)
    ensures forall j :: 0 <= j < n ==> Attempted(rooms, ks, grid, ss, ts, m, j)
  {
    if n > 0 {
      AttemptedUpToAll(rooms, ks, grid, ss, ts, m, n - 1);
    }
  }

  /** Appending links keeps a room `Attempted`. */
  lemma AttemptedGrows(rooms: seq<Room>, ks: seq<Slot>, grid: map<Slot, nat>, ss: seq<bool>, ts: seq<RoomType>,
                       m: map<Room, seq<Room>>, m': map<Room, seq<Room>>, j: nat)
    requires Attempted(rooms, ks, grid, ss, ts, m, j) && Extends(m, m')
    ensures Attempted(rooms, ks, grid, ss, ts, m', j)
  {
    if m[rooms[j]] != [] {
      assert m[rooms[j]] <= m'[rooms[j]];
    }
  }

  /** Appending links keeps the first `n` rooms `Attempted`. */
  lemma {:induction false} AttemptedUpToGrows(rooms: seq<Room>, ks: seq<Slot>, grid: map<Slot, nat>, ss: seq<bool>,
                                              ts: seq<RoomType>, m: map<Room, seq<Room>>, m': map<Room, seq<Room>>, n: nat)
    requires AttemptedUpTo(rooms, ks, grid, ss, ts, m, n) && Extends(m, m')
    ensures AttemptedUpTo(rooms, ks, grid, ss, ts, m', n)
  {
    if n > 0 {
      AttemptedUpToGrows(rooms, ks, grid, ss, ts, m, m', n - 1);
      AttemptedGrows(rooms, ks, grid, ss, ts, m, m', n - 1);
    }
  }

  /**
   * Phase 2's outcome on the rooms themselves: every room is `Attempted`
   * under its own slot, role, flag and current links (`PhaseTwoDoneAll`).
   */
  ghost predicate PhaseTwoDone(rooms: seq<Room>, ks: seq<Slot>, grid: map<Slot, nat>)
    reads rooms
  {
    AttemptedUpTo(rooms, ks, grid, SinglesOf(rooms), TypesOf(rooms), ConnMap(rooms), |rooms|)
  }

  /** `PhaseTwoDone` room by room. */
  lemma PhaseTwoDoneAll(rooms: seq<Room>, ks: seq<Slot>, grid: map<Slot, nat>)
    requires PhaseTwoDone(rooms, ks, grid)
    ensures forall j :: 0 <= j < |rooms| ==>
      Attempted(rooms, ks, grid, SinglesOf(rooms), TypesOf(rooms), ConnMap(rooms), j)
  {
    AttemptedUpToAll(rooms, ks, grid, SinglesOf(rooms), TypesOf(rooms), ConnMap(rooms), |rooms|);
  }

  /** The four-direction scan of phase 2: the candidates, as `AdjacentOf` says. */
  method Adjacent(rooms: seq<Room>, grid: map<Slot, nat>, i: nat, ghost ss: seq<bool>, ghost ts: seq<RoomType>)
    returns (normals: seq<nat>, spawns: seq<nat>)
    requires i < |rooms| && SinglesOf(rooms) == ss && TypesOf(rooms) == ts
    requires forall key :: key in grid ==> grid[key] < |rooms|
    ensures (normals, spawns) == AdjacentOf(grid, ss, ts, NeighbourSlots(GridSlot(rooms[i])), ts[i])
  {
    var ns := NeighbourSlots(GridSlot(rooms[i]));
    normals, spawns := [], [];
    for j := 0 to 4
      invariant (normals, spawns) == AdjacentOf(grid, ss, ts, ns[..j], ts[i])
    {
      AdjacentOfStep(grid, ss, ts, ns, j, ts[i]);
      if ns[j] in grid {
        var n := grid[ns[j]];
        if !rooms[n].singleConnection {
          if rooms[n].roomType == Spawn {
            if rooms[i].roomType == ChestUnlocked {
              spawns := spawns + [n];
            }
          } else {
            normals := normals + [n];
          }
        }
      }
    }
    assert ns[..4] == ns;
  }

  /** `min` over the candidates by number of links: the first with the fewest. */
  method Fewest(rooms: seq<Room>, cands: seq<nat>, ghost m: map<Room, seq<Room>>) returns (p: nat)
    requires cands != [] && (forall q :: 0 <= q < |cands| ==> cands[q] < |rooms|) && ConnMap(rooms) == m
    ensures p == FirstFewest(cands, Lens(rooms, m))
  {
    ghost var lens := Lens(rooms, m);
    p := 0;
    for q := 1 to |cands|
      invariant p == FirstFewest(cands[..q], lens)
    {
      assert cands[..q + 1][..q] == cands[..q];
      assert cands[..q][p] == cands[p];
      if |rooms[cands[q]].connections| < |rooms[cands[p]].connections| {
        p := q;
      }
    }
    assert cands[..|cands|] == cands;
  }

  /**
   * The neighbour phase 2 picks for the dead-end room at `i`, as `Choose`
   * says: an unlocked chest room takes the first spawn room found, if any;
   * otherwise the room with the fewest links among the other candidates.
   */
  method Pick(rooms: seq<Room>, grid: map<Slot, nat>, i: nat, ghost ss: seq<bool>, ghost ts: seq<RoomType>,
              ghost m: map<Room, seq<Room>>)
    returns (partner: Option<nat>)
    requires i < |rooms| && forall key :: key in grid ==> grid[key] < |rooms|
    requires SinglesOf(rooms) == ss && TypesOf(rooms) == ts && ConnMap(rooms) == m
    ensures partner == Choose(grid, ss, ts, Lens(rooms, m), GridSlot(rooms[i]), ts[i])
  {
    var normals, spawns := Adjacent(rooms, grid, i, ss, ts);
    partner := None;
    if rooms[i].roomType == ChestUnlocked && spawns != [] {
      partner := Some(spawns[0]);
    } else if normals != [] {
      assert forall q :: 0 <= q < |normals| ==> normals[q] in normals;
      var p := Fewest(rooms, normals, m);
      partner := Some(normals[p]);
    }
  }

  /**
   * The hallway from the dead-end room at `i`, which has no links, to the
   * room at `c`. `ok` is false when carving raised `IndexError`; the link
   * is made only when the hallway is carved.
   */
  method JoinDeadEnd(rooms: seq<Room>, g: array2<int>, i: nat, c: nat,
                     ghost ss: seq<bool>, ghost ts: seq<RoomType>, made0: nat, ghost m0: map<Room, seq<Room>>)
    returns (made: nat, ok: bool, ghost m: map<Room, seq<Room>>)
    requires i < |rooms| && c < |rooms| && SinglesOf(rooms) == ss && TypesOf(rooms) == ts
    requires ConnMap(rooms) == m0 && PhaseTwoOn(rooms, ss, ts, made0, m0)
    requires ss[i] && !ss[c] && m0[rooms[i]] == [] && (ts[c] == Spawn ==> ts[i] == ChestUnlocked)
    modifies g, rooms`connections
    ensures SinglesOf(rooms) == ss && TypesOf(rooms) == ts
    ensures ConnMap(rooms) == m && PhaseTwoOn(rooms, ss, ts, made, m)
    ensures ok <==> made == made0 + 1 || LatticeDistance(rooms[i].rect, rooms[c].rect) > 3
    ensures (made == made0 + 1 && m == Joined(m0, rooms[i], rooms[c])) || (made == made0 && m == m0)
    ensures GridSlots(rooms) == old(GridSlots(rooms))
  {
    var out := CarveAndLink(rooms, rooms[i], rooms[c], g);
    SlotsKept(rooms);
    FlagsKept(rooms);
    ok := out != OutOfRange;
    made, m := made0, m0;
    if out == Carved {
      m := Joined(m0, rooms[i], rooms[c]);
      made := made0 + 1;
      PhaseTwoJoin(rooms, ss, ts, made0, m0, i, c);
    }
  }

  /**
   * One dead-end room of phase 2, the room at `i`: skipped unless it is a
   * dead end without links; otherwise it takes a hallway to the neighbour
   * `Pick` finds, if any. `ok` is false when the hallway raised `IndexError`.
   */
  method LinkDeadEnd(rooms: seq<Room>, grid: map<Slot, nat>, g: array2<int>, i: nat,
                     ghost ss: seq<bool>, ghost ts: seq<RoomType>, made0: nat, ghost m0: map<Room, seq<Room>>,
                     ghost slot: Slot)
    returns (made: nat, ok: bool, partner: Option<nat>, ghost m: map<Room, seq<Room>>)
    requires i < |rooms| && GridSlot(rooms[i]) == slot && forall key :: key in grid ==> grid[key] < |rooms|
    requires SinglesOf(rooms) == ss && TypesOf(rooms) == ts
    requires ConnMap(rooms) == m0 && PhaseTwoOn(rooms, ss, ts, made0, m0)
    modifies g, rooms`connections
    ensures SinglesOf(rooms) == ss && TypesOf(rooms) == ts
    ensures ConnMap(rooms) == m && PhaseTwoOn(rooms, ss, ts, made, m)
    ensures !ss[i] || m0[rooms[i]] != [] ==> partner.None?
    ensures ss[i] && m0[rooms[i]] == [] ==> partner == Choose(grid, ss, ts, Lens(rooms, m0), slot, ts[i])
    ensures partner.None? ==> ok && made == made0 && m == m0
    ensures partner.Some? ==>
      partner.value < |rooms| && partner.value != i && rooms[partner.value] != rooms[i] &&
      (made == made0 && ok ==> LatticeDistance(rooms[i].rect, rooms[partner.value].rect) > 3)
    ensures partner.Some? ==>
      ((made == made0 + 1 && m == Joined(m0, rooms[i], rooms[partner.value])) || (made == made0 && m == m0))
    ensures GridSlots(rooms) == old(GridSlots(rooms))
  {
    made, ok, partner, m := made0, true, None, m0;
    if !rooms[i].singleConnection || |rooms[i].connections| > 0 {
      return;
    }
    assert ss[i] && m0[rooms[i]] == [];
    partner := Pick(rooms, grid, i, ss, ts, m0);
    SlotsKept(rooms);
    if partner.Some? {
      var c := partner.value;
      assert c < |rooms| && !ss[c] && (ts[c] == Spawn ==> ts[i] == ChestUnlocked);
      made, ok, m := JoinDeadEnd(rooms, g, i, c, ss, ts, made0, m0);
    }
  }

  /**
   * `LinkDeadEnd` on the room at `i`, seen from the loop of phase 2: the
   * invariant is kept, links are only appended, and unless `IndexError` was
   * raised the rooms before `i` stay `Attempted` and the room at `i` joins them.
   */
  method LinkDeadEndStep(rooms: seq<Room>, grid: map<Slot, nat>, g: array2<int>, i: nat,
                         ghost ks: seq<Slot>, ghost ss: seq<bool>, ghost ts: seq<RoomType>, made0: nat,
                         ghost start: map<Room, seq<Room>>, ghost m0: map<Room, seq<Room>>)
    returns (made: nat, ok: bool, ghost m: map<Room, seq<Room>>)
    requires i < |rooms| && forall key :: key in grid ==> grid[key] < |rooms|
    requires GridSlots(rooms) == ks && SinglesOf(rooms) == ss && TypesOf(rooms) == ts
    requires ConnMap(rooms) == m0 && PhaseTwoOn(rooms, ss, ts, made0, m0)
    requires AttemptedUpTo(rooms, ks, grid, ss, ts, m0, i) && Extends(start, m0)
    modifies g, rooms`connections
    ensures GridSlots(rooms) == ks && SinglesOf(rooms) == ss && TypesOf(rooms) == ts
    ensures ConnMap(rooms) == m && made >= made0 && PhaseTwoOn(rooms, ss, ts, made, m) && Extends(start, m)
    ensures ok ==> AttemptedUpTo(rooms, ks, grid, ss, ts, m, i + 1)
  {
    var partner;
    made, ok, partner, m := LinkDeadEnd(rooms, grid, g, i, ss, ts, made0, m0, ks[i]);
    DeadEndDealt(rooms, ks, grid, ss, ts, m0, m, i, partner, made0, made, ok);
    if ok {
      AttemptedUpToGrows(rooms, ks, grid, ss, ts, m0, m, i);
    }
    ExtendsTrans(start, m0, m);
  }

  /**
   * Phase 2: the dead-end rooms in list order, each as `LinkDeadEnd` says.
   * The loop stops at the first `IndexError`; otherwise every room ends
   * `Attempted`, and links are only ever appended.
   */
  method LinkDeadEnds(rooms: seq<Room>, grid: map<Slot, nat>, g: array2<int>, made0: nat,
                      ghost ks: seq<Slot>, ghost m0: map<Room, seq<Room>>)
    returns (made: nat, ok: bool, ghost m: map<Room, seq<Room>>)
    requires forall key :: key in grid ==> grid[key] < |rooms|
    requires ConnMap(rooms) == m0 && PhaseTwoOn(rooms, SinglesOf(rooms), TypesOf(rooms), made0, m0)
    requires GridSlots(rooms) == ks
    modifies g, rooms`connections
    ensures ConnMap(rooms) == m && made >= made0 && Extends(m0, m) && GridSlots(rooms) == ks
    ensures ok ==> PhaseTwoOn(rooms, SinglesOf(rooms), TypesOf(rooms), made, m)
    ensures ok ==> PhaseTwoDone(rooms, ks, grid)
  {
    ghost var ss, ts := SinglesOf(rooms), TypesOf(rooms);
    made, ok, m := made0, true, m0;
    for i := 0 to |rooms|
      invariant AttemptedUpTo(rooms, ks, grid, ss, ts, m, i)
      invariant ConnMap(rooms) == m && made >= made0 && PhaseTwoOn(rooms, ss, ts, made, m) && Extends(m0, m)
      invariant GridSlots(rooms) == ks && SinglesOf(rooms) == ss && TypesOf(rooms) == ts
    {
      made, ok, m := LinkDeadEndStep(rooms, grid, g, i, ks, ss, ts, made, m0, m);
      if !ok {
        return;
      }
    }
  }
}
