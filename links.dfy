/**
 * Hallway links between rooms. Every link the generator makes appends each
 * room to the other's `connections` list in the same step, so a room lists
 * another exactly as often as the other lists it, and every hallway adds
 * exactly two list entries. The properties are stated on a value snapshot of
 * the lists (`ConnMap`) so that they are proved once, on values, and then
 * used wherever the lists change in place.
 */
module Links {
  import opened Rooms

  /** The `connections` list of every room of the list. */
  function ConnMap(rooms: seq<Room>): (m: map<Room, seq<Room>>)
    reads rooms`connections
    ensures forall x :: x in m ==> x in rooms
    ensures forall x :: x in rooms ==> x in m && m[x] == x.connections
  {
    map x | x in rooms :: x.connections
  }

  /** Every room of the list has a list in `m`. */
  predicate Covers(rooms: seq<Room>, m: map<Room, seq<Room>>) {
    forall x :: x in rooms ==> x in m
  }

  /** How often the list of `x` in `m` names `y`. */
  function Listed(m: map<Room, seq<Room>>, x: Room, y: Room): nat
    requires x in m
  {
    Count(m[x], y)
  }

  /** Each room lists the other exactly as often as it is listed by it. */
  ghost predicate Symmetric(rooms: seq<Room>, m: map<Room, seq<Room>>)
    requires Covers(rooms, m)
  {
    forall x, y {:trigger Listed(m, x, y)} :: x in rooms && y in rooms ==> Listed(m, x, y) == Listed(m, y, x)
  }

  /**
   * The links `m` are well formed: symmetric, naming only rooms of the
   * list, each at most once, and never the room itself.
   */
  ghost predicate WellLinkedOn(rooms: seq<Room>, m: map<Room, seq<Room>>)
    requires Covers(rooms, m)
  {
    Symmetric(rooms, m) &&
    (forall x, z {:trigger Listed(m, x, z)} :: x in rooms && z in m[x] ==> z in rooms) &&
    (forall x, y {:trigger Listed(m, x, y)} :: x in rooms && y in rooms ==> Listed(m, x, y) <= 1) &&
    (forall x {:trigger Listed(m, x, x)} :: x in rooms ==> Listed(m, x, x) == 0)
  }

  /** The rooms' current links are well formed. */
  ghost predicate WellLinked(rooms: seq<Room>)
    reads rooms`connections
  {
    WellLinkedOn(rooms, ConnMap(rooms))
  }

  /** Total length of the lists of the rooms of the list, room by room. */
  function Entries(rooms: seq<Room>, m: map<Room, seq<Room>>): nat
    requires Covers(rooms, m)
  {
    if rooms == [] then 0 else Entries(rooms[..|rooms| - 1], m) + |m[rooms[|rooms| - 1]]|
  }

  /** Number of list entries of the rooms, which is twice the number of hallways made. */
  function TotalLinks(rooms: seq<Room>): nat
    reads rooms`connections
  {
    Entries(rooms, ConnMap(rooms))
  }

  /** Lists that are all empty hold no entries. */
  lemma {:induction false} EntriesNone(rooms: seq<Room>, m: map<Room, seq<Room>>)
    requires Covers(rooms, m) && forall x :: x in rooms ==> m[x] == []
    ensures Entries(rooms, m) == 0
  {
    if rooms != [] {
      EntriesNone(rooms[..|rooms| - 1], m);
    }
  }

  /** What linking `a` and `b` appends to the list of room `x`. */
  function Gain(x: Room, a: Room, b: Room): seq<Room> {
    (if x == a then [b] else []) + (if x == b then [a] else [])
  }

  /** The lists after `a` and `b` are linked: `a` gains `b` and `b` gains `a`. */
  function Joined(m: map<Room, seq<Room>>, a: Room, b: Room): (m': map<Room, seq<Room>>)
    requires a in m && b in m && a != b
    ensures m'.Keys == m.Keys
    ensures forall x :: x in m ==> m'[x] == m[x] + Gain(x, a, b)
  {
    m[a := m[a] + [b]][b := m[b] + [a]]
  }

  lemma CountAppend(s: seq<Room>, t: seq<Room>, x: Room)
    ensures Count(s + t, x) == Count(s, x) + Count(t, x)
  {
    assert multiset(s + t) == multiset(s) + multiset(t);
  }

  /** How often `x` lists `y` once `Gain(x, a, b)` is appended to its list. */
  lemma GainedCount(a: Room, b: Room, x: Room, y: Room, before: seq<Room>)
    requires a != b
    ensures Count(before + Gain(x, a, b), y) ==
      Count(before, y) + (if x == a && y == b then 1 else 0) + (if x == b && y == a then 1 else 0)
  {
    CountAppend(before, Gain(x, a, b), y);
    CountAppend(if x == a then [b] else [], if x == b then [a] else [], y);
  }

  /** Linking two distinct rooms keeps the lists symmetric. */
  lemma JoinedSymmetric(rooms: seq<Room>, m: map<Room, seq<Room>>, a: Room, b: Room)
    requires Covers(rooms, m) && a != b && a in m && b in m
    requires Symmetric(rooms, m)
    ensures Symmetric(rooms, Joined(m, a, b))
  {
    var m' := Joined(m, a, b);
    forall x, y | x in rooms && y in rooms
      ensures Listed(m', x, y) == Listed(m', y, x)
    {
      JoinedPair(m, a, b, x, y);
    }
  }

  /** Linking `a` and `b` keeps a pair of rooms that list each other equally often so. */
  lemma JoinedPair(m: map<Room, seq<Room>>, a: Room, b: Room, x: Room, y: Room)
    requires a in m && b in m && a != b && x in m && y in m
    requires Listed(m, x, y) == Listed(m, y, x)
    ensures Listed(Joined(m, a, b), x, y) == Listed(Joined(m, a, b), y, x)
  {
    GainedCount(a, b, x, y, m[x]);
    GainedCount(a, b, y, x, m[y]);
  }

  /**
   * Linking a room without links to another room of the list keeps every
   * list within the rooms, every count at most one and no room in its own
   * list.
   */
  lemma JoinedSimple(rooms: seq<Room>, m: map<Room, seq<Room>>, a: Room, b: Room)
    requires Covers(rooms, m) && a != b && a in rooms && b in rooms && m[a] == []
    requires WellLinkedOn(rooms, m)
    ensures forall x, z {:trigger Listed(Joined(m, a, b), x, z)} :: x in rooms && z in Joined(m, a, b)[x] ==> z in rooms
    ensures forall x, y {:trigger Listed(Joined(m, a, b), x, y)} :: x in rooms && y in rooms ==> Listed(Joined(m, a, b), x, y) <= 1
    ensures forall x {:trigger Listed(Joined(m, a, b), x, x)} :: x in rooms ==> Listed(Joined(m, a, b), x, x) == 0
  {
    var m' := Joined(m, a, b);
    forall x, z | x in rooms && z in m'[x]
      ensures z in rooms
    {
      if z in m[x] {
        assert Listed(m, x, z) >= 0;
      } else {
        assert z in Gain(x, a, b);
      }
    }
    forall x, y | x in rooms && y in rooms
      ensures Listed(m', x, y) <= 1
    {
      assert Listed(m, x, y) <= 1;
      GainedCount(a, b, x, y, m[x]);
      if x == b && y == a {
        assert Listed(m, b, a) == Listed(m, a, b) == 0;
      }
    }
    forall x | x in rooms
      ensures Listed(m', x, x) == 0
    {
      assert Listed(m, x, x) == 0;
      GainedCount(a, b, x, x, m[x]);
    }
  }

  /** Linking a room without links to another room of the list keeps the links well formed. */
  lemma JoinedWellLinked(rooms: seq<Room>, m: map<Room, seq<Room>>, a: Room, b: Room)
    requires Covers(rooms, m) && a != b && a in rooms && b in rooms && m[a] == []
    requires WellLinkedOn(rooms, m)
    ensures WellLinkedOn(rooms, Joined(m, a, b))
  {
    JoinedSymmetric(rooms, m, a, b);
    JoinedSimple(rooms, m, a, b);
    var m' := Joined(m, a, b);
    forall x, z | x in rooms && z in m'[x]
      ensures z in rooms
    {
      assert Listed(m', x, z) >= 0;
    }
  }

  /**
   * Linking `a` and `b` adds one entry for every place `a` occupies in the
   * list and one for every place `b` occupies.
   */
  lemma {:induction false} JoinedEntries(rooms: seq<Room>, m: map<Room, seq<Room>>, a: Room, b: Room)
    requires Covers(rooms, m) && a != b && a in m && b in m
    ensures Entries(rooms, Joined(m, a, b)) == Entries(rooms, m) + Count(rooms, a) + Count(rooms, b)
    decreases |rooms|
  {
    if rooms != [] {
      var n := |rooms| - 1;
      assert rooms == rooms[..n] + [rooms[n]];
      GainedCount(a, b, rooms[n], a, []);
      GainedCount(a, b, rooms[n], b, []);
      assert |Gain(rooms[n], a, b)| == Count(Gain(rooms[n], a, b), a) + Count(Gain(rooms[n], a, b), b);
      CountAppend(rooms[..n], [rooms[n]], a);
      CountAppend(rooms[..n], [rooms[n]], b);
      JoinedEntries(rooms[..n], m, a, b);
    }
  }

  /** A room that occurs once in a list of distinct rooms is counted once. */
  lemma DistinctCount(rooms: seq<Room>, x: Room)
    requires Distinct(rooms)
    ensures Count(rooms, x) == if x in rooms then 1 else 0
  {
    if rooms != [] {
      var n := |rooms| - 1;
      assert rooms == rooms[..n] + [rooms[n]];
      assert Distinct(rooms[..n]);
      CountAppend(rooms[..n], [rooms[n]], x);
      DistinctCount(rooms[..n], x);
    }
  }

  /**
   * Where every room is listed once, linking two distinct rooms of the list
   * adds exactly two entries.
   */
  lemma JoinedAddsTwo(rooms: seq<Room>, m: map<Room, seq<Room>>, a: Room, b: Room)
    requires Covers(rooms, m) && Distinct(rooms) && a != b && a in rooms && b in rooms
    ensures Entries(rooms, Joined(m, a, b)) == Entries(rooms, m) + 2
  {
    JoinedEntries(rooms, m, a, b);
    DistinctCount(rooms, a);
    DistinctCount(rooms, b);
  }

  /** The list without the rooms of `drop`, in the same order. */
  function Without(rooms: seq<Room>, drop: set<Room>): (r: seq<Room>)
    ensures |r| <= |rooms|
    ensures forall x :: x in r ==> x in rooms && x !in drop
    ensures forall x :: x in rooms && x !in drop ==> x in r
  {
    if rooms == [] then []
    else Without(rooms[..|rooms| - 1], drop) + (if rooms[|rooms| - 1] in drop then [] else [rooms[|rooms| - 1]])
  }

  /** Leaving nothing out gives back the list. */
  lemma {:induction false} WithoutNothing(rooms: seq<Room>)
    ensures Without(rooms, {}) == rooms
  {
    if rooms != [] {
      WithoutNothing(rooms[..|rooms| - 1]);
      assert rooms[..|rooms| - 1] + [rooms[|rooms| - 1]] == rooms;
    }
  }

  /** Leaving rooms out keeps the rest distinct. */
  lemma {:induction false} WithoutDistinct(rooms: seq<Room>, drop: set<Room>)
    requires Distinct(rooms)
    ensures Distinct(Without(rooms, drop))
  {
    if rooms != [] {
      var n := |rooms| - 1;
      assert Distinct(rooms[..n]);
      WithoutDistinct(rooms[..n], drop);
      assert rooms[n] !in rooms[..n];
    }
  }

  /** Leaving out rooms without links changes no count of entries. */
  lemma {:induction false} WithoutEntries(rooms: seq<Room>, m: map<Room, seq<Room>>, drop: set<Room>)
    requires Covers(rooms, m) && forall x :: x in drop && x in rooms ==> m[x] == []
    ensures Entries(Without(rooms, drop), m) == Entries(rooms, m)
  {
    if rooms != [] {
      var n := |rooms| - 1;
      var rest := Without(rooms[..n], drop);
      WithoutEntries(rooms[..n], m, drop);
      if rooms[n] !in drop {
        assert (rest + [rooms[n]])[..|rest|] == rest;
      } else {
        assert rest + [] == rest;
      }
    }
  }

  /**
   * Leaving out rooms without links keeps the links of the others well
   * formed: no room left lists a room that was left out.
   */
  lemma WithoutWellLinked(rooms: seq<Room>, m: map<Room, seq<Room>>, drop: set<Room>)
    requires Covers(rooms, m) && WellLinkedOn(rooms, m)
    requires forall x :: x in drop && x in rooms ==> m[x] == []
    ensures Covers(Without(rooms, drop), m) && WellLinkedOn(Without(rooms, drop), m)
  {
    var r := Without(rooms, drop);
    forall x, z | x in r && z in m[x]
      ensures z in r
    {
      assert Listed(m, x, z) > 0 && Listed(m, z, x) == Listed(m, x, z);
    }
  }

  /** Well-formedness and the count of entries depend only on the lists of the rooms of the list. */
  lemma AgreeOn(rooms: seq<Room>, m1: map<Room, seq<Room>>, m2: map<Room, seq<Room>>)
    requires Covers(rooms, m1) && Covers(rooms, m2) && forall x :: x in rooms ==> m1[x] == m2[x]
    ensures WellLinkedOn(rooms, m1) ==> WellLinkedOn(rooms, m2)
    ensures Entries(rooms, m1) == Entries(rooms, m2)
  {
    AgreeEntries(rooms, m1, m2);
    if WellLinkedOn(rooms, m1) {
      forall x, y | x in rooms && y in rooms
        ensures Listed(m2, x, y) == Listed(m1, x, y)
      {
      }
      forall x, z | x in rooms && z in m2[x]
        ensures z in rooms
      {
        assert Listed(m1, x, z) > 0;
      }
    }
  }

  lemma {:induction false} AgreeEntries(rooms: seq<Room>, m1: map<Room, seq<Room>>, m2: map<Room, seq<Room>>)
    requires Covers(rooms, m1) && Covers(rooms, m2) && forall x :: x in rooms ==> m1[x] == m2[x]
    ensures Entries(rooms, m1) == Entries(rooms, m2)
  {
    if rooms != [] {
      AgreeEntries(rooms[..|rooms| - 1], m1, m2);
    }
  }

  /**
   * `a.connections.append(b); b.connections.append(a)`: the one way the
   * generator links two rooms.
   */
  method Link(rooms: seq<Room>, a: Room, b: Room)
    requires a != b
    modifies a`connections, b`connections
    ensures a.connections == old(a.connections) + [b]
    ensures b.connections == old(b.connections) + [a]
    ensures a in rooms && b in rooms ==> ConnMap(rooms) == Joined(old(ConnMap(rooms)), a, b)
  {
    ghost var m := ConnMap(rooms);
    a.connections := a.connections + [b];
    b.connections := b.connections + [a];
    if a in rooms && b in rooms {
      assert ConnMap(rooms) == Joined(m, a, b);
    }
  }
}
