/**
 * The link lists after the repair pass moves a dead-end room: the normal
 * room `n` that takes over the dead-end role is left with no links, the
 * dead-end room `s` that becomes normal takes over `n`'s links, every room
 * `n` was linked to now names `s` instead, and every room that named `s`
 * forgets it.
 */
module Relocation {
  import opened Rooms
  import opened Links

  /** `l.remove(x)` where `x` is known to be in `l`: drops the first occurrence. */
  function RemoveFirst(l: seq<Room>, x: Room): (r: seq<Room>)
    requires x in l
    ensures multiset(r) == multiset(l) - multiset{x}
    ensures |r| == |l| - 1
  {
    assert l == [l[0]] + l[1..];
    if l[0] == x then l[1..]
    else [l[0]] + RemoveFirst(l[1..], x)
  }

  /** The list of a room `n` was linked to: `n` removed if present, then `s` appended if absent. */
  function Retarget(l: seq<Room>, n: Room, s: Room): seq<Room> {
    var l' := if n in l then RemoveFirst(l, n) else l;
    if s in l' then l' else l' + [s]
  }

  /** The list of a room `s` was linked to: `s` removed if present. */
  function Unlist(l: seq<Room>, s: Room): seq<Room> {
    if s in l then RemoveFirst(l, s) else l
  }

  /** `Retarget` applied to the lists of `cs`, one room after the other. */
  function RetargetAll(m: map<Room, seq<Room>>, cs: seq<Room>, n: Room, s: Room): (m': map<Room, seq<Room>>)
    requires forall c :: c in cs ==> c in m
    ensures m'.Keys == m.Keys
  {
    if cs == [] then m
    else
      var p := RetargetAll(m, cs[..|cs| - 1], n, s);
      var c := cs[|cs| - 1];
      p[c := Retarget(p[c], n, s)]
  }

  /** `Unlist` applied to the lists of `cs`, one room after the other. */
  function UnlistAll(m: map<Room, seq<Room>>, cs: seq<Room>, s: Room): (m': map<Room, seq<Room>>)
    requires forall c :: c in cs ==> c in m
    ensures m'.Keys == m.Keys
  {
    if cs == [] then m
    else
      var p := UnlistAll(m, cs[..|cs| - 1], s);
      var c := cs[|cs| - 1];
      p[c := Unlist(p[c], s)]
  }

  /** Every room named by the lists of `n` and `s` has a list of its own. */
  predicate Listable(m: map<Room, seq<Room>>, n: Room, s: Room) {
    n in m && s in m && (forall c :: c in m[n] ==> c in m) && (forall c :: c in m[s] ==> c in m)
  }

  /** The lists after the dead-end room `s` is moved to the normal room `n`. */
  function Relocated(m: map<Room, seq<Room>>, n: Room, s: Room): (m': map<Room, seq<Room>>)
    requires Listable(m, n, s)
    ensures m'.Keys == m.Keys
  {
    var m1 := m[n := []][s := m[n]];
    UnlistAll(RetargetAll(m1, m[n], n, s), m[s], s)
  }

  /** A list in which no room occurs twice has distinct entries. */
  lemma {:induction false} AtMostOnceDistinct(l: seq<Room>)
    requires forall y :: y in l ==> Count(l, y) <= 1
    ensures Distinct(l)
  {
    forall i, j | 0 <= i < j < |l|
      ensures l[i] != l[j]
    {
      if l[i] == l[j] {
        TwiceCounted(l, i, j);
        assert false;
      }
    }
  }

  lemma {:induction false} TwiceCounted(l: seq<Room>, i: nat, j: nat)
    requires i < j < |l| && l[i] == l[j]
    ensures Count(l, l[i]) >= 2
  {
    assert l == [l[0]] + l[1..];
    CountAppend([l[0]], l[1..], l[i]);
    if i == 0 {
      assert l[1..][j - 1] == l[i];
    } else {
      assert l[1..][i - 1] == l[i] && l[1..][j - 1] == l[j];
      TwiceCounted(l[1..], i - 1, j - 1);
    }
  }

  /** Retargeting the lists of distinct rooms changes each of their lists once and no other. */
  lemma {:induction false} RetargetAllForm(m: map<Room, seq<Room>>, cs: seq<Room>, n: Room, s: Room)
    requires (forall c :: c in cs ==> c in m) && Distinct(cs)
    ensures forall x :: x in m ==> RetargetAll(m, cs, n, s)[x] == if x in cs then Retarget(m[x], n, s) else m[x]
  {
    if cs != [] {
      var k := |cs| - 1;
      assert Distinct(cs[..k]);
      assert forall x :: x in cs <==> x in cs[..k] || x == cs[k];
      assert cs[k] !in cs[..k];
      RetargetAllForm(m, cs[..k], n, s);
    }
  }

  /**
   * The rooms linked to `n` are other rooms of the list, none of them `s`,
   * each linked back to `n`, and each named once in `n`'s list.
   */
  lemma NeighboursOfMoved(rooms: seq<Room>, m: map<Room, seq<Room>>, n: Room, s: Room)
    requires Covers(rooms, m) && WellLinkedOn(rooms, m)
    requires n in rooms && s in rooms && n != s && m[s] == []
    ensures forall x :: x in m[n] ==> x in rooms && x != n && x != s && n in m[x]
    ensures forall y :: y in m[n] ==> Count(m[n], y) <= 1
  {
    forall c | c in m[n]
      ensures c in rooms && c != n && c != s && n in m[c]
    {
      assert Listed(m, n, c) >= 1 && Listed(m, n, n) == 0;
      assert Listed(m, c, n) == Listed(m, n, c);
      assert Listed(m, s, n) == Listed(m, n, s) == 0;
    }
    forall y | y in m[n]
      ensures Count(m[n], y) <= 1
    {
      assert Listed(m, n, y) <= 1;
    }
  }

  /**
   * Where the links are well formed and `s` has none, moving `s` to `n`
   * leaves `n` bare, gives `s` the list of `n`, and trades `n` for `s` in
   * the lists of the rooms `n` was linked to.
   */
  lemma RelocatedForm(rooms: seq<Room>, m: map<Room, seq<Room>>, n: Room, s: Room)
    requires Covers(rooms, m) && WellLinkedOn(rooms, m)
    requires n in rooms && s in rooms && n != s && m[s] == []
    ensures Listable(m, n, s)
    ensures forall x :: x in m[n] ==> x in rooms && x != n && x != s && n in m[x]
    ensures forall x :: x in m ==>
      Relocated(m, n, s)[x] == (if x == n then [] else if x == s then m[n]
                                else if x in m[n] then RemoveFirst(m[x], n) + [s] else m[x])
  {
    NeighboursOfMoved(rooms, m, n, s);
    AtMostOnceDistinct(m[n]);
    var m1 := m[n := []][s := m[n]];
    RetargetAllForm(m1, m[n], n, s);
    forall x | x in m[n]
      ensures Retarget(m1[x], n, s) == RemoveFirst(m[x], n) + [s]
    {
      assert Listed(m, x, s) == Listed(m, s, x) == 0;
      assert s !in m[x];
      assert multiset(RemoveFirst(m[x], n))[s] == 0;
    }
  }

  /** How often each list names each room after the move, in terms of the lists before it. */
  lemma RelocatedListed(rooms: seq<Room>, m: map<Room, seq<Room>>, n: Room, s: Room, x: Room, y: Room)
    requires Covers(rooms, m) && WellLinkedOn(rooms, m)
    requires n in rooms && s in rooms && n != s && m[s] == []
    requires x in rooms
    ensures Listable(m, n, s)
    ensures Listed(Relocated(m, n, s), x, y) ==
      if x == n then 0
      else if x == s then Listed(m, n, y)
      else if x in m[n] then Listed(m, x, y) - (if y == n then 1 else 0) + (if y == s then 1 else 0)
      else Listed(m, x, y)
  {
    RelocatedForm(rooms, m, n, s);
    if x != n && x != s && x in m[n] {
      CountAppend(RemoveFirst(m[x], n), [s], y);
    }
  }

  /** One pair of rooms: symmetry and at most one mention survive the move. */
  lemma RelocatedPair(rooms: seq<Room>, m: map<Room, seq<Room>>, n: Room, s: Room, x: Room, y: Room)
    requires Covers(rooms, m) && WellLinkedOn(rooms, m)
    requires n in rooms && s in rooms && n != s && m[s] == []
    requires x in rooms && y in rooms
    ensures Listable(m, n, s)
    ensures Listed(Relocated(m, n, s), x, y) == Listed(Relocated(m, n, s), y, x)
    ensures Listed(Relocated(m, n, s), x, y) <= 1
  {
    RelocatedListed(rooms, m, n, s, x, y);
    RelocatedListed(rooms, m, n, s, y, x);
    assert Listed(m, x, y) == Listed(m, y, x) && Listed(m, x, y) <= 1;
    assert Listed(m, n, x) == Listed(m, x, n) && Listed(m, n, y) == Listed(m, y, n);
    assert Listed(m, s, x) == Listed(m, x, s) == 0 && Listed(m, s, y) == Listed(m, y, s) == 0;
    assert Listed(m, n, n) == 0 && Listed(m, n, s) == 0;
    assert x in m[n] <==> Listed(m, n, x) == 1;
    assert y in m[n] <==> Listed(m, n, y) == 1;
  }

  /** Moving a dead-end room with no links keeps the links well formed. */
  lemma RelocatedWellLinked(rooms: seq<Room>, m: map<Room, seq<Room>>, n: Room, s: Room)
    requires Covers(rooms, m) && WellLinkedOn(rooms, m)
    requires n in rooms && s in rooms && n != s && m[s] == []
    ensures Listable(m, n, s) && Covers(rooms, Relocated(m, n, s))
    ensures WellLinkedOn(rooms, Relocated(m, n, s))
  {
    RelocatedForm(rooms, m, n, s);
    var m' := Relocated(m, n, s);
    forall x, y | x in rooms && y in rooms
      ensures Listed(m', x, y) == Listed(m', y, x) && Listed(m', x, y) <= 1
    {
      RelocatedPair(rooms, m, n, s, x, y);
    }
    forall x | x in rooms
      ensures Listed(m', x, x) == 0
    {
      RelocatedListed(rooms, m, n, s, x, x);
      assert Listed(m, x, x) == 0 && Listed(m, n, s) == 0;
    }
    forall x, z | x in rooms && z in m'[x]
      ensures z in rooms
    {
      if x != n && x != s && x in m[n] {
        assert z in RemoveFirst(m[x], n) + [s];
        if z != s {
          assert z in RemoveFirst(m[x], n);
          assert multiset(RemoveFirst(m[x], n))[z] > 0;
          assert Listed(m, x, z) > 0;
        }
      } else if x == s {
        assert Listed(m, n, z) > 0;
      } else if x != n {
        assert Listed(m, x, z) > 0;
      }
    }
  }

  /** Lists of equal lengths hold equally many entries. */
  lemma {:induction false} EntriesByLength(rooms: seq<Room>, m1: map<Room, seq<Room>>, m2: map<Room, seq<Room>>)
    requires Covers(rooms, m1) && Covers(rooms, m2)
    requires forall x :: x in rooms ==> |m1[x]| == |m2[x]|
    ensures Entries(rooms, m1) == Entries(rooms, m2)
  {
    if rooms != [] {
      EntriesByLength(rooms[..|rooms| - 1], m1, m2);
    }
  }

  /** Replacing the list of one room of a list of distinct rooms changes the entries by the difference in length. */
  lemma {:induction false} EntriesUpdate(rooms: seq<Room>, m: map<Room, seq<Room>>, x: Room, l: seq<Room>)
    requires Covers(rooms, m) && Distinct(rooms) && x in rooms
    ensures Entries(rooms, m[x := l]) + |m[x]| == Entries(rooms, m) + |l|
  {
    var k := |rooms| - 1;
    assert Distinct(rooms[..k]);
    if rooms[k] == x {
      assert x !in rooms[..k];
      AgreeEntries(rooms[..k], m, m[x := l]);
    } else {
      assert x in rooms[..k];
      EntriesUpdate(rooms[..k], m, x, l);
    }
  }

  /** Moving a dead-end room with no links keeps the number of entries. */
  lemma RelocatedEntries(rooms: seq<Room>, m: map<Room, seq<Room>>, n: Room, s: Room)
    requires Covers(rooms, m) && WellLinkedOn(rooms, m) && Distinct(rooms)
    requires n in rooms && s in rooms && n != s && m[s] == []
    ensures Listable(m, n, s) && Covers(rooms, Relocated(m, n, s))
    ensures Entries(rooms, Relocated(m, n, s)) == Entries(rooms, m)
  {
    RelocatedForm(rooms, m, n, s);
    var swapped := m[n := m[s]][s := m[n]];
    EntriesUpdate(rooms, m, n, m[s]);
    EntriesUpdate(rooms, m[n := m[s]], s, m[n]);
    EntriesByLength(rooms, Relocated(m, n, s), swapped);
  }
}
