/**
 * The two searches over hallway links from the spawn room,
 * `is_room_connected_to_spawn` and `find_reachable_rooms_from_spawn`: a
 * breadth-first search that follows each room's `connections` list, proved
 * against `LinkReachable`, a chain of rooms each listed by the one before.
 *
 * A search follows links wherever they lead, also to rooms in no list. The
 * ghost parameter `world` stands for a finite set of rooms that holds every
 * room its rooms link to (in a running program, the rooms that exist); it
 * is what bounds the search.
 */
module Reach {
  import opened Rooms
  import opened Wrappers
  import opened Links
  import opened LinkState
  import opened Repair

  /** The `connections` lists of the rooms of `world`. */
  function LinksOf(world: set<Room>): (m: map<Room, seq<Room>>)
    reads world`connections
    ensures m.Keys == world
    ensures forall r :: r in world ==> m[r] == r.connections
  {
    map r | r in world :: r.connections
  }

  /** Every room a room of `m` links to has a list in `m`. */
  ghost predicate Closed(m: map<Room, seq<Room>>) {
    forall r, c :: r in m && c in m[r] ==> c in m
  }

  /** Every link is returned: a room listed by `r` lists `r`, as `connect_rooms` keeps them. */
  ghost predicate Mutual(m: map<Room, seq<Room>>) {
    forall r, c :: r in m && c in m[r] ==> c in m && r in m[c]
  }

  /** `p` is a chain of rooms of `m`, each listed by the one before it. */
  ghost predicate LinkPath(m: map<Room, seq<Room>>, older p: seq<Room>) {
    |p| > 0 && (forall i :: 0 <= i < |p| ==> p[i] in m) &&
    forall i :: 0 <= i < |p| - 1 ==> p[i] in m && p[i + 1] in m[p[i]]
  }

  /** Room `t` is reached from room `s` by following links. */
  ghost predicate LinkReachable(m: map<Room, seq<Room>>, s: Room, t: Room) {
    exists p :: LinkPath(m, p) && p[0] == s && p[|p| - 1] == t
  }

  lemma ReachSelf(m: map<Room, seq<Room>>, s: Room)
    requires s in m
    ensures LinkReachable(m, s, s)
  {
    assert LinkPath(m, [s]);
  }

  /** A room reached from `s`, followed by one of its links. */
  lemma ReachStep(m: map<Room, seq<Room>>, s: Room, u: Room, w: Room)
    requires LinkReachable(m, s, u) && u in m && w in m[u] && w in m
    ensures LinkReachable(m, s, w)
  {
    var p :| LinkPath(m, p) && p[0] == s && p[|p| - 1] == u;
    var q := p + [w];
    forall i | 0 <= i < |q| - 1
      ensures q[i] in m && q[i + 1] in m[q[i]]
    {
      if i < |p| - 1 {
        assert q[i] == p[i] && q[i + 1] == p[i + 1];
      }
    }
    assert LinkPath(m, q) && q[0] == s && q[|q| - 1] == w;
  }

  /** A room reached from `s` lies in every set that holds `s` and every link of its members. */
  lemma {:induction false} ClosedHoldsPath(m: map<Room, seq<Room>>, s: Room, visited: set<Room>, p: seq<Room>)
    requires s in visited
    requires forall v, c :: v in visited && v in m && c in m[v] ==> c in visited
    requires LinkPath(m, p) && p[0] == s
    ensures p[|p| - 1] in visited
  {
    if |p| > 1 {
      var q := p[..|p| - 1];
      assert LinkPath(m, q) by {
        forall i | 0 <= i < |q| - 1
          ensures q[i] in m && q[i + 1] in m[q[i]]
        {
          assert q[i] == p[i] && q[i + 1] == p[i + 1];
        }
      }
      ClosedHoldsPath(m, s, visited, q);
      assert p[|p| - 2] in m && p[|p| - 1] in m[p[|p| - 2]];
    }
  }

  /** Over links that are always returned, reachability goes both ways. */
  lemma {:induction false} ReachBack(m: map<Room, seq<Room>>, p: seq<Room>)
    requires Mutual(m) && LinkPath(m, p)
    ensures LinkReachable(m, p[|p| - 1], p[0])
  {
    if |p| == 1 {
      ReachSelf(m, p[0]);
    } else {
      var q := p[1..];
      assert LinkPath(m, q) by {
        forall i | 0 <= i < |q| - 1
          ensures q[i] in m && q[i + 1] in m[q[i]]
        {
          assert q[i] == p[i + 1] && q[i + 1] == p[i + 2];
        }
      }
      ReachBack(m, q);
      assert p[0] in m && p[1] in m[p[0]];
      ReachStep(m, p[|p| - 1], p[1], p[0]);
    }
  }

  /** `LinkReachable` is symmetric when every link is returned. */
  lemma ReachableSymmetric(m: map<Room, seq<Room>>, s: Room, t: Room)
    requires Mutual(m) && LinkReachable(m, s, t)
    ensures LinkReachable(m, t, s)
  {
    var p :| LinkPath(m, p) && p[0] == s && p[|p| - 1] == t;
    ReachBack(m, p);
  }

  /**
   * The links `connect_rooms` leaves (well formed, see `Links.WellLinked`)
   * meet what the searches need with the rooms of the list as `world`:
   * every link stays in the list and is returned.
   */
  lemma WellLinkedMutual(rooms: seq<Room>)
    requires WellLinked(rooms)
    ensures Closed(LinksOf(set r | r in rooms)) && Mutual(LinksOf(set r | r in rooms))
  {
    var world := set r | r in rooms;
    var m, cm := LinksOf(world), ConnMap(rooms);
    forall r, c | r in m && c in m[r]
      ensures c in m && r in m[c]
    {
      assert r in rooms && m[r] == cm[r] && Listed(cm, r, c) > 0;
      assert c in rooms;
      assert Listed(cm, c, r) == Listed(cm, r, c);
      assert r in multiset(cm[c]);
    }
  }

  /**
   * What the search keeps: every visited room is reached from `spawn` and
   * lies in `m`; a visited room is either expanded (`done`, all its links
   * visited) or still queued; a visited target is still queued.
   */
  ghost predicate SearchInv(m: map<Room, seq<Room>>, spawn: Room, target: Option<Room>, visited: set<Room>,
                            done: set<Room>, queue: seq<Room>)
  {
    spawn in visited && done <= visited && visited <= m.Keys &&
    (forall v :: v in visited ==> LinkReachable(m, spawn, v)) &&
    (forall i :: 0 <= i < |queue| ==> queue[i] in visited) &&
    (forall v :: v in visited ==> v in done || v in queue) &&
    (forall v, c :: v in done && c in m[v] ==> c in visited) &&
    (target.Some? && target.value in visited ==> target.value in queue)
  }

  /** `SearchInv` while the links of `current`, taken off the queue, are being walked. */
  ghost predicate Scanning(m: map<Room, seq<Room>>, spawn: Room, target: Option<Room>, current: Room,
                           visited: set<Room>, done: set<Room>, queue: seq<Room>)
  {
    spawn in visited && current in visited && done <= visited && visited <= m.Keys &&
    (forall v :: v in visited ==> LinkReachable(m, spawn, v)) &&
    (forall i :: 0 <= i < |queue| ==> queue[i] in visited) &&
    (forall v :: v in visited ==> v in done || v in queue || v == current) &&
    (forall v, c :: v in done && c in m[v] ==> c in visited) &&
    (target.Some? && target.value in visited ==> target.value in queue)
  }

  /** Taking a room other than the target off the queue starts its scan. */
  lemma ScanStart(m: map<Room, seq<Room>>, spawn: Room, target: Option<Room>, current: Room,
                  visited: set<Room>, done: set<Room>, queue: seq<Room>)
    requires SearchInv(m, spawn, target, visited, done, [current] + queue) && Some(current) != target
    ensures Scanning(m, spawn, target, current, visited, done, queue)
  {
    assert ([current] + queue)[0] == current;
    forall i | 0 <= i < |queue|
      ensures queue[i] in visited
    {
      assert ([current] + queue)[i + 1] == queue[i];
    }
    forall v | v in visited
      ensures v in done || v in queue || v == current
    {
      if v !in done {
        var i :| 0 <= i < |[current] + queue| && ([current] + queue)[i] == v;
        if i > 0 {
          assert queue[i - 1] == v;
        }
      }
    }
  }

  /** Visiting and queueing a room reached from `spawn` keeps the scan going. */
  lemma ScanVisit(m: map<Room, seq<Room>>, spawn: Room, target: Option<Room>, current: Room,
                  visited: set<Room>, done: set<Room>, queue: seq<Room>, c: Room)
    requires Scanning(m, spawn, target, current, visited, done, queue)
    requires c in m && LinkReachable(m, spawn, c)
    ensures Scanning(m, spawn, target, current, visited + {c}, done, queue + [c])
  {
    assert (queue + [c])[|queue|] == c;
    forall i | 0 <= i < |queue|
      ensures (queue + [c])[i] in visited + {c}
    {
      assert (queue + [c])[i] == queue[i];
    }
  }

  /** Once every link of `current` is visited, `current` is expanded. */
  lemma ScanEnd(m: map<Room, seq<Room>>, spawn: Room, target: Option<Room>, current: Room,
                visited: set<Room>, done: set<Room>, queue: seq<Room>)
    requires Scanning(m, spawn, target, current, visited, done, queue)
    requires current in m && forall c :: c in m[current] ==> c in visited
    ensures SearchInv(m, spawn, target, visited, done + {current}, queue)
  {
  }

  /**
   * The links of `current`, just taken off the queue, walked in order: a
   * room not yet visited is visited and queued. Afterwards `current` is
   * expanded; either nothing was added or more of `m` is visited.
   */
  method VisitLinks(current: Room, ghost m: map<Room, seq<Room>>, ghost spawn: Room, ghost target: Option<Room>,
                    visited0: set<Room>, ghost done: set<Room>, queue0: seq<Room>)
    returns (visited: set<Room>, queue: seq<Room>)
    requires Closed(m) && current in m && m[current] == current.connections
    requires Scanning(m, spawn, target, current, visited0, done, queue0)
    ensures SearchInv(m, spawn, target, visited, done + {current}, queue)
    ensures (visited == visited0 && queue == queue0) || |m.Keys - visited| < |m.Keys - visited0|
  {
    visited, queue := visited0, queue0;
    var conns := current.connections;
    for j := 0 to |conns|
      invariant Scanning(m, spawn, target, current, visited, done, queue)
      invariant forall i :: 0 <= i < j ==> conns[i] in visited
      invariant (visited == visited0 && queue == queue0) || |m.Keys - visited| < |m.Keys - visited0|
    {
      assert conns[j] in m[current];
      visited, queue := VisitOne(conns[j], current, m, spawn, target, visited, done, queue);
    }
    ScanEnd(m, spawn, target, current, visited, done, queue);
  }

  /** One link `c` of `current`: visited and queued unless it was visited before. */
  method VisitOne(c: Room, ghost current: Room, ghost m: map<Room, seq<Room>>, ghost spawn: Room,
                  ghost target: Option<Room>, visited0: set<Room>, ghost done: set<Room>, queue0: seq<Room>)
    returns (visited: set<Room>, queue: seq<Room>)
    requires Closed(m) && current in m && c in m[current]
    requires Scanning(m, spawn, target, current, visited0, done, queue0)
    ensures Scanning(m, spawn, target, current, visited, done, queue)
    ensures c in visited && visited0 <= visited
    ensures (visited == visited0 && queue == queue0) || |m.Keys - visited| < |m.Keys - visited0|
  {
    visited, queue := visited0, queue0;
    if c !in visited {
      ReachStep(m, spawn, current, c);
      ScanVisit(m, spawn, target, current, visited, done, queue, c);
      assert m.Keys - (visited + {c}) == (m.Keys - visited) - {c};
      visited := visited + {c};
      queue := queue + [c];
    }
  }

  /**
   * The breadth-first search from `spawn` over links, stopping when it
   * takes `target` off the queue. It finds the target exactly when the
   * target is reached from `spawn`; without a target, or when it does not
   * find it, it visits exactly the rooms reached from `spawn`.
   */
  method SearchLinks(spawn: Room, target: Option<Room>, ghost world: set<Room>)
    returns (visited: set<Room>, found: bool)
    requires spawn in world && Closed(LinksOf(world))
    ensures found <==> target.Some? && LinkReachable(LinksOf(world), spawn, target.value)
    ensures !found ==> forall r :: r in visited <==> LinkReachable(LinksOf(world), spawn, r)
  {
    ghost var m := LinksOf(world);
    ReachSelf(m, spawn);
    visited := {spawn};
    var queue := [spawn];
    ghost var done: set<Room> := {};
    while queue != []
      invariant SearchInv(m, spawn, target, visited, done, queue)
      decreases |m.Keys - visited|, |queue|
    {
      var current := queue[0];
      assert queue == [current] + queue[1..];
      if target == Some(current) {
        return visited, true;
      }
      ScanStart(m, spawn, target, current, visited, done, queue[1..]);
      visited, queue := VisitLinks(current, m, spawn, target, visited, done, queue[1..]);
      done := done + {current};
    }
    forall r | LinkReachable(m, spawn, r)
      ensures r in visited
    {
      var p :| LinkPath(m, p) && p[0] == spawn && p[|p| - 1] == r;
      ClosedHoldsPath(m, spawn, visited, p);
    }
    found := false;
  }

  /**
   * `is_room_connected_to_spawn`: true without a spawn room or when `room`
   * is the spawn room, and otherwise exactly when `room` is reached from
   * the spawn room through links.
   */
  method IsConnectedToSpawn(room: Room, spawn: Option<Room>, ghost world: set<Room>) returns (connected: bool)
    requires spawn.Some? ==> spawn.value in world
    requires Closed(LinksOf(world))
    ensures connected <==> spawn.None? || LinkReachable(LinksOf(world), spawn.value, room)
  {
    if spawn.None? {
      return true;
    }
    if room == spawn.value {
      ReachSelf(LinksOf(world), room);
      return true;
    }
    var _, found := SearchLinks(spawn.value, Some(room), world);
    connected := found;
  }

  /**
   * `find_reachable_rooms_from_spawn`: the empty set when no room of the
   * list is a spawn room, and otherwise exactly the rooms reached through
   * links from the first spawn room of the list.
   */
  method ReachableFromSpawn(rooms: seq<Room>, ghost world: set<Room>) returns (reached: set<Room>)
    requires forall i :: 0 <= i < |rooms| ==> rooms[i] in world
    requires Closed(LinksOf(world))
    ensures FirstSpawn(rooms).None? ==> reached == {}
    ensures FirstSpawn(rooms).Some? ==>
      forall r :: r in reached <==> LinkReachable(LinksOf(world), FirstSpawn(rooms).value, r)
  {
    var k := FindSpawn(rooms);
    if k.None? {
      return {};
    }
    var found;
    reached, found := SearchLinks(rooms[k.value], None, world);
  }
}
