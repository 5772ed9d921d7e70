/**
 * Special items: once every role is final, each chest room gets a 2x2
 * chest and the boss room a 2x2 hole, stamped at the middle of the room's
 * floor. The chest is unlocked (3) in the unlocked chest room and locked
 * (4) in every other chest room; the hole is 5.
 */
module Items {
  import opened Tiles
  import opened Rooms

  /** The tile an item block of a room with this role holds; 0 for roles that get no item. */
  function ItemCode(t: RoomType): int {
    if t == ChestUnlocked then CHEST_UNLOCKED
    else if t.IsChest() then CHEST_LOCKED
    else if t == Boss then HOLE
    else 0
  }

  predicate HasItem(t: RoomType) {
    t.IsChest() || t == Boss
  }

  /**
   * Top-left tile of the 2x2 block of a room: the floor starts one tile in
   * from the rectangle and is two tiles narrower; the block starts one tile
   * before the floor's middle.
   */
  function BlockOrigin(r: Rect): Cell {
    var floorX := r.x / TILE_SIZE + 1;
    var floorY := r.y / TILE_SIZE + 1;
    var floorW := r.w / TILE_SIZE - 2;
    var floorH := r.h / TILE_SIZE - 2;
    (floorX + floorW / 2 - 1, floorY + floorH / 2 - 1)
  }

  /** `c` is one of the four tiles of the block at `o` that lie on a `w` x `h` grid. */
  predicate InBlock(o: Cell, w: int, h: int, c: Cell) {
    o.0 <= c.0 <= o.0 + 1 && o.1 <= c.1 <= o.1 + 1 && 0 <= c.0 < w && 0 <= c.1 < h
  }

  /** A room as the item pass sees it: its rectangle and its final role. */
  type Stamp = (Rect, RoomType)

  function Stamps(rooms: seq<Room>): (s: seq<Stamp>)
    reads rooms
    ensures |s| == |rooms|
    ensures forall i :: 0 <= i < |rooms| ==> s[i] == (rooms[i].rect, rooms[i].roomType)
  {
    seq(|rooms|, i requires 0 <= i < |rooms| reads rooms => (rooms[i].rect, rooms[i].roomType))
  }

  /** The tile at `c`, holding `v` before, after the rooms of `s` are stamped in list order. */
  function ItemTile(s: seq<Stamp>, w: int, h: int, c: Cell, v: int): int {
    if s == [] then v
    else
      var last := s[|s| - 1];
      if HasItem(last.1) && InBlock(BlockOrigin(last.0), w, h, c) then ItemCode(last.1)
      else ItemTile(s[..|s| - 1], w, h, c, v)
  }

  /** Stamps one room's block, if its role has an item; every other tile keeps its value. */
  method StampRoom(room: Room, g: array2<int>)
    modifies g
    ensures forall y, x :: 0 <= y < g.Length0 && 0 <= x < g.Length1 ==>
      g[y, x] == if HasItem(room.roomType) && InBlock(BlockOrigin(room.rect), g.Length1, g.Length0, (x, y))
                 then ItemCode(room.roomType) else old(g[y, x])
  {
    if !HasItem(room.roomType) {
      return;
    }
    var code := ItemCode(room.roomType);
    var o := BlockOrigin(room.rect);
    for dy := 0 to 2
      invariant forall y, x :: 0 <= y < g.Length0 && 0 <= x < g.Length1 ==>
        g[y, x] == if InBlock(o, g.Length1, g.Length0, (x, y)) && y < o.1 + dy then code else old(g[y, x])
    {
      for dx := 0 to 2
        invariant forall y, x :: 0 <= y < g.Length0 && 0 <= x < g.Length1 ==>
          g[y, x] == if InBlock(o, g.Length1, g.Length0, (x, y)) && (y < o.1 + dy || (y == o.1 + dy && x < o.0 + dx))
                     then code else old(g[y, x])
      {
        var cx, cy := o.0 + dx, o.1 + dy;
        if 0 <= cx < g.Length1 && 0 <= cy < g.Length0 {
          g[cy, cx] := code;
        }
      }
    }
  }

  /**
   * `place_special_room_items`: stamps every room's block in list order, so
   * where two blocks overlap the later room's item is what remains.
   */
  method PlaceSpecialRoomItems(rooms: seq<Room>, g: array2<int>)
    modifies g
    ensures forall y, x :: 0 <= y < g.Length0 && 0 <= x < g.Length1 ==>
      g[y, x] == ItemTile(Stamps(rooms), g.Length1, g.Length0, (x, y), old(g[y, x]))
  {
    for i := 0 to |rooms|
      invariant forall y, x :: 0 <= y < g.Length0 && 0 <= x < g.Length1 ==>
        g[y, x] == ItemTile(Stamps(rooms[..i]), g.Length1, g.Length0, (x, y), old(g[y, x]))
    {
      assert Stamps(rooms[..i + 1])[..i] == Stamps(rooms[..i]);
      StampRoom(rooms[i], g);
    }
    assert rooms[..|rooms|] == rooms;
  }

  /** A tile outside every item-bearing room's block keeps its value. */
  lemma {:induction false} ItemTileOutside(s: seq<Stamp>, w: int, h: int, c: Cell, v: int)
    requires forall i :: 0 <= i < |s| && HasItem(s[i].1) ==> !InBlock(BlockOrigin(s[i].0), w, h, c)
    ensures ItemTile(s, w, h, c, v) == v
  {
    if s != [] {
      ItemTileOutside(s[..|s| - 1], w, h, c, v);
    }
  }

  /**
   * A tile of room `i`'s block that no later item-bearing room covers holds
   * room `i`'s item: 3 for the unlocked chest, 4 for a locked one, 5 for the
   * boss.
   */
  lemma {:induction false} ItemTileOwnBlock(s: seq<Stamp>, w: int, h: int, c: Cell, v: int, i: nat)
    requires i < |s| && HasItem(s[i].1) && InBlock(BlockOrigin(s[i].0), w, h, c)
    requires forall j :: i < j < |s| && HasItem(s[j].1) ==> !InBlock(BlockOrigin(s[j].0), w, h, c)
    ensures ItemTile(s, w, h, c, v) == ItemCode(s[i].1)
    ensures s[i].1 == ChestUnlocked ==> ItemTile(s, w, h, c, v) == CHEST_UNLOCKED
    ensures s[i].1 == ChestLocked ==> ItemTile(s, w, h, c, v) == CHEST_LOCKED
    ensures s[i].1 == Boss ==> ItemTile(s, w, h, c, v) == HOLE
    decreases |s|
  {
    if i < |s| - 1 {
      ItemTileOwnBlock(s[..|s| - 1], w, h, c, v, i);
    }
  }

  /** Every stamped tile holds one of the three item codes; nothing else is ever written. */
  lemma {:induction false} ItemTileCodes(s: seq<Stamp>, w: int, h: int, c: Cell, v: int)
    ensures ItemTile(s, w, h, c, v) in {v, CHEST_UNLOCKED, CHEST_LOCKED, HOLE}
  {
    if s != [] {
      ItemTileCodes(s[..|s| - 1], w, h, c, v);
    }
  }

  /** Stamping the same rooms twice leaves the tilemap as stamping once did. */
  lemma {:induction false} ItemTileIdempotent(s: seq<Stamp>, w: int, h: int, c: Cell, v: int)
    ensures ItemTile(s, w, h, c, ItemTile(s, w, h, c, v)) == ItemTile(s, w, h, c, v)
  {
    if s != [] {
      ItemTileIdempotent(s[..|s| - 1], w, h, c, v);
    }
  }
}
