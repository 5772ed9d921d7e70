/**
 * The underground room reached through a boss room's hole: a 40 x 30 tile
 * room with a wall ring around an open floor and no exit.
 */
module HoleRoomScene {
  import opened Tiles

  /** The perimeter-wall / interior-floor rule for a `w` x `h` room. */
  predicate OnPerimeter(w: int, h: int, x: int, y: int) {
    x == 0 || x == w - 1 || y == 0 || y == h - 1
  }

  class HoleRoom {
    const tileSize: int
    const roomWidth: int
    const roomHeight: int
    const worldWidth: int
    const worldHeight: int
    /** Rows of tiles, `tilemap[y][x]`. */
    var tilemap: seq<seq<int>>
    var spawnX: int
    var spawnY: int

    /**
     * A 40 x 30 room spanning 40 and 30 tiles of the given size, whose
     * tilemap is the wall ring around a floor, with the player's spawn at the
     * tile in the middle (20, 15), which is a floor tile.
     */
    constructor (tileSize: int)
      ensures this.tileSize == tileSize
      ensures roomWidth == 40 && roomHeight == 30
      ensures worldWidth == 40 * tileSize && worldHeight == 30 * tileSize
      ensures |tilemap| == 30 && forall y :: 0 <= y < 30 ==> |tilemap[y]| == 40
      ensures forall y, x :: 0 <= y < 30 && 0 <= x < 40 ==>
                tilemap[y][x] == if OnPerimeter(40, 30, x, y) then WALL else FLOOR
      ensures spawnX == 20 * tileSize && spawnY == 15 * tileSize
      ensures tileSize > 0 ==> !OnPerimeter(40, 30, spawnX / tileSize, spawnY / tileSize)
      ensures tileSize > 0 ==> tilemap[spawnY / tileSize][spawnX / tileSize] == FLOOR
    {
      this.tileSize := tileSize;
      roomWidth := 40;
      roomHeight := 30;
      worldWidth := 40 * tileSize;
      worldHeight := 30 * tileSize;
      new;
      tilemap := CreateHoleRoomTilemap();
      spawnX := (roomWidth / 2) * tileSize;
      spawnY := (roomHeight / 2) * tileSize;
      if tileSize > 0 {
        assert spawnX / tileSize == 20 && spawnY / tileSize == 15;
      }
    }

    /** Builds the rows one tile at a time: wall on the perimeter, floor inside. */
    method CreateHoleRoomTilemap() returns (t: seq<seq<int>>)
      requires roomWidth >= 0 && roomHeight >= 0
      ensures |t| == roomHeight
      ensures forall y :: 0 <= y < roomHeight ==> |t[y]| == roomWidth
      ensures forall y, x :: 0 <= y < roomHeight && 0 <= x < roomWidth ==>
                t[y][x] == if OnPerimeter(roomWidth, roomHeight, x, y) then WALL else FLOOR
    {
      t := [];
      var y := 0;
      while y < roomHeight
        invariant 0 <= y <= roomHeight && |t| == y
        invariant forall j :: 0 <= j < y ==> |t[j]| == roomWidth
        invariant forall j, x :: 0 <= j < y && 0 <= x < roomWidth ==>
                    t[j][x] == if OnPerimeter(roomWidth, roomHeight, x, j) then WALL else FLOOR
      {
        var row: seq<int> := [];
        var x := 0;
        while x < roomWidth
          invariant 0 <= x <= roomWidth && |row| == x
          invariant forall i :: 0 <= i < x ==>
                      row[i] == if OnPerimeter(roomWidth, roomHeight, i, y) then WALL else FLOOR
        {
          if x == 0 || x == roomWidth - 1 || y == 0 || y == roomHeight - 1 {
            row := row + [WALL];
          } else {
            row := row + [FLOOR];
          }
          x := x + 1;
        }
        t := t + [row];
        y := y + 1;
      }
    }

    /** The room has no exit: touching anything never leaves it. */
    method CheckExitCollision(playerRect: Rect) returns (r: bool)
      ensures !r
    {
      r := false;
    }
  }
}
