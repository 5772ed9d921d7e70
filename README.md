# gameCode world generator — a Dafny model

This project models the procedural world of gameCode, a top-down dungeon game.

The world is a tilemap of 160 x 130 tiles, each 40 pixels square:
- tile codes are floor 0, wall 1, door 2, unlocked chest 3, locked chest 4 and hole 5;
- the rooms sit on a lattice whose slots are 20 tiles apart;
- each room is a 14 x 14 floor inside a one-tile wall.

A world is made in these steps:

1. **Roles.** `generate_grid_rooms` creates the rooms and assigns them roles:
   - the first room is the spawn room;
   - it picks the boss room, one unlocked and two locked chest rooms, and the shop room;
   - the candidates are rooms that can connect and are not corner rooms, ranked by hallway distance from spawn;
   - any role still missing is forced onto a normal room.
2. **Hallways.** `connect_rooms` carves 2-tile-wide hallways with 2-tile doors and records each link in both rooms' `connections`:
   - phase 1 builds a spanning tree over the normal rooms;
   - phase 1.5 forces the stragglers in and deletes those it cannot place;
   - the repair pass `ensure_all_special_rooms_connected` moves dead-end rooms that cannot reach spawn onto reachable normal rooms;
   - phase 2 links each dead-end room (boss, shop, chests) to one qualifying neighbour, if there is one (at most one hallway);
   - item tiles are then stamped into the special rooms.
3. **Validation.** `validate_world` checks the role counts, the dead-end rule, the spawn room's links, and that every room has a floor tile reachable from spawn through floor and door tiles.
   - `generate_valid_world` retries until a world is accepted; it gives up at the first attempt numbered 100 or more that built rooms.

Alongside the generator, the model covers:
- the underground hole room scene;
- the spatial hash used for collision queries;
- the hallway flood fill `discover_hallway_network`;
- the connectivity helpers of the generator.

Modelling choices:
- Rooms are a class whose fields the generator updates in place.
- The tilemap is an `array2<int>` indexed `[y, x]`.
- Each carver's and stamper's postcondition gives every cell of the new tilemap as a function of the old one.
- The link passes are specified against value snapshots of the rooms' link lists, and prove:
  - the lists stay symmetric and without duplicates;
  - there are two entries per hallway;
  - each dead-end room ends with at most one link;
  - only an unlocked chest room may link directly to spawn.
- The breadth- and depth-first searches are proved to compute exactly the reachability relation they search.

## Model

| member | source | states |
|---|---|---|
| Rooms.Room.constructor | data/room.py:4-10 | the rectangle is exactly (x, y, w, h); the role is the given one, "normal" by default; not revealed, not a dead end, no connections |
| HoleRoomScene.HoleRoom.constructor | scenes/hole_room.py:6-20 | the room is 40 x 30 tiles and 40·ts x 30·ts pixels; a tile is wall exactly on the perimeter and floor elsewhere; the spawn point (20·ts, 15·ts) lies on an interior floor tile |
| HoleRoomScene.HoleRoom.CreateHoleRoomTilemap | scenes/hole_room.py:22-37 | the map is roomHeight rows of roomWidth tiles, with wall exactly on the border and floor inside |
| HoleRoomScene.HoleRoom.CheckExitCollision | scenes/hole_room.py:39-41 | the hole room has no exit: the answer is always false |
| SpatialIndex.FloorDiv | utils/spatial_grid.py:19-22 | Python's floor division: the quotient brackets a between b·q and b·q + b for either sign of b |
| SpatialIndex.SpatialGrid.constructor | utils/spatial_grid.py:8-10 | the cell size is the one given (64 by default) and every bucket is empty |
| SpatialIndex.SpatialGrid.Clear | utils/spatial_grid.py:12-14 | the grid holds no keys and every bucket reads empty |
| SpatialIndex.SpatialGrid.Insert | utils/spatial_grid.py:16-27 | a cell size of 0 raises `ZeroDivisionError` and changes nothing; otherwise exactly the cells the rectangle touches gain the object at the end of their bucket, every other bucket is unchanged, and the key set grows by exactly the touched cells |
| SpatialIndex.SpatialGrid.GetNearbyObjects | utils/spatial_grid.py:29-51 | a cell size of 0 raises `ZeroDivisionError` and changes nothing; otherwise the result is exactly the union of the buckets of the cells the padded rectangle touches, no bucket's contents change, and reading through the default dictionary adds exactly those cells as (empty) keys |
| SpatialIndex.SpatialGrid.SweepColumn | utils/spatial_grid.py:47-49 | one column of the cell sweep collects exactly the objects of that column's cells and touches no bucket's contents |
| SpatialIndex.CollectedAll | utils/spatial_grid.py:40-49 | the completed column-by-column sweep has collected exactly the objects of the cells the rectangle covers |
| SpatialIndex.SpatialGrid.BuildFromSpriteGroup | utils/spatial_grid.py:53-57 | with a cell size of 0 the first insertion raises `ZeroDivisionError` and the grid is left empty; otherwise, after clearing and inserting the sprites in order, every bucket holds the sprites touching that cell, in insertion order |
| SpatialIndex.InsertedAtHolds | utils/spatial_grid.py:53-57 | an object is in a cell's bucket iff one of the inserted sprites carrying it touches that cell |
| SpatialIndex.InsertedIsNearby | utils/spatial_grid.py:16-43 | a rectangle touches the cell of its top-left corner, and padding a query only adds cells, so an inserted object is found by a query with its own rectangle |
| Tiles.Neighbors | main.py:260 | four neighbours, and d is among them iff d is edge-adjacent to c |
| Hallways.CarveRun | utils/room_generator.py:1672-1675 | exactly the tiles of the 2-wide run whose step lies on the grid become floor; all other tiles keep their value |
| Hallways.PlaceDoorGuarded | utils/room_generator.py:727-747 | the two door tiles become doors only when both are on the grid; nothing else changes |
| Hallways.PlaceDoorUnguarded | utils/room_generator.py:1703-1708 | the door raises IndexError iff its first tile is on the grid and its second is not; the first tile is written whenever it is on the grid; nothing else changes |
| Hallways.DirectPlanOf | utils/room_generator.py:1640-1773 | there is no plan iff the centres are not aligned on a row or a column; otherwise the doors sit on the first room's centre lane and the run spans exactly the tiles between the two doors |
| Hallways.CreateDirectHallway | utils/room_generator.py:1636-1776 | unaligned rooms are rejected with the tilemap untouched; otherwise every tile is the planned door, run or old value, and the outcome is IndexError iff a door's second tile is off the grid |
| Hallways.DirectDoorsOffRun | utils/room_generator.py:1664-1665 | no door tile of a straight corridor lies on its run |
| Hallways.CreateLShapedHallway | utils/room_generator.py:642-747 | every tile is a door of the L-shape, a tile of its horizontal or vertical leg, or its old value; all writes are guarded, so the carve never raises |
| Hallways.CreateStraightHallway | utils/room_generator.py:603-640 | rooms more than 3 slots apart are rejected and the tilemap is unchanged; at distance 1 the direct carver runs (an unaligned pair is still reported as carved); at 0, 2 or 3 the L-shape is carved |
| Hallways.LatticeNeighboursAligned | utils/room_generator.py:603-640 | two rooms one lattice slot apart are aligned and 20 tiles apart, so the direct carver never rejects them |
| Lattice.RoomGridOfIsRoomGrid | utils/room_generator.py:182-187 | inserting the rooms in list order leaves each occupied slot mapped to the last room in it, and only occupied slots are keys |
| Lattice.RoomGridUnique | utils/room_generator.py:182-187 | the room grid of a list of slots is unique |
| Lattice.BuildRoomGrid | utils/room_generator.py:182-187 | the loop builds exactly that room grid |
| Lattice.PlaceAll | utils/room_generator.py:1307-1310 | writing every room over an existing grid leaves each room's slot holding its last room, and every other key as it was |
| Lattice.OccupiedRooms | utils/room_generator.py:1004-1006 | the rooms held in the given slots, and none iff no slot is occupied |
| Lattice.LatticeEdges | utils/room_generator.py:257-260 | an edge of the lattice graph joins rooms in neighbouring slots and ends at the room that owns its slot |
| Lattice.LatticeWellFormed | utils/room_generator.py:257-260 | the lattice neighbours of every room are rooms of the list |
| Lattice.CanConnectToNormalOrSpawn | utils/room_generator.py:189-221 | true iff the slot has a normal or spawn neighbour, and a spawn neighbour is allowed only when the room is meant to be the unlocked chest |
| Lattice.AdjacentCount | utils/room_generator.py:223-238 | the number of occupied neighbouring slots, at most 4, and 0 iff none is occupied |
| Lattice.IsCornerRoom | utils/room_generator.py:223-238 | corner iff at most two neighbouring slots are occupied |
| Lattice.ScanNeighbours | utils/room_generator.py:256-267 | when the target is met its hop distance is one more than the current room's; otherwise the breadth-first invariant is kept and the search progresses |
| Lattice.HallwayDistanceFromSpawn | utils/room_generator.py:240-269 | the result is the true hop distance from the spawn room over the lattice graph, or infinity when the room is unreachable |
| Lattice.Degree | utils/room_generator.py:1580-1584 | a room has at most four lattice neighbours |
| Lattice.FirstUnconnectedNeighbour | utils/room_generator.py:1549-1556 | a returned room is an unconnected lattice neighbour; none is returned only when no neighbour is unconnected |
| Lattice.ConnectPass | utils/room_generator.py:1539-1564 | every connected room is reachable from the first room; a pass that finds nothing proves the connected set closed, and otherwise it grows by exactly one room |
| Lattice.ConnectFound | utils/room_generator.py:1549-1556 | an unconnected neighbour of a connected room is reachable, and adding it shrinks the unconnected set by exactly that room |
| Lattice.CountDegreeZero | utils/room_generator.py:1571-1589 | the count of rooms with degree in a range is zero iff no room's degree is in it |
| Lattice.CountDegreePartition | utils/room_generator.py:1571-1589 | isolated, corner (1-2) and inner (3-4) rooms add up to all rooms |
| Lattice.CountRoomKinds | utils/room_generator.py:1571-1589 | the loop counts the isolated rooms and the corner rooms |
| Lattice.SpanFromFirstRoom | utils/room_generator.py:1530-1569 | no room is left unconnected iff every room is reachable from the first over the lattice |
| Lattice.TestConnectivity | utils/room_generator.py:1517-1605 | passes iff there are fewer than two positions, or every room is reachable from the first, none is isolated and at least five have 3 or 4 neighbours |
| TileSearch.ExpandedIsReach | main.py:251-274 | a closed visited set containing the start, and containing only reachable tiles, is exactly the set of tiles reachable from the start |
| TileSearch.FloodStep | main.py:262-274 | one dequeued tile keeps the search invariant and either shrinks the unvisited tiles or shortens the queue |
| TileSearch.FloodFrom | main.py:251-274 | a tile is visited iff it is reachable from the start through floor and door tiles on the grid |
| TileSearch.SearchStep | utils/room_generator.py:1153-1176 | a dequeued tile that is not a target floor tile leaves every visited target tile still queued |
| TileSearch.SearchFloor | utils/room_generator.py:1146-1178 | true iff some floor tile of the target room's 14 x 14 floor is reachable from the spawn centre |
| TileSearch.InsideAnyRoom | main.py:598-604 | true iff some room's floor, converted to tiles by `rect.left // TILE_SIZE` up to `rect.right // TILE_SIZE` (and likewise down), contains the tile |
| TileSearch.PopRejected | main.py:589-596 | dropping a tile that is already in the network, or not open, keeps the flood invariant |
| TileSearch.PopAccepted | main.py:606-613 | adding an open tile to the network and pushing its four neighbours keeps the flood invariant |
| TileSearch.DiscoverHallwayNetwork | main.py:582-615 | a tile is in the network iff the start is open and the tile is reachable from it through open tiles: on the grid, floor or door, and outside the tile rectangle of every room |
| Validator.RoleVerdict | main.py:202-220 | Valid iff there are exactly one spawn, one boss, one shop, one unlocked chest and two locked chest rooms; the spawn verdict iff the spawn count is wrong; each other verdict only when its own count is wrong |
| Validator.CheckDeadEnds | main.py:222-238 | passes iff every boss, shop and chest room has exactly one connection and the spawn room at least one |
| Validator.CheckSpawnLinks | main.py:240-249 | passes iff the spawn room links only to normal and unlocked chest rooms |
| Validator.FloorTileReached | main.py:285-296 | given the flood from the spawn centre, true iff some floor tile of the room's 14 x 14 floor is reachable |
| Validator.CheckAllReached | main.py:276-304 | passes iff every room other than spawn has a floor tile reachable from the spawn centre |
| Validator.ValidFromSpawnChecks | main.py:240-307 | once the counts and the dead-end rule hold, the world is valid iff the spawn room's links and the tile reachability checks pass |
| Validator.ValidateWorld | main.py:194-307 | Valid iff the world meets every requirement; "no rooms" iff the list is empty; "too few" iff it is non-empty and shorter than 16; each later verdict only when its check fails |
| Validator.ValidateLinks | main.py:222-307 | with the counts right: Valid iff the world is valid; the dead-end verdict iff the dead-end rule fails; the spawn-link and reachability verdicts only when those checks fail |
| Validator.CheckSpawnRoom | main.py:240-307 | Valid iff the spawn room's links and the reachability check pass; the spawn-link verdict iff the links fail |
| Validator.IsValidWorld | main.py:332 | the flag is true iff the attempt's world is accepted by the validator |
| Validator.CopyTilemap | main.py:336-338 | every cell of the destination equals the same cell of the source |
| Validator.RunAttempts | main.py:311-350 | the retry loop ends exactly as the reference function `RetryOutcome` of the attempts says |
| Validator.GenerateValidWorld | main.py:309-350 | a published world is a cell-for-cell copy of the accepted attempt's tilemap; when nothing is published the global tilemap is unchanged |
| Validator.RetryPublishes | main.py:311-340 | a published world comes from the first accepted attempt, whose rooms are returned |
| Validator.RetryGivesUp | main.py:324-350 | giving up happens at an attempt numbered 100 or more that built rooms, when no attempt was accepted; because an attempt that built no rooms skips the cap check, every attempt from the 100th up to that one built no rooms |
| Validator.RetryRunsOut | main.py:313-350 | the supplied attempts run out iff none is accepted and every attempt from the 100th on built no rooms |
| Connect.CarveAndLink | utils/room_generator.py:824-834 | the carve is rejected iff the rooms are more than 3 slots apart; a carved hallway links the two rooms both ways; otherwise no link changes |
| Connect.ScanConnected | utils/room_generator.py:814-836 | a bridge joins the waiting room to a linked room that is one slot away and not saturated, and adds exactly that link pair; no bridge means no link changed; the search is complete: it ends with no hallway only when every unsaturated linked room one slot away is more than three lattice steps away, so its hallway is refused (`NoPartner`) |
| Connect.FindBridge | utils/room_generator.py:843-869 | a returned pair is a waiting non-dead-end room and an unsaturated linked room one slot away in line; none is returned only when no such pair exists |
| Connect.ScanWaiting | utils/room_generator.py:805-836 | phase 1's invariant is kept; a dead-end room is dropped from the waiting set and nothing else changes; otherwise a bridge moves the waiting room into the linked set and adds one hallway and its link pair; no hallway leaves the state unchanged and means the room has no partner (`NoPartner`) |
| Connect.Strategy1 | utils/room_generator.py:804-836 | phase 1's invariant is kept; the waiting set only shrinks; a bridge moves one waiting non-dead-end room over to an unsaturated neighbour one slot away, with exactly its link pair added; with no hallway, the rooms still waiting are exactly the old waiting rooms that are not dead ends, and none of them has a partner (`Sifted`) |
| Connect.JoinWaiting | utils/room_generator.py:871-885 | rejected iff the rooms are more than 3 slots apart; a carved hallway moves the room across and adds exactly its link pair; otherwise nothing changes |
| Connect.Strategy2 | utils/room_generator.py:838-886 | phase 1's invariant is kept unless a hallway raised IndexError |
| Connect.SpanPass | utils/room_generator.py:800-886 | phase 1's invariant is kept across the bounded passes, unless a hallway raised IndexError |
| Connect.SpanningPhase | utils/room_generator.py:787-886 | starting from rooms without links, phase 1's invariant holds at the end: the spawn room is linked, the links are symmetric, there are two entries per hallway, and dead-end rooms have no links |
| Connect.FindClosest | utils/room_generator.py:904-917 | the room returned is linked, unsaturated and nearest by grid position; none is returned only when every linked room is saturated |
| Connect.ForceOne | utils/room_generator.py:898-933 | a forced link joins a room that is not a dead end to a linked room at most 120 grid units away, moves it across and adds exactly that link pair; otherwise nothing changes |
| Connect.ForceConnect | utils/room_generator.py:891-933 | phase 1's invariant is kept by the forced connections, unless a hallway raised IndexError |
| Connect.Stranded | utils/room_generator.py:941-942 | the rooms to delete are exactly the waiting rooms that are not dead ends |
| Connect.Survivors | utils/room_generator.py:936-962 | when at least 15 normal rooms are linked and some room still waits, the stranded rooms are deleted from the list; otherwise the list is kept |
| Connect.SurvivorsReady | utils/room_generator.py:935-967 | the surviving rooms are ready for the repair pass: links well formed, two entries per hallway, and no dead-end room linked except the spawn room, at most once |
| ConnectRooms.RectSlots | utils/room_generator.py:769-773 | the slot of every room comes from its rectangle, as `get_room_grid_pos` gives it |
| ConnectRooms.ResetLinks | utils/room_generator.py:765-767 | every room's connections are empty |
| ConnectRooms.SurvivorsFinishPhaseOne | utils/room_generator.py:935-967 | after phase 1.5 the rooms left are rooms of the list, ready for the repair pass, with the same first spawn room |
| ConnectRooms.LinkNormalRooms | utils/room_generator.py:787-967 | the survivors are rooms of the list, and all of them unless phase 1.5 ran; a completed run leaves them ready for the repair pass with the same first spawn room |
| ConnectRooms.RepairForPhaseTwo | utils/room_generator.py:984-994 | after the repair pass the spawn room is still spawn, the room slots are unchanged, the room grid is the old one or the old one updated with the rooms' own slots, and phase 2's invariant holds on the links |
| ConnectRooms.RepairAndLink | utils/room_generator.py:984-1051 | the spawn room stays a spawn room and the slots are unchanged; unless a hallway raised IndexError, phase 2's invariant holds at the end, every room is `Attempted` under the room grid phase 2 used (`PhaseTwoDone`), and the links after the repair pass are prefixes of the final links |
| ConnectRooms.FinishedFromPhaseTwo | utils/room_generator.py:986-1051 | phase 2's invariant means each dead-end room has at most one link, and a dead-end room linked to spawn is an unlocked chest room |
| ConnectRooms.StampItems | utils/room_generator.py:1053-1054 | placing the items touches only the tilemap: slots, dead-end flags, roles and links are unchanged |
| ConnectRooms.FinishRooms | utils/room_generator.py:984-1054 | either IndexError, or the rooms end well linked, with two entries per hallway, each dead-end room linked at most once, and only an unlocked chest linked directly to spawn; a completed run has every room `Attempted` under the room grid phase 2 used, which is the given grid or that grid updated with the rooms' slots |
| ConnectRooms.FinishSurvivors | utils/room_generator.py:968-1054 | the same for the rooms left after phase 1.5, whose room grid is rebuilt from their slots when rooms were deleted |
| ConnectRooms.ConnectFrom | utils/room_generator.py:787-1054 | a completed run returns rooms of the list, the spawn room among them and still spawn, finished as above, with every room `Attempted` under the room grid phase 2 used: the given one, that one updated with the rooms' slots, or the one rebuilt after deletions |
| ConnectRooms.ConnectAll | utils/room_generator.py:756-1056 | "too few" iff there are fewer than two rooms, and then the tilemap and every room are untouched; "no spawn" iff there are at least two rooms and none is spawn, and then every link list is empty while the tilemap, roles and dead-end flags are untouched; a completed run keeps the first spawn room and returns finished rooms with the hallways counted, every room `Attempted` by phase 2 under a room grid built from the rectangles, from the positions, or both |
| Links.Joined | utils/room_generator.py:827-828 | after linking a and b, a's list gains b, b's list gains a, and every other list is unchanged |
| Links.Link | utils/room_generator.py:827-828 | each room's connections gain the other at the end, and the rooms' lists become `Joined` of the old ones |
| Links.JoinedSymmetric | utils/room_generator.py:827-828 | linking keeps "x lists y as often as y lists x" |
| Links.JoinedWellLinked | utils/room_generator.py:827-828 | linking a room without links to another room keeps the lists symmetric, free of duplicates and self-links, and inside the room list |
| Links.JoinedAddsTwo | utils/room_generator.py:827-828 | one hallway adds exactly two entries to the lists |
| Links.Without | utils/room_generator.py:947-957 | the rooms left after deletion are exactly the rooms of the list not deleted |
| Links.WithoutEntries | utils/room_generator.py:947-957 | deleting rooms without links keeps the number of entries |
| Links.WithoutWellLinked | utils/room_generator.py:947-957 | deleting rooms without links keeps the lists well formed over the rooms left |
| Links.WithoutDistinct | utils/room_generator.py:947-957 | deleting rooms keeps the rooms distinct |
| LinkState.JoinKeepsLinks | utils/room_generator.py:824-834 | a hallway from a room without links keeps the lists well formed and adds two entries |
| LinkState.PhaseOneJoin | utils/room_generator.py:824-834 | the same step keeps all of phase 1's invariant, with one more hallway |
| LinkState.DropReady | utils/room_generator.py:947-962 | deleting any waiting rooms leaves the rest ready for the repair pass |
| LinkState.FirstSpawn | utils/room_generator.py:780-782 | the first spawn room is a spawn room of the list; there is none iff no room is spawn |
| LinkState.FirstSpawnAt | utils/room_generator.py:1120-1127 | the room at the first index holding a spawn room is the first spawn room |
| LinkState.FirstSpawnWithout | utils/room_generator.py:947-957 | deleting rooms that are not spawn keeps the first spawn room |
| LinkState.DropKeepsSpawn | utils/room_generator.py:935-967 | deleting waiting rooms keeps the first spawn room |
| PhaseTwo.AdjacentOf | utils/room_generator.py:1000-1017 | the normal list holds exactly the non-dead-end, non-spawn neighbours; the spawn list holds the non-dead-end spawn neighbours, and only for an unlocked chest |
| PhaseTwo.AdjacentOfStep | utils/room_generator.py:1004-1016 | scanning one more neighbouring slot appends that slot's room to the list its role and flag select |
| PhaseTwo.FirstFewest | utils/room_generator.py:1026 | the candidate with the fewest connections, the first one on ties |
| PhaseTwo.Choose | utils/room_generator.py:1019-1035 | the choice is a non-dead-end neighbour, and a spawn room only for an unlocked chest, which then prefers spawn; none iff no neighbour qualifies; a normal choice has the fewest connections among the normal candidates |
| PhaseTwo.ReadyPhaseTwo | utils/room_generator.py:986-994 | rooms ready after the repair pass satisfy phase 2's invariant |
| PhaseTwo.PhaseTwoJoin | utils/room_generator.py:1037-1044 | linking an unlinked dead-end room to a non-dead-end room (spawn only for an unlocked chest) keeps phase 2's invariant with one more hallway |
| PhaseTwo.Adjacent | utils/room_generator.py:1000-1017 | the loop computes `AdjacentOf` for the room's neighbouring slots |
| PhaseTwo.Fewest | utils/room_generator.py:1026 | the loop computes `FirstFewest` over the current connection counts |
| PhaseTwo.Pick | utils/room_generator.py:1000-1035 | the partner is `Choose` on the room's slot and role |
| PhaseTwo.JoinDeadEnd | utils/room_generator.py:1037-1051 | phase 2's invariant is kept; either one hallway and its link pair are added, or nothing changes; the step fails only by IndexError |
| PhaseTwo.LinkDeadEnd | utils/room_generator.py:990-1051 | a room that is not a dead end, or already linked, is skipped; otherwise the partner is `Choose`'s, and the hallway, if carved, adds exactly that link pair; phase 2's invariant is kept |
| PhaseTwo.DeadEndDealt | utils/room_generator.py:990-1051 | what one visit of phase 2's loop does makes the visited room `Attempted`: skipped because it is not a dead end or already linked, left without a candidate, linked, or refused by the hallway; the links after are the links before with entries appended |
| PhaseTwo.LinkDeadEndStep | utils/room_generator.py:990-1051 | one visit keeps the slots, flags and roles, keeps phase 2's invariant, only appends links, and extends `AttemptedUpTo` by the visited room |
| PhaseTwo.PhaseTwoDoneAll | utils/room_generator.py:988-1051 | `PhaseTwoDone` means that each room is `Attempted` under the final links |
| PhaseTwo.LinkDeadEnds | utils/room_generator.py:986-1051 | links are only appended and slots kept; unless a hallway raised IndexError, phase 2's invariant holds over all rooms and every room is `Attempted` (`PhaseTwoDone`): every dead-end room without links has no qualifying neighbour or was refused a hallway to one |
| Relocation.RemoveFirst | utils/room_generator.py:1286 | `list.remove`: one occurrence of x fewer, everything else kept |
| Relocation.RetargetAll | utils/room_generator.py:1283-1288 | the lists of the moved room's neighbours are retargeted, and the key set is kept |
| Relocation.UnlistAll | utils/room_generator.py:1290-1293 | the lists of the dead-end room's neighbours drop it, and the key set is kept |
| Relocation.Relocated | utils/room_generator.py:1262-1293 | the lists after a dead-end room moves onto a normal room, with the same key set |
| Relocation.RetargetAllForm | utils/room_generator.py:1283-1288 | for distinct neighbours, each neighbour's list is retargeted once and every other list is kept |
| Relocation.NeighboursOfMoved | utils/room_generator.py:1268-1288 | in well-formed lists the normal room's neighbours are other rooms of the list that list it back, each once |
| Relocation.RelocatedForm | utils/room_generator.py:1262-1293 | after the move the normal room has no links, the dead-end room takes over the normal room's list, and each former neighbour lists the dead-end room in place of the normal room |
| Relocation.RelocatedListed | utils/room_generator.py:1262-1293 | the exact link counts after the move, pair by pair |
| Relocation.RelocatedPair | utils/room_generator.py:1262-1293 | after the move every pair of rooms is linked symmetrically, at most once |
| Relocation.RelocatedWellLinked | utils/room_generator.py:1262-1293 | the move keeps the lists well formed: symmetric, without duplicates or self-links, inside the room list |
| Relocation.RelocatedEntries | utils/room_generator.py:1262-1293 | the move keeps the number of entries, and so the hallway count |
| Repair.FindSpawn | utils/room_generator.py:1120-1131 | the index of the first spawn room, or none iff there is no spawn room |
| Repair.CanReachSpawn | utils/room_generator.py:1133-1178 | true iff the room is the spawn room, or some floor tile of its floor is reachable from the spawn centre |
| Repair.FindDisconnected | utils/room_generator.py:1180-1193 | the list is increasing, and a room is in it iff it is a dead end that cannot reach spawn |
| Repair.Tally | utils/room_generator.py:1207-1221 | counts of normal and spawn neighbours, at most the number of slots, both zero iff no neighbour is normal or spawn |
| Repair.NeighbourTally | utils/room_generator.py:1207-1221 | the loop computes `Tally` for the room's neighbouring slots |
| Repair.OfferOf | utils/room_generator.py:1202-1238 | room i offers a position, of the kind its neighbours decide, exactly when the source's checks admit it |
| Repair.FindAvailable | utils/room_generator.py:1199-1240 | the offered positions in list order: each comes from a room that reaches spawn and offers it, and every offer is listed |
| Repair.FirstSuiting | utils/room_generator.py:1248-1257 | the first offered position that suits the role: "any special", or "unlocked chest only" for an unlocked chest; none iff no position suits |
| Repair.PlanAsWritten | utils/room_generator.py:1242-1304 | the relocation targets as the loop is written, with its early stop |
| Repair.AsWrittenStopsEarly | utils/room_generator.py:1249-1250 | with two disconnected dead-end rooms (boss, shop) and two "any special" positions, the loop as written moves only the boss, while the loop without the early stop moves both |
| Repair.Plan | utils/room_generator.py:1242-1304 | the relocation targets without the early stop, the reference for the intended behaviour |
| Repair.PlanPlacesAll | utils/room_generator.py:1242-1304 | when there are at least as many "any special" positions as disconnected rooms, every room gets a position |
| Repair.PlanUsesOffered | utils/room_generator.py:1242-1304 | every target is an offered position, and no position is used twice |
| Repair.AsWrittenStopped | utils/room_generator.py:1249-1250 | once the moves made reach the positions left, the loop as written moves no further room |
| Repair.AsWrittenAgrees | utils/room_generator.py:1242-1304 | every move the loop as written makes is the move the loop without the early stop makes for the same room |
| Repair.PlanAsWrittenUsesOffered | utils/room_generator.py:1242-1304 | the loop as written also moves rooms only onto offered positions, and onto no position twice |
| Repair.Relocate | utils/room_generator.py:1262-1293 | the normal room takes the dead-end room's role and flag, the dead-end room becomes normal and not a dead end, and the link lists become `Relocated` |
| Repair.RetargetLinks | utils/room_generator.py:1283-1288 | the loop leaves the lists as `RetargetAll` says |
| Repair.UnlistLinks | utils/room_generator.py:1290-1293 | the loop leaves the lists as `UnlistAll` says |
| Repair.RelocatedReady | utils/room_generator.py:1262-1293 | the move keeps readiness, with the dead-end flag moved from the old room to the new one |
| Repair.FindSpot | utils/room_generator.py:1248-1257 | the loop finds `FirstSuiting` |
| Repair.RelocateAt | utils/room_generator.py:1262-1293 | the roles and flags of the two rooms are swapped as the source does, and the link lists become `Relocated` |
| Repair.RelocateOne | utils/room_generator.py:1244-1303 | the target is `FirstSuiting`; readiness is kept and the spawn room stays spawn; without a target nothing changes, otherwise the roles and flags move to the target |
| Repair.MoveTo | utils/room_generator.py:1262-1299 | readiness is kept, the spawn room stays spawn, the target takes the role and the dead-end flag, and the moved room becomes normal |
| Repair.ProgressStep | utils/room_generator.py:1244-1303 | one handled dead-end room, moved or not, keeps the relocation loop's invariant |
| Repair.ProgressMoved | utils/room_generator.py:1259-1301 | a moved room keeps the loop invariant, with its position used up |
| Repair.ProgressKept | utils/room_generator.py:1303 | a room left in place keeps the loop invariant |
| Repair.RelocateAll | utils/room_generator.py:1242-1304 | the targets are exactly `PlanAsWritten` of the disconnected rooms' roles, early stop included; readiness is kept; the loop invariant describes every room's new role and flag |
| Repair.MovedReach | utils/room_generator.py:1242-1304 | after the loop, every dead-end room not on the disconnected list reaches spawn, and a disconnected room still holds its flag iff it was not moved |
| Repair.MoveDisconnected | utils/room_generator.py:1196-1304 | with the relocation loop as written: readiness is kept; every dead-end room left reaches spawn or is a disconnected room that found no position |
| Repair.RepairFrom | utils/room_generator.py:1180-1310 | readiness is kept; every dead-end room that cannot reach spawn is on the disconnected list and stays a dead end only if no position was found; the grid is rewritten only when some room was disconnected |
| Repair.RepairSpecialRooms | utils/room_generator.py:1116-1310 | without a spawn room nothing changes; otherwise the first spawn room stays spawn, readiness is kept, and every dead-end room that cannot reach spawn is listed and stays a dead end only if unplaced |
| Roles.CreateRooms | utils/room_generator.py:156-180 | one fresh room per position, in order: floor rectangle, grid position, spawn for the first and normal for the rest, no links |
| Roles.CandidatesOf | utils/room_generator.py:295-296 | the candidates for a role, ascending: non-spawn rooms not skipped that can connect for the role and are not corner rooms |
| Roles.Candidates | utils/room_generator.py:295-296 | the list comprehension computes `CandidatesOf` |
| Roles.IsEligible | utils/room_generator.py:296 | the candidate test is `can_connect_to_normal_or_spawn` and not `is_corner_room` |
| Roles.FirstFarthest | utils/room_generator.py:301 | `max` by hallway distance: a farthest candidate, the first among the farthest |
| Roles.FirstNearest | utils/room_generator.py:324-325 | the first of the stably sorted candidates: a nearest one, the first among the nearest |
| Roles.Drop | utils/room_generator.py:327-329 | the candidate removed, the order kept |
| Roles.LockedPicks | utils/room_generator.py:331-334 | one or two farthest remaining candidates, distinct, the second farthest among the rest |
| Roles.ChestPicks | utils/room_generator.py:322-334 | a nearest unlocked candidate, then one or two distinct farthest locked candidates other than it |
| Roles.ShopScan | utils/room_generator.py:355-364 | the best score and its room, scanning from a best of 0 with strict `>`; the score is never NaN |
| Roles.ShopScanBest | utils/room_generator.py:355-364 | no candidate's score beats the one chosen |
| Roles.ShopScanNone | utils/room_generator.py:355-364 | no shop is chosen iff no candidate scores above 0 |
| Roles.ShopMissedOnlyWhenUnreachable | utils/room_generator.py:352-364 | with candidates at positive distance, no shop is chosen iff there is no candidate, or the boss and every candidate are unreachable |
| Roles.PickShop | utils/room_generator.py:355-364 | the loop computes `ShopScan`'s room |
| Roles.Distances | utils/room_generator.py:240-269 | every room's true hop distance from spawn |
| Roles.OnlySpawnAtZero | utils/room_generator.py:240-269 | only the spawn room is at distance 0 |
| Roles.PickBoss | utils/room_generator.py:292-308 | no boss iff there is no candidate; otherwise a farthest candidate, the first among the farthest |
| Roles.AnyThree | utils/room_generator.py:340-342 | up to three distinct members of the pool, as many as it has |
| Roles.PickChests | utils/room_generator.py:313-342 | with an unlocked and two locked candidates the picks are `ChestPicks`; otherwise up to three distinct candidates |
| Roles.NoBossNoShop | utils/room_generator.py:295-296 | when no room is a boss candidate, no room is a shop candidate either |
| Roles.PickShopRoom | utils/room_generator.py:344-368 | no boss means no shop; otherwise the shop is `ShopScan`'s room among the remaining candidates |
| Roles.Put | utils/room_generator.py:370-383 | the role is given to the picked room, if any; every other role is kept |
| Roles.InitialRoles | utils/room_generator.py:156-180 | spawn for the first room, normal for the rest |
| Roles.PicksMembers | utils/room_generator.py:313-342 | the chest picks are at most three distinct candidates |
| Roles.ChestChoiceMembers | utils/room_generator.py:313-342 | whichever branch ran, the chest picks are at most three distinct candidates |
| Roles.SelectionDisjoint | utils/room_generator.py:292-368 | the boss, the chest rooms and the shop are distinct rooms other than spawn |
| Roles.Missing | utils/room_generator.py:385-392 | a role is missing iff it is required and no room holds it |
| Roles.SetRole | utils/room_generator.py:304-305 | the room takes the role and becomes a dead end; nothing else changes |
| Roles.GiveRole | utils/room_generator.py:370-383 | the role and flag are set and roles stay in step with dead-end flags |
| Roles.AssignedTypes | utils/room_generator.py:385-388 | exactly the roles held by dead-end rooms |
| Roles.MissingFromHeld | utils/room_generator.py:385-392 | the required roles minus those held are exactly the missing roles |
| Roles.FindTarget | utils/room_generator.py:399-416 | none iff no room is normal; otherwise the first normal room that can connect, or, when none can, the first normal room |
| Roles.ForcingStep | utils/room_generator.py:396-421 | forcing one missing role keeps the forcing invariant and shrinks the work list |
| Roles.ForceOne | utils/room_generator.py:396-421 | one missing role is given to the target room, the invariant kept, the work list shorter |
| Roles.AssignMissing | utils/room_generator.py:394-421 | every role still missing is given to a normal room while one is left; no other room changes |
| Roles.PutCount | utils/room_generator.py:370-383 | giving a role to a normal room leaves one normal room fewer |
| Roles.AppliedNormals | utils/room_generator.py:370-383 | after the selection is applied, the normal rooms are all but spawn and the rooms used |
| Roles.ChestCounts | utils/room_generator.py:370-379 | the three chest assignments take one normal room each |
| Roles.EnoughNormals | utils/room_generator.py:370-421 | with six or more rooms enough normal rooms remain to force every missing role |
| Roles.ForcingDone | utils/room_generator.py:394-421 | after forcing, no role is missing, the spawn room is kept, and the selection is still in place |
| Roles.GiveRoleTo | utils/room_generator.py:370-383 | the rooms' roles become `Put` of the old ones |
| Roles.ApplyRoles | utils/room_generator.py:370-383 | the rooms' roles become the selection applied to the old ones |
| Roles.Select | utils/room_generator.py:292-368 | the boss, chest and shop steps as the source picks them, and distinct |
| Roles.SelectAndApply | utils/room_generator.py:292-383 | the selection is made and applied |
| Roles.AssignRoles | utils/room_generator.py:271-421 | with fewer than five non-spawn rooms nothing changes; otherwise the distances are the true hop distances, the selection follows the source, no required role is missing, and spawn stays first |
| Roles.PlaceRoles | utils/room_generator.py:182-421 | roles stay in step with dead-end flags; fewer than six rooms keep their initial roles; otherwise every required role is present and room 0 is spawn |
| Roles.GenerateRooms | utils/room_generator.py:147-421 | fresh distinct rooms at the given positions, with the roles `PlaceRoles` promises |
| Items.Stamps | utils/room_generator.py:1058-1114 | each room's rectangle and final role, in order |
| Items.StampRoom | utils/room_generator.py:1086-1114 | the 2 x 2 block of a chest or boss room gets its item code where it lies on the grid; nothing else changes |
| Items.PlaceSpecialRoomItems | utils/room_generator.py:1058-1114 | every tile is the item code of the last room whose block covers it, or its old value |
| Items.ItemTileOutside | utils/room_generator.py:1058-1114 | a tile outside every item block keeps its value |
| Items.ItemTileOwnBlock | utils/room_generator.py:1086-1114 | a tile in a room's block, not covered by a later room's, holds that room's code: 3 for the unlocked chest, 4 for a locked one, 5 for the boss hole |
| Items.ItemTileCodes | utils/room_generator.py:1058-1114 | a stamped tile holds its old value or one of the codes 3, 4, 5 |
| Items.ItemTileIdempotent | utils/room_generator.py:1058-1114 | stamping twice gives the same tilemap as stamping once |
| Reach.WellLinkedMutual | utils/room_generator.py:827-828 | the links `connect_rooms` keeps are closed over the rooms and mutual |
| Reach.ReachBack | utils/room_generator.py:1437-1440 | over mutual links, every path can be walked back from its end to its start |
| Reach.ReachableSymmetric | utils/room_generator.py:1423-1442 | over mutual links, reachability is symmetric |
| Reach.SearchLinks | utils/room_generator.py:1428-1442 | found iff the target is reachable from spawn through the links; when not found, visited is exactly the set of reachable rooms |
| Reach.IsConnectedToSpawn | utils/room_generator.py:1423-1442 | true iff there is no spawn room or the room is reachable from it through the links |
| Reach.ReachableFromSpawn | utils/room_generator.py:1444-1461 | no spawn room gives the empty set; otherwise exactly the rooms reachable from the first spawn room |

## Left out

- Diagnostic `print` calls are not modelled; they change no state.
- The footprint positions of `generate_grid_rooms` (utils/room_generator.py:20-145) are chosen by `random.shuffle` and `random.sample`, so `Roles.GenerateRooms` takes them as a parameter.
- Enemy spawning in `main.py` is random and is not part of this model.
- The `del rooms[...]` of phase 1.5 shrinks the caller's list in place; the model returns the surviving rooms as a new sequence, so aliasing of that list is not captured.
- The room grid maps each lattice slot to a room index, not to the room object or the `(index, room)` tuple the source stores at different points.
- Hallways are counted, not kept as the pixel rectangles the carvers return.
- The pygame `Rect` is an integer record with its left, top, width and height; `Room.center` (data/room.py:6) is derived from it and not stored.
- `delattr(special_room, 'single_connection')` (utils/room_generator.py:1279) is modelled as setting the flag to false, which is how every later `hasattr(...) and ...` test reads it.
- The re-validation after role forcing (utils/room_generator.py:423-527) is not modelled. It swaps the role and dead-end flag of a special room that has no normal or spawn neighbour with an adjacent special room. The set of roles held is unchanged, but which room holds each role can differ from what `Roles.AssignRoles` states.
- The floor carving, the debug listing and the summary counts at the end of role assignment (utils/room_generator.py:529-593) are not modelled; the later phases take the tilemap as a parameter.
- The final check of `ensure_all_special_rooms_connected` (utils/room_generator.py:1312-1322) only prints; what it would report is stated by `Repair.RepairFrom` instead.
- The `chest_positions` list rebuilt after phase 1.5 (utils/room_generator.py:971-979) is never read, and the unused `spawn_distances` (utils/room_generator.py:282-285) and `calculate_position_distance` (utils/room_generator.py:5-14) are not modelled.
- The sorts of the chest candidates (utils/room_generator.py:324, 332) are modelled as repeated selection of the first nearest or farthest candidate, which is what a stable sort puts first; hallway distances are computed once per room.
- Functions the generator never calls are not modelled: `calculate_room_distance`, `ensure_boss_is_furthest_room`, `calculate_hallway_distance_from_spawn_after_connections`, `find_closest_connected_room`, `can_reach_room_through_connections`, `count_room_connections` and `enforce_dead_end_requirement`; `create_test_rooms` is reduced to the footprint positions that `Lattice.TestConnectivity` takes.
- The `except Exception` of `generate_valid_world` is modelled as an attempt whose outcome is `Raised`; which exception was raised is not kept.
- The camera, the entities, the game loop of `main()` and `play_hole_room_scene` beyond the hole room's tilemap and exit test are not modelled: they are drawing, input and timing.
- The reach searches carry a ghost map of the world's links so that their contracts can speak about reachability; the source has no such value.
- Connect.Strategy2: states only that phase 1's invariant is kept, not which pair of rooms the nested scan links.
- Connect.SpanPass: states only that phase 1's invariant is kept, not how many rooms a pass links.
- Connect.SpanningPhase: states only that phase 1's invariant holds when it stops, not which spanning tree it builds.
- Roles.ChestPicks: states that the picks are a nearest unlocked candidate and farthest locked candidates, but not which of several equally distant candidates the stable sort puts first.

## Findings

| source | as written | input that shows it | evidently intended | confidence | as-written member | corrected member |
|---|---|---|---|---|---|---|
| utils/room_generator.py:1249-1250 | the relocation loop stops once `relocated_count >= len(available_normal_rooms)`, comparing the moves already made with the positions still left, which shrink by one per move | two disconnected dead-end rooms (boss, shop) and two "any special" positions: after the boss moves, one move has been made and one position is left, so the shop is never moved | move every disconnected room while a suitable position remains | not executed | Repair.AsWrittenStopsEarly | Repair.PlanPlacesAll |

The repair pass (`Repair.RelocateAll` and the methods that call it) runs the loop as written, early stop included. `Repair.Plan` is the loop without the early stop, and `Repair.AsWrittenAgrees` shows that the two make the same moves until the loop as written stops.
