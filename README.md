# Platformer geometry and player update, modelled in Dafny

This project models the sequential core of a small Java tile platformer:

- **`BoundingBox`** (`geometry.dfy`, module `Geometry`): a class with four mutable
  corner fields (`minX`, `minY`, `maxX`, `maxY`). It has a closed-interval
  intersection test, a one-sided per-axis overlap size returned as a fresh `Vec2`,
  and an in-place `Update` of the four corners.
- **`Tile`** (`tile.dfy`, module `Tiles`): an immutable record of grid
  coordinates, tileset index and tile size. It holds the `BoundingBox` its
  constructor derives from the grid cell, and `IsSolid` holds only for index 0.
- **`Player`** (`player.dfy`, module `PlayerModel`): a class with the position,
  the four movement flags set by the input layer, the facing flag and the walk
  animation frame and counter. One `Update` steps the position by 4 per set
  flag. It then clamps the position so the 32×42 player stays inside the level,
  and advances the walk animation modulo the number of walk frames.

Java `float` coordinates are modelled as `real`. Integers are unbounded. The
level's pixel size comes from a level object that is not part of this model, so
it is passed to `Update` as `levelW` and `levelH`. The walk images are
represented only by how many were loaded: the constructor receives
`loadedFrames` (0 to 11), and with none it uses the 8 fallback frames. So the
frame count is always at least 1.

The class methods are specified against value-level functions. `Snapshot()` is
the player's state as a `PlayerState` value. `Tick` is one update on that value.
`Run` is a sequence of updates. The properties of the update are proved as
lemmas about `Tick` and `Run`.

The overlap size is one-sided. On each axis it measures from the far edge of the
box that starts lower to the near edge of the other box. The model proves three
things about it:
- it is never smaller than the length of the common interval of two
  well-formed boxes, and it is never negative for intersecting boxes;
- it equals that length when the boxes are staggered rather than nested, and
  exceeds it when one interval lies strictly inside the other;
- it gives the same value from either box unless the two minima are equal.

## Model

| member | source | states |
|---|---|---|
| `Geometry.BoundingBox.constructor` | src/BoundingBox.java:4-9 | the four corners are stored verbatim, with no validation |
| `Geometry.BoundingBox.Intersect` | src/BoundingBox.java:12-15 | for well-formed boxes, true iff the intersection rectangle (max of minima to min of maxima) is non-empty on both axes; it only reads the two boxes |
| `Geometry.BoundingBox.OverlapSize` | src/BoundingBox.java:18-36 | each component is one of the two one-sided depths; for well-formed boxes it is at least the length of the common interval; for any two boxes both components are non-negative when the boxes intersect; it only reads the two boxes |
| `Geometry.BoundingBox.Update` | src/BoundingBox.java:39-44 | the four corners become the arguments, and nothing outside the box changes |
| `Geometry.UpdateTwice` | src/BoundingBox.java:39-44 | two identical updates leave the same corners as one: the new state depends only on the arguments |
| `Geometry.IntersectSymmetric` | src/BoundingBox.java:12-15 | `a.Intersect(b) == b.Intersect(a)` for all boxes, well-formed or not |
| `Geometry.TouchingEdgesIntersect` | src/BoundingBox.java:13-14 | well-formed boxes that share only a vertical edge, with overlapping y-ranges, intersect in both directions |
| `Geometry.SelfIntersectIffWellFormed` | src/BoundingBox.java:13-14 | a box intersects itself exactly when `minX <= maxX` and `minY <= maxY` |
| `Geometry.IntersectIffCommonPoint` | src/BoundingBox.java:12-15 | for well-formed boxes, `Intersect` holds iff some point lies in both closed boxes |
| `Geometry.OverlapSizeExactWhenStaggered` | src/BoundingBox.java:22-33 | on each axis where the box that starts lower also ends no later, the depth equals the common interval's length |
| `Geometry.OverlapSizeWhenNested` | src/BoundingBox.java:22-33 | on each axis where one interval lies strictly inside the other, the depth is the outer box's far edge minus the inner box's near edge, which is greater than the common interval's length |
| `Geometry.OverlapSizeSymmetryUpToTies` | src/BoundingBox.java:22-33 | each component is the same from either box unless the two minima on that axis are equal; on a tie the two results differ by the difference of the maxima |
| `Tiles.NewTile` | src/Tile.java:9-20 | the grid coordinates, index and tile size are kept unchanged; the box is fresh and covers `(x*ts, y*ts)` to `(x*ts+ts, y*ts+ts)` |
| `Tiles.IsSolid` | src/Tile.java:37-40 | a tile is solid iff its index is 0 (grass); the water tile (index 1) is not solid |
| `Tiles.SolidityDependsOnIndexOnly` | src/Tile.java:37-40 | two tiles with the same index are both solid or both not, whatever their position, size or box |
| `Tiles.TileBoxIsSquare` | src/Tile.java:16-19 | a tile's box is `tileSize` wide and high, and well-formed when `tileSize >= 0` |
| `Tiles.AdjacentTilesIntersect` | src/Tile.java:16-19 | horizontally adjacent tiles of one size share an edge, so their boxes intersect both ways |
| `Tiles.SameRowTilesIntersectIffNeighbours` | src/Tile.java:16-19 | two tiles of one row and one positive size intersect iff their grid columns differ by at most 1 |
| `PlayerModel.Clamp` | src/Player.java:149-152 | the clamped coordinate never exceeds `extent - size`; it is non-negative when the player fits; it is unchanged when already inside; below 0 it becomes 0 when the player fits; above `extent - size` it becomes `extent - size` |
| `PlayerModel.Animate` | src/Player.java:163-174 | idle resets frame and counter to 0; a valid (frame < n, counter < 6) pair stays valid; while moving, a non-zero counter means the counter went up by one and the frame stayed |
| `PlayerModel.Tick` | src/Player.java:130-159 | after one update `x <= levelW - 32` and `y <= levelH - 42`, both are `>= 0` when the player fits; a step past the low edge lands on 0 when the player fits, a step past the high edge lands on that edge; right wins the facing flag, left alone sets it false, neither keeps it; animation validity is preserved; idle resets the animation |
| `PlayerModel.TickMovesByDisplacement` | src/Player.java:132-145 | away from the level edges one update moves by exactly right-minus-left and down-minus-up times 4; with both horizontal flags x is unchanged and the player faces right |
| `PlayerModel.IdleTickKeepsPosition` | src/Player.java:131-174 | with no flag set and the player inside the level, an update keeps position and facing and shows frame 0 |
| `PlayerModel.IdleTickIdempotent` | src/Player.java:149-152 | with no flag set, a second update changes nothing, from any position and even for a level smaller than the player |
| `PlayerModel.RunKeepsAnimationValid` | src/Player.java:161-177 | any sequence of updates keeps `0 <= frame < n` and `0 <= counter < 6`, so the frame lookup stays in range |
| `PlayerModel.IdleRunIsFixpoint` | src/Player.java:130-174 | a resting player inside the level is unchanged by any number of idle updates |
| `PlayerModel.AnimateAdvancesCycle` | src/Player.java:165-168 | one moving animation step takes the closed form for t ticks to the closed form for t + 1 ticks |
| `PlayerModel.WalkStep` | src/Player.java:163-169 | one moving update takes the walk-cycle closed form for t ticks to the one for t + 1 ticks |
| `PlayerModel.WalkCycle` | src/Player.java:163-169 | after k moving updates the counter is `(counter + k) mod 6` and the frame is `(frame + (counter + k) / 6) mod n`; from rest the frame is `(k / 6) mod n` |
| `PlayerModel.Player.constructor` | src/Player.java:38-46 | the start position is stored; all movement flags are false; the player faces right; frame and counter are 0; the frame count is the number of loaded images, or 8 when none loaded |
| `PlayerModel.Player.Update` | src/Player.java:130-159 | the new state is `Tick` of the old state under the current flags; the flags and the frame count are unchanged; the animation invariant is kept |
| `PlayerModel.Player.Step` | src/Player.java:132-145 | position and facing become `StepX`, `StepY` and `Facing` of the old values under the flags |
| `PlayerModel.Player.ClampToLevel` | src/Player.java:148-152 | both coordinates become `Clamp` of their old values against the level size |
| `PlayerModel.Player.UpdateAnimation` | src/Player.java:161-177 | frame and counter become `Animate` of their old values; nothing else changes |
| `PlayerModel.Player.SetMovingLeft` | src/Player.java:223-225 | only the left flag changes, to the argument |
| `PlayerModel.Player.SetMovingRight` | src/Player.java:227-229 | only the right flag changes, to the argument |
| `PlayerModel.Player.SetMovingUp` | src/Player.java:231-233 | only the up flag changes, to the argument |
| `PlayerModel.Player.SetMovingDown` | src/Player.java:235-237 | only the down flag changes, to the argument |

`Player.Step` and `Player.ClampToLevel` are the two stages of the Java
`update`, which writes them inline. They are separate methods here so that each
stage is proved on its own.

The tile getters `getX`, `getY`, `getTileIndex` and `getBoundingBox` are the
fields of the `Tile` datatype. `NewTile` states that they hold the constructor's
arguments, and a datatype has no mutators.

## Left out

- Walk-image loading (path probing, image decoding, console output, fallback drawing): I/O and graphics. Only its outcome is modelled, the number of frames loaded.
- `currentImage` and the frame lookup: the image handle is not modelled. `RunKeepsAnimationValid` and `Player.Valid` show that the lookup index stays in range.
- `getImage` and `flipHorizontally`: image manipulation through the AWT library. As written, `flipHorizontally` draws a mirrored copy but returns the original image.
- `updateCamera`: float smoothing of the level's camera offset, and the level object is not part of this model.
- `move()`: an empty method. `getPos()` returns the position object, which is the `x` and `y` fields here.
- `toString` of `Tile`: debug text only.
- The whole window, timer, file chooser and key listener. The key-to-flag mapping only calls the four setters modelled here.
- Animate: uses Dafny's `%`, which never returns a negative result, where Java's `%` truncates toward zero. The two agree for every frame `>= 0`. The frame starts at 0 and `Player.Valid` keeps it in `[0, n)`, so the player never reaches a frame where they differ.
- IEEE `float` rounding of coordinates: `real` is exact. So `TickMovesByDisplacement` holds exactly, where Java may round for very large coordinates.
- Java `int` overflow in `x * tileSize` and the `int`-to-`float` conversion of the pixel position: grid products are unbounded integers.
- Aliasing through `getBoundingBox`: a caller can mutate a tile's box, and then `CoversCell` no longer holds. The tile lemmas therefore require `CoversCell`.
- Gravity, jumping, a grounded flag, world-bound velocity zeroing and tile collision resolution are not in the source. The update only steps by ±4 and clamps, and the box update takes the four corners, not a position and a size. The model follows the code.
