/** Tiles of the level grid (src/Tile.java): integer grid coordinates, an
    image index and the bounding box computed once from them. */
module Tiles {
  import opened Geometry

  /** Tileset indices named by the tileset: 0 is grassMid, 1 is liquidWaterTop_mid. */
  const GrassMid: int := 0
  const WaterTop: int := 1

  /** A tile has no setters; `boundingBox` is the box object it created and
      hands out by reference. */
  datatype Tile = Tile(boundingBox: BoundingBox, tileIndex: int, x: int, y: int, tileSize: int)

  /** The box a tile at grid cell (gx, gy) covers: one tile size square whose
      top-left corner is the cell's pixel position. */
  predicate CoversCell(t: Tile)
    reads t.boundingBox
  {
    var box := t.boundingBox;
    box.minX == (t.x * t.tileSize) as real &&
    box.minY == (t.y * t.tileSize) as real &&
    box.maxX == (t.x * t.tileSize) as real + t.tileSize as real &&
    box.maxY == (t.y * t.tileSize) as real + t.tileSize as real
  }

  /** The constructor: keeps the grid coordinates, index and size and derives the box. */
  method NewTile(x: int, y: int, tileIndex: int, tileSize: int) returns (t: Tile)
    ensures fresh(t.boundingBox)
    ensures t.x == x && t.y == y && t.tileIndex == tileIndex && t.tileSize == tileSize
    ensures CoversCell(t)
  {
    var pixelX: real := (x * tileSize) as real;
    var pixelY: real := (y * tileSize) as real;
    var box := new BoundingBox(pixelX, pixelY, pixelX + tileSize as real, pixelY + tileSize as real);
    t := Tile(box, tileIndex, x, y, tileSize);
  }

  /** Only grass tiles collide; water and every other index does not, and
      neither the position nor the box plays a part. */
  function IsSolid(t: Tile): (r: bool)
    ensures r <==> t.tileIndex == GrassMid
    ensures t.tileIndex == WaterTop ==> !r
  {
    t.tileIndex == GrassMid
  }

  /** Solidity depends on the index alone: two tiles with one index are both
      solid or both not, wherever they are and whatever their size. */
  lemma SolidityDependsOnIndexOnly(t1: Tile, t2: Tile)
    requires t1.tileIndex == t2.tileIndex
    ensures IsSolid(t1) == IsSolid(t2)
  {
  }

  /** A tile's box is a tileSize by tileSize square, well-formed for a
      non-negative tile size. */
  lemma TileBoxIsSquare(t: Tile)
    requires CoversCell(t)
    ensures t.boundingBox.maxX - t.boundingBox.minX == t.tileSize as real
    ensures t.boundingBox.maxY - t.boundingBox.minY == t.tileSize as real
    ensures t.tileSize >= 0 ==> t.boundingBox.WellFormed()
  {
  }

  /** The cell to the right of (gx, gy) starts where (gx, gy) ends. */
  lemma {:induction false} NextCellStartsAtEdge(gx: int, ts: int)
    ensures ((gx + 1) * ts) as real == (gx * ts) as real + ts as real
  {
    assert (gx + 1) * ts == gx * ts + ts;
  }

  /** Horizontally adjacent tiles of one size touch, so their boxes intersect. */
  lemma {:induction false} AdjacentTilesIntersect(t1: Tile, t2: Tile)
    requires CoversCell(t1) && CoversCell(t2)
    requires t2.x == t1.x + 1 && t2.y == t1.y
    requires t1.tileSize == t2.tileSize && t1.tileSize >= 0
    ensures t1.boundingBox.maxX == t2.boundingBox.minX
    ensures t1.boundingBox.Intersect(t2.boundingBox) && t2.boundingBox.Intersect(t1.boundingBox)
  {
    NextCellStartsAtEdge(t1.x, t1.tileSize);
    TouchingEdgesIntersect(t1.boundingBox, t2.boundingBox);
  }

  /** A column further right starts at least one tile size further right. */
  lemma {:induction false} PixelGap(a: int, b: int, ts: int)
    requires ts > 0 && a < b
    ensures a * ts + ts <= b * ts
  {
    var d := b - a;
    assert b * ts == a * ts + d * ts;
    assert d * ts == ts + (d - 1) * ts;
    assert (d - 1) * ts >= 0;
  }

  /** Two tiles of one row and one positive size intersect exactly when their
      grid columns are equal or neighbours. */
  lemma {:induction false} SameRowTilesIntersectIffNeighbours(t1: Tile, t2: Tile)
    requires CoversCell(t1) && CoversCell(t2)
    requires t1.y == t2.y && t1.tileSize == t2.tileSize && t1.tileSize > 0
    ensures t1.boundingBox.Intersect(t2.boundingBox) <==> -1 <= t1.x - t2.x <= 1
  {
    var ts := t1.tileSize;
    if t1.x + 1 < t2.x {
      PixelGap(t1.x + 1, t2.x, ts);
      NextCellStartsAtEdge(t1.x, ts);
    } else if t2.x + 1 < t1.x {
      PixelGap(t2.x + 1, t1.x, ts);
      NextCellStartsAtEdge(t2.x, ts);
    } else if t1.x == t2.x {
    } else if t1.x + 1 == t2.x {
      AdjacentTilesIntersect(t1, t2);
    } else {
      AdjacentTilesIntersect(t2, t1);
      IntersectSymmetric(t1.boundingBox, t2.boundingBox);
    }
  }
}
