/**
 * Coordinate arithmetic of the pixmap client (src/api/pixmap.ts): world
 * pixel coordinates are centred on the canvas, tiles are 256 x 256 and
 * are numbered from the canvas's top-left corner.
 */
module Coords {
  import opened Types

  /** JavaScript's `%` on integers: the remainder has the sign of the dividend. */
  function JsRem(a: int, n: int): (r: int)
    requires n > 0
    ensures -n < r < n
    ensures a >= 0 ==> r >= 0
    ensures a < 0 ==> r <= 0
  {
    if a >= 0 then a % n else -((-a) % n)
  }

  /** Key of one tile of one canvas (`${canvasId}_${cx}_${cy}`). */
  datatype TileKey = TileKey(canvasId: int, cx: int, cy: int)

  /** Key of one world pixel of one canvas (`${canvasId}_${x}_${y}`). */
  datatype PixelKey = PixelKey(canvasId: int, x: int, y: int)

  /** Tile column or row of a world coordinate: floor((a + size / 2) / 256). */
  function TileOf(a: int, size: CanvasSize): int
  {
    (a + size / 2) / CHUNK_SIZE
  }

  /** The tile a world pixel falls in (`pixelToChunk`). */
  function PixelToChunk(canvasId: int, x: int, y: int, size: CanvasSize): TileKey
  {
    TileKey(canvasId, TileOf(x, size), TileOf(y, size))
  }

  /** `((a % 256) + 256) % 256` with JavaScript remainders. */
  function LocalCoord(a: int): (l: int)
    ensures 0 <= l < CHUNK_SIZE
  {
    JsRem(JsRem(a, CHUNK_SIZE) + CHUNK_SIZE, CHUNK_SIZE)
  }

  /** Index of a world pixel inside its tile's byte buffer (row-major). */
  function LocalIndex(x: int, y: int, size: CanvasSize): (i: int)
    ensures 0 <= i < TILE_PIXELS
  {
    LocalCoord(y + size / 2) * CHUNK_SIZE + LocalCoord(x + size / 2)
  }

  /** `getPixelFromChunk`: the byte at the pixel's index, 0 past the end of the buffer. */
  function PixelFromTile(tile: seq<byte>, x: int, y: int, size: CanvasSize): (c: byte)
    ensures LocalIndex(x, y, size) < |tile| ==> c == tile[LocalIndex(x, y, size)]
    ensures LocalIndex(x, y, size) >= |tile| ==> c == 0
  {
    var i := LocalIndex(x, y, size);
    if i < |tile| then tile[i] else 0
  }

  /** The double JavaScript remainder is the mathematical (floor) modulo. */
  lemma LocalCoordIsFloorMod(a: int)
    ensures LocalCoord(a) == a % CHUNK_SIZE
  {
    if a < 0 {
      var q, m := (-a) / CHUNK_SIZE, (-a) % CHUNK_SIZE;
      assert a == -q * CHUNK_SIZE - m;
      if m == 0 {
        assert a == (-q) * CHUNK_SIZE;
      } else {
        assert a == (-q - 1) * CHUNK_SIZE + (CHUNK_SIZE - m);
      }
    }
  }

  /**
   * Tile number and in-tile coordinate together give back the world
   * coordinate, for every integer (inside the canvas or not).
   */
  lemma TileDecomposition(a: int, size: CanvasSize)
    ensures TileOf(a, size) * CHUNK_SIZE + LocalCoord(a + size / 2) - size / 2 == a
  {
    LocalCoordIsFloorMod(a + size / 2);
  }

  /** A pixel inside the canvas lies in a tile whose origin is inside the canvas. */
  lemma TileInCanvas(a: int, size: CanvasSize)
    requires -(size / 2) <= a < size / 2
    ensures 0 <= TileOf(a, size)
    ensures TileOf(a, size) * CHUNK_SIZE <= a + size / 2 < size
  {
    TileDecomposition(a, size);
  }

  /**
   * World coordinates of byte `offset` of tile `(ci, cj)`, as the delta
   * handler computes them.
   */
  function DeltaWorldX(ci: int, offset: nat, size: CanvasSize): int
  {
    ci * CHUNK_SIZE + offset % CHUNK_SIZE - size / 2
  }

  function DeltaWorldY(cj: int, offset: nat, size: CanvasSize): int
  {
    cj * CHUNK_SIZE + offset / CHUNK_SIZE - size / 2
  }

  /**
   * The delta handler's world coordinates invert the tile/index split:
   * the byte a pixel is stored at names that pixel again.
   */
  lemma DeltaWorldInverse(x: int, y: int, size: CanvasSize)
    ensures DeltaWorldX(TileOf(x, size), LocalIndex(x, y, size), size) == x
    ensures DeltaWorldY(TileOf(y, size), LocalIndex(x, y, size), size) == y
  {
    var lx := LocalCoord(x + size / 2);
    var ly := LocalCoord(y + size / 2);
    var i := LocalIndex(x, y, size);
    assert i == ly * CHUNK_SIZE + lx;
    assert i % CHUNK_SIZE == lx && i / CHUNK_SIZE == ly;
    TileDecomposition(x, size);
    TileDecomposition(y, size);
  }

  /** Distinct pixels of one tile occupy distinct bytes. */
  lemma LocalIndexInjective(x1: int, y1: int, x2: int, y2: int, size: CanvasSize)
    requires TileOf(x1, size) == TileOf(x2, size) && TileOf(y1, size) == TileOf(y2, size)
    requires LocalIndex(x1, y1, size) == LocalIndex(x2, y2, size)
    ensures x1 == x2 && y1 == y2
  {
    DeltaWorldInverse(x1, y1, size);
    DeltaWorldInverse(x2, y2, size);
  }
}
