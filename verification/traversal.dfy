/** The tile traversal: a 1-based counter runs over `nx * ny` tiles; each
    iteration fetches the tile centred at the geographic cursor, pastes it at
    the pixel offset `(x, y)`, then moves both one tile on: east within a row,
    or back to the first column and one tile south after every `nx`-th tile. */
module Traversal {
  import opened Geo
  import opened Planning

  /** A pixel offset in the output canvas. */
  datatype Offset = Offset(x: int, y: int)

  /** One iteration of the traversal: the centre the tile was fetched at and
      the offset it was pasted at. */
  datatype TileVisit = TileVisit(center: GeoPoint, offset: Offset)

  /** Row-major placement of the tile with 0-based index `k` in a grid `nx`
      tiles wide. */
  function OffsetOf(k: nat, nx: nat): Offset
    requires nx > 0
  {
    Offset((k % nx) * TileSize, (k / nx) * TileSize)
  }

  /** The tile index whose square covers pixel `(px, py)`. */
  function PixelTile(px: nat, py: nat, nx: nat): nat
  {
    (py / TileSize) * nx + px / TileSize
  }

  /** Pixel `(px, py)` lies in the tile square pasted at `o`. */
  predicate Covers(o: Offset, px: int, py: int)
  {
    o.x <= px < o.x + TileSize && o.y <= py < o.y + TileSize
  }

  /** Euclidean decomposition of `k` by `nx`. */
  lemma DivMod(k: nat, nx: nat)
    requires nx > 0
    ensures k == (k / nx) * nx + k % nx && 0 <= k % nx < nx
  {
  }

  /** The two ways an offset moves from one tile to the next: after a tile
      whose 1-based index is a multiple of `nx`, x resets to 0 and y grows by
      one tile; otherwise x grows by one tile and y stays. */
  lemma {:induction false} RowMajorStep(k: nat, nx: nat)
    requires nx > 0
    ensures (k + 1) % nx == 0 ==>
      OffsetOf(k + 1, nx) == Offset(0, OffsetOf(k, nx).y + TileSize)
    ensures (k + 1) % nx != 0 ==>
      OffsetOf(k + 1, nx) == Offset(OffsetOf(k, nx).x + TileSize, OffsetOf(k, nx).y)
  {
    var q, r := k / nx, k % nx;
    DivMod(k, nx);
    if r + 1 == nx {
      assert k + 1 == (q + 1) * nx;
      DivModUnique(k + 1, nx, q + 1, 0);
    } else {
      assert k + 1 == q * nx + (r + 1);
      DivModUnique(k + 1, nx, q, r + 1);
    }
  }

  /** Quotient and remainder are determined by any decomposition with the
      remainder in range. */
  lemma DivModUnique(k: nat, nx: nat, q: int, r: int)
    requires nx > 0 && 0 <= r < nx && k == q * nx + r
    ensures k / nx == q && k % nx == r
  {
    DivMod(k, nx);
    var q' := k / nx;
    if q' != q {
      var d := if q' < q then q - q' else q' - q;
      MulAtLeast(d, nx);
      assert false;
    }
  }

  /** A positive multiple of `nx` is at least `nx`. */
  lemma MulAtLeast(d: int, nx: nat)
    requires d >= 1
    ensures d * nx >= nx
  {
    assert d * nx == (d - 1) * nx + nx;
  }

  /** Every tile of an `nx` by `ny` grid is pasted inside the grid's pixels. */
  lemma OffsetInGrid(k: nat, nx: nat, ny: nat)
    requires nx > 0 && k < nx * ny
    ensures 0 <= OffsetOf(k, nx).x <= (nx - 1) * TileSize
    ensures 0 <= OffsetOf(k, nx).y <= (ny - 1) * TileSize
  {
    DivMod(k, nx);
    var q := k / nx;
    if q >= ny {
      assert q * nx >= ny * nx;
    }
  }

  /** The pixel's tile index recovers the index of every tile: distinct tiles
      have distinct offsets. */
  lemma OffsetRoundTrip(k: nat, nx: nat)
    requires nx > 0
    ensures PixelTile(OffsetOf(k, nx).x, OffsetOf(k, nx).y, nx) == k
  {
    DivMod(k, nx);
  }

  /** No two tiles of the traversal share an offset. */
  lemma OffsetsDistinct(j: nat, k: nat, nx: nat)
    requires nx > 0 && j != k
    ensures OffsetOf(j, nx) != OffsetOf(k, nx)
  {
    OffsetRoundTrip(j, nx);
    OffsetRoundTrip(k, nx);
  }

  /** A pixel lies in the square of tile `k` exactly when `k` is the pixel's
      tile index. */
  lemma CoversExactly(k: nat, nx: nat, px: nat, py: nat)
    requires nx > 0 && px < nx * TileSize
    ensures Covers(OffsetOf(k, nx), px, py) <==> k == PixelTile(px, py, nx)
  {
    DivMod(k, nx);
    DivMod(px, TileSize);
    DivMod(py, TileSize);
    var t := PixelTile(px, py, nx);
    if Covers(OffsetOf(k, nx), px, py) {
      DivModUnique(px, TileSize, k % nx, px - (k % nx) * TileSize);
      DivModUnique(py, TileSize, k / nx, py - (k / nx) * TileSize);
    }
    if k == t {
      assert px / TileSize < nx;
      DivModUnique(k, nx, py / TileSize, px / TileSize);
    }
  }

  /** Scenario of a 2 by 2 grid: tiles are pasted top-left, top-right,
      bottom-left, bottom-right. */
  lemma TwoByTwoOffsets()
    ensures OffsetOf(0, 2) == Offset(0, 0) && OffsetOf(1, 2) == Offset(640, 0)
    ensures OffsetOf(2, 2) == Offset(0, 640) && OffsetOf(3, 2) == Offset(640, 640)
  {
  }

  /** The traversal loop of the mosaic generator for an `nx` by `ny` grid,
      with the geodesic solver `direct`, step `delta` metres between tile
      centres and `diagonal` metres from the upper-left corner to the first
      centre. Returns one visit per iteration and every question put to the
      solver, in order. */
  method Traverse(direct: DirectSolver, upperLeft: GeoPoint, nx: nat, ny: nat, delta: real, diagonal: real)
    returns (tiles: seq<TileVisit>, calls: seq<DirectCall>)
    ensures |tiles| == nx * ny && |calls| == nx * ny + 1
    ensures tiles != [] ==> nx > 0 && ny > 0
    // the first centre is reached diagonally into the area from its corner
    ensures calls[0] == DirectCall(upperLeft.lat, upperLeft.lon, SouthEast, diagonal)
    // every tile is fetched where the previous call to the solver landed
    ensures forall k :: 0 <= k < |tiles| ==> tiles[k].center == Land(direct, calls[k])
    // a row change steps south from the first column's longitude and the
    // latitude of the tile just fetched
    ensures forall k :: 0 <= k < |tiles| && (k + 1) % nx == 0 ==>
      calls[k + 1] == DirectCall(tiles[k].center.lat, Land(direct, calls[0]).lon, South, delta)
    // a column change steps east from the tile just fetched
    ensures forall k :: 0 <= k < |tiles| && (k + 1) % nx != 0 ==>
      calls[k + 1] == DirectCall(tiles[k].center.lat, tiles[k].center.lon, East, delta)
    // placement is row-major
    ensures forall k :: 0 <= k < |tiles| ==> tiles[k].offset == OffsetOf(k, nx)
    ensures forall k :: 0 <= k < |tiles| ==>
      0 <= tiles[k].offset.x < nx * TileSize && 0 <= tiles[k].offset.y < ny * TileSize
    ensures forall j, k :: 0 <= j < k < |tiles| ==> tiles[j].offset != tiles[k].offset
  {
    calls := [DirectCall(upperLeft.lat, upperLeft.lon, SouthEast, diagonal)];
    var root := direct(upperLeft.lat, upperLeft.lon, SouthEast, diagonal);
    var x, y := 0, 0;
    var lat, lon := root.lat, root.lon;
    tiles := [];
    var i := 1;
    while i <= nx * ny
      invariant 1 <= i <= nx * ny + 1
      invariant |tiles| == i - 1 && |calls| == i
      invariant calls[0] == DirectCall(upperLeft.lat, upperLeft.lon, SouthEast, diagonal)
      invariant GeoPoint(lat, lon) == Land(direct, calls[i - 1])
      invariant nx > 0 ==> Offset(x, y) == OffsetOf(i - 1, nx)
      invariant forall k :: 0 <= k < |tiles| ==> tiles[k].center == Land(direct, calls[k])
      invariant forall k :: 0 <= k < |tiles| ==> nx > 0 && tiles[k].offset == OffsetOf(k, nx)
      invariant forall k :: 0 <= k < |tiles| && (k + 1) % nx == 0 ==>
        calls[k + 1] == DirectCall(tiles[k].center.lat, root.lon, South, delta)
      invariant forall k :: 0 <= k < |tiles| && (k + 1) % nx != 0 ==>
        calls[k + 1] == DirectCall(tiles[k].center.lat, tiles[k].center.lon, East, delta)
    {
      assert nx > 0;
      tiles := tiles + [TileVisit(GeoPoint(lat, lon), Offset(x, y))];
      RowMajorStep(i - 1, nx);
      if i % nx == 0 {
        lon := root.lon;
        var call := DirectCall(lat, lon, South, delta);
        var next := direct(lat, lon, South, delta);
        calls := calls + [call];
        lat, lon := next.lat, next.lon;
        y := y + TileSize;
        x := 0;
      } else {
        var call := DirectCall(lat, lon, East, delta);
        var next := direct(lat, lon, East, delta);
        calls := calls + [call];
        lat, lon := next.lat, next.lon;
        x := x + TileSize;
      }
      i := i + 1;
    }
    forall k | 0 <= k < |tiles|
      ensures 0 <= tiles[k].offset.x < nx * TileSize && 0 <= tiles[k].offset.y < ny * TileSize
    {
      OffsetInGrid(k, nx, ny);
    }
    forall j, k | 0 <= j < k < |tiles|
      ensures tiles[j].offset != tiles[k].offset
    {
      OffsetsDistinct(j, k, nx);
    }
  }
}
