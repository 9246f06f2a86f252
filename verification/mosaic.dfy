/** The mosaic generator end to end: plan the canvas and the tile grid from
    the measured area, then traverse the grid. The geodesic inverse problem
    that measures the area is outside the model; its two distances arrive as
    parameters, as does the cosine of the upper-left latitude. */
module Mosaic {
  import opened Geo
  import opened Planning
  import opened Traversal

  /** A pixel inside an `nx` by `ny` grid falls in one of its tiles. */
  lemma PixelTileInGrid(px: nat, py: nat, nx: nat, ny: nat)
    requires px < nx * TileSize && py < ny * TileSize
    ensures PixelTile(px, py, nx) < nx * ny
  {
    var a, b := px / TileSize, py / TileSize;
    assert a < nx;
    assert b < ny;
    assert b * nx <= (ny - 1) * nx;
    assert (ny - 1) * nx == ny * nx - nx;
  }

  /** Every pixel of a `width` by `height` canvas is covered by exactly one
      tile of a row-major traversal whose grid reaches the canvas edges. */
  lemma CanvasCovered(tiles: seq<TileVisit>, nx: nat, ny: nat, width: nat, height: nat)
    requires |tiles| == nx * ny && width <= nx * TileSize && height <= ny * TileSize
    requires forall k :: 0 <= k < |tiles| ==> nx > 0 && tiles[k].offset == OffsetOf(k, nx)
    ensures forall px, py :: 0 <= px < width && 0 <= py < height ==>
      PixelTile(px, py, nx) < |tiles| && Covers(tiles[PixelTile(px, py, nx)].offset, px, py)
    ensures forall k, px, py ::
      (0 <= k < |tiles| && 0 <= px < width && 0 <= py < height && Covers(tiles[k].offset, px, py))
      ==> k == PixelTile(px, py, nx)
  {
    forall px: int, py: int | 0 <= px < width && 0 <= py < height
      ensures PixelTile(px, py, nx) < |tiles| && Covers(tiles[PixelTile(px, py, nx)].offset, px, py)
    {
      PixelTileInGrid(px, py, nx, ny);
      CoversExactly(PixelTile(px, py, nx), nx, px, py);
    }
    forall k: int, px: int, py: int |
      0 <= k < |tiles| && 0 <= px < width && 0 <= py < height && Covers(tiles[k].offset, px, py)
      ensures k == PixelTile(px, py, nx)
    {
      CoversExactly(k, nx, px, py);
    }
  }

  /** Plans and traverses the mosaic of the area whose sides measure
      `widthMeters` and `heightMeters`, with upper-left corner `upperLeft`,
      at `zoom`. Every pixel of the canvas is covered by exactly one pasted
      tile. */
  method GenerateImage(direct: DirectSolver, upperLeft: GeoPoint, zoom: int, cosLat: real,
                       widthMeters: real, heightMeters: real, sqrtTwo: real)
    returns (plan: GridPlan, tiles: seq<TileVisit>, calls: seq<DirectCall>)
    requires cosLat > 0.0 && widthMeters >= 0.0 && heightMeters >= 0.0
    requires 1.414 < sqrtTwo < 1.415
    ensures plan == Plan(zoom, cosLat, widthMeters, heightMeters, sqrtTwo)
    ensures |tiles| == plan.tilesX * plan.tilesY && |calls| == |tiles| + 1
    ensures tiles != [] ==> plan.tilesX > 0 && plan.tilesY > 0
    ensures calls[0] == DirectCall(upperLeft.lat, upperLeft.lon, SouthEast, plan.diagonal)
    // every tile is fetched where the previous call to the solver landed
    ensures forall k :: 0 <= k < |tiles| ==> tiles[k].center == Land(direct, calls[k])
    // a row change steps south from the first column's longitude and the
    // latitude of the tile just fetched; a column change steps east
    ensures forall k :: 0 <= k < |tiles| && (k + 1) % plan.tilesX == 0 ==>
      calls[k + 1] == DirectCall(tiles[k].center.lat, Land(direct, calls[0]).lon, South, plan.stepDistance)
    ensures forall k :: 0 <= k < |tiles| && (k + 1) % plan.tilesX != 0 ==>
      calls[k + 1] == DirectCall(tiles[k].center.lat, tiles[k].center.lon, East, plan.stepDistance)
    ensures forall k :: 0 <= k < |tiles| ==> tiles[k].offset == OffsetOf(k, plan.tilesX)
    ensures forall px, py :: 0 <= px < plan.width && 0 <= py < plan.height ==>
      PixelTile(px, py, plan.tilesX) < |tiles| &&
      Covers(tiles[PixelTile(px, py, plan.tilesX)].offset, px, py)
    ensures forall k, px, py ::
      (0 <= k < |tiles| && 0 <= px < plan.width && 0 <= py < plan.height &&
       Covers(tiles[k].offset, px, py))
      ==> k == PixelTile(px, py, plan.tilesX)
  {
    plan := Plan(zoom, cosLat, widthMeters, heightMeters, sqrtTwo);
    tiles, calls := Traverse(direct, upperLeft, plan.tilesX, plan.tilesY, plan.stepDistance, plan.diagonal);
    CanvasCovered(tiles, plan.tilesX, plan.tilesY, plan.width, plan.height);
  }
}
