# Tile-mosaic planner

A Dafny model of the planning core of `GoogleMapDownloader`, which stitches a
satellite mosaic of a rectangular area out of 640 by 640 pixel map tiles. The
model covers four parts:

- **Resolution** (`resolution.dfy`). Metres per pixel at a zoom level is
  `156543.03392 * cos(lat) / 2^zoom`. The cosine of the upper-left latitude is
  an opaque real factor `cosLat`. `2^zoom` is an exact real for every integer
  zoom. The code has no zoom check of its own; it fails only where the
  floating-point power does (see "## Left out").
- **Planning** (`planning.dfy`). The canvas is the ceiling of the measured
  width and height in metres divided by the resolution. The tile counts are
  the ceiling of the canvas size divided by the 640-pixel tile. The plan also
  holds the step distance between tile centres and the half-diagonal from the
  corner to the first centre.
- **Traversal** (`traversal.dfy`). The loop visits `nx * ny` tiles with a
  1-based counter. Each visit fetches the tile centred at the geographic
  cursor and pastes it at the pixel offset `(x, y)`. After every `nx`-th tile
  the cursor steps south from the first tile's longitude and the current
  latitude, x resets to 0 and y grows by one tile. Otherwise the cursor steps
  east and x grows by one tile.
- **Mosaic** (`mosaic.dfy`). Plan, then traverse, and show that every canvas
  pixel is covered by exactly one pasted tile.

The geodesic forward problem `Direct(lat, lon, azimuth, distance)` is a
function-valued parameter (`geo.dfy`). Every call to it is recorded, in
order, so the contracts can say which point each step starts from. A
`TileVisit` records one iteration: the centre the tile was fetched at and
the offset it was pasted at.

Details of the code that the model follows:

- On a row change, the code restarts from the first tile's longitude and the
  *current cursor's* latitude (`googleMapDownloader.py:77-78`), not from the
  previous row's start point.
- The code steps the cursor after every tile, including the last one. That
  makes `nx * ny + 1` calls to the solver in all.
- The code has no checks of its own on the zoom level, the area or the grid
  size, so the model has no such errors. An empty area gives a 0-pixel
  canvas, zero tiles and a loop that does not run.
- The resolutions in the comment next to the entry point (zoom 16 at 1.4689
  and zoom 17 at 0.7345 m/px) hold for a latitude near 52.05 degrees.
  `Resolution.NotedResolutions` states this. That latitude is the
  commented-out second area, not the active area at 50.07 degrees, which
  gives about 0.7666 m/px at zoom 17.

## Model

| member | source | states |
|---|---|---|
| Resolution.Pow2 | googleMapDownloader.py:26 | `2^zoom` is positive for every integer zoom, and at least 1 for a non-negative zoom |
| Resolution.MeterPerPixel | googleMapDownloader.py:26 | the resolution is positive exactly when the cosine factor is positive, and at zoom 0 or finer it is at most the base resolution times that factor |
| Resolution.ZoomHalvesResolution | googleMapDownloader.py:26 | one more zoom level exactly halves metres per pixel, at any latitude and any integer zoom |
| Resolution.ZoomShift | googleMapDownloader.py:26 | `k` more zoom levels divide metres per pixel by exactly `2^k` |
| Resolution.ZoomMonotone | googleMapDownloader.py:26 | at a positive cosine factor, a finer zoom always gives a strictly smaller resolution |
| Resolution.NotedResolutions | googleMapDownloader.py:94-95 | for a cosine factor in [0.61496, 0.61497], zoom 16 gives 1.4689 to 1.4690 m/px and zoom 17 gives 0.73445 to 0.73450 m/px, matching the noted values |
| Planning.Ceil | googleMapDownloader.py:46-47 | the ceiling of a real lies in `[x, x + 1)` |
| Planning.CeilUnique | googleMapDownloader.py:46-47 | any integer in `[x, x + 1)` is the ceiling, so the ceiling is unique |
| Planning.CeilQuotient | googleMapDownloader.py:46-47 | the ceiling of `meters / mpp`, multiplied back by `mpp`, reaches `meters` and overshoots it by less than one pixel's span |
| Planning.CanvasSize | googleMapDownloader.py:46-47 | the canvas side `px` covers the side in metres (`px * mpp >= meters`) with no spare pixel (`(px - 1) * mpp < meters`) |
| Planning.CanvasSizeIsLeast | googleMapDownloader.py:46-47 | an integer span covers the side in metres if and only if it is at least the canvas side |
| Planning.TileCount | googleMapDownloader.py:53-54 | the tile grid never undershoots the canvas (`n * 640 >= px`) and has no spare column or row (`(n - 1) * 640 < px`) |
| Planning.TileCountIsLeast | googleMapDownloader.py:53-54 | a tile count reaches the canvas side if and only if it is at least the planned count |
| Planning.TileCountIsCeilDiv | googleMapDownloader.py:53-54 | the ceiling of the real quotient equals integer ceiling division `(px + 639) / 640` |
| Planning.TileCountZero | googleMapDownloader.py:53-54 | no tiles are planned exactly when the canvas side is empty |
| Planning.HalfDiagonal | googleMapDownloader.py:57 | the corner-to-centre distance lies between 0.707 and 0.7075 of one tile's span in metres |
| Planning.Plan | googleMapDownloader.py:43-58 | the derived plan has the resolution of the zoom and latitude factor, which is positive, least covering canvas sides, least covering tile counts, a step of one tile's span and a half-diagonal of about 0.707 steps |
| Traversal.RowMajorStep | googleMapDownloader.py:75-88 | after a tile whose 1-based index is a multiple of `nx`, x resets to 0 and y grows by exactly 640; otherwise x grows by 640 and y is unchanged |
| Traversal.OffsetInGrid | googleMapDownloader.py:63-88 | every tile of an `nx` by `ny` grid is pasted at `0 <= x <= (nx - 1) * 640` and `0 <= y <= (ny - 1) * 640` |
| Traversal.OffsetRoundTrip | googleMapDownloader.py:73 | the tile index of the pixel at a tile's offset is that tile's index, so offsets decode back to indices |
| Traversal.OffsetsDistinct | googleMapDownloader.py:73 | no two tiles share a paste offset |
| Traversal.CoversExactly | googleMapDownloader.py:73 | inside the grid's width, a pixel lies in tile `k`'s square if and only if `k` is the pixel's tile index |
| Traversal.TwoByTwoOffsets | googleMapDownloader.py:63-88 | in a 2 by 2 grid, the four tiles are pasted at (0,0), (640,0), (0,640), (640,640) in fetch order |
| Traversal.Traverse | googleMapDownloader.py:60-88 | the loop makes `nx * ny` visits and `nx * ny + 1` solver calls; the first call goes from the upper-left corner at 135 degrees by the half-diagonal; each tile is fetched where the previous call landed; a row step goes south from the first tile's longitude and the current latitude; a column step goes east from the current tile; tile `k` (0-based) is pasted at `((k mod nx) * 640, (k div nx) * 640)`, inside the grid, at an offset no other tile uses |
| Mosaic.CanvasCovered | googleMapDownloader.py:51-73 | with a grid that reaches the canvas edges, every canvas pixel lies in the square of exactly one pasted tile |
| Mosaic.GenerateImage | googleMapDownloader.py:37-90 | the generator plans the grid and makes `tilesX * tilesY` visits; the first solver call goes from the upper-left corner at 135 degrees by the plan's half-diagonal; each tile is fetched where the previous call landed; row steps go south from the first tile's longitude and column steps go east, by the plan's step distance; tile `k` is pasted at its row-major offset; every pixel of the canvas is covered by exactly one tile |

## Left out

- The geodesic inverse and forward problems on the WGS84 ellipsoid (`googleMapDownloader.py:40-41`, `:60`, `:78`, `:85`) are floating-point library code. The measured width and height come in as non-negative reals. The forward problem is an arbitrary function parameter.
- `math.cos` and `math.sqrt` are transcendental floating-point functions. The cosine of the upper-left latitude comes in as a positive real factor. The square root of two comes in as a real between 1.414 and 1.415.
- Floating-point arithmetic is modelled as exact real arithmetic. A rounding error in the quotient before a ceiling can change a canvas or tile count by one in the program; the model does not capture that.
- Planning.HalfDiagonal: states that the distance lies between 0.707 and 0.7075 of one tile's span, not the exact `sqrt(2) / 2`, because the square root is an opaque parameter.
- The network fetch is left out: URL building, `urllib.urlretrieve`, the temporary tile file and the half-second delay (`googleMapDownloader.py:20`, `:29-35`). A fetch is recorded only as the centre it asks for.
- Image handling is left out: `Image.new`, `Image.open`, `paste`, `os.remove` and `save` (`googleMapDownloader.py:51`, `:71-74`, `:114`). A paste is recorded only as its offset. Clipping of tiles that overhang the canvas is not modelled.
- Resolution.Pow2: `math.pow(2, zoom)` raises `OverflowError` for a zoom of 1024 or more, and returns 0.0 for a zoom of -1075 or less, so that the division on line 26 raises `ZeroDivisionError`. The model uses exact reals and has neither failure.
- Traversal.Traverse: its count of exactly `nx * ny` visits assumes that every tile fetch and every `Image.open` succeeds (`googleMapDownloader.py:70-71`). An `IOError` there aborts the loop partway through, and the model, including `Mosaic.GenerateImage`, does not represent that abort.
- Mosaic.CanvasCovered: assumes every pasted image is exactly 640 by 640 pixels, the size requested in the URL on `googleMapDownloader.py:20`. A provider that returns another size is not modelled.
- The entry point is left out: `main`, its hard-coded coordinates, the `IOError` handler and all console output (`googleMapDownloader.py:92-118`).
