/** Canvas sizing and tile-count planning: how many pixels the requested area
    needs at the chosen resolution, and how many fixed-size tiles cover them. */
module Planning {
  import Resolution

  /** Side of one square tile in pixels. */
  const TileSize: nat := 640

  /** The least integer not below `x`. */
  function Ceil(x: real): (n: int)
    ensures x <= n as real < x + 1.0
  {
    -((-x).Floor)
  }

  /** `Ceil(x)` is the only integer in the half-open interval `[x, x + 1)`. */
  lemma CeilUnique(x: real, n: int)
    requires x <= n as real < x + 1.0
    ensures n == Ceil(x)
  {
  }

  /** A product of a positive and a non-negative factor. */
  lemma MulNonneg(d: real, m: real)
    requires d >= 0.0 && m > 0.0
    ensures d * m >= 0.0
  {
  }

  /** A product of two positive factors. */
  lemma MulPos(d: real, m: real)
    requires d > 0.0 && m > 0.0
    ensures d * m > 0.0
  {
  }

  /** A value at or above the quotient `q == meters / m`, scaled back by
      `m`, reaches `meters`. */
  lemma ScaledAbove(meters: real, m: real, q: real, n: real)
    requires m > 0.0 && q * m == meters && q <= n
    ensures n * m >= meters
  {
    MulNonneg(n - q, m);
  }

  /** A value below `q + 1`, with `q == meters / m`, less one and scaled back
      by `m`, stays below `meters`. */
  lemma ScaledBelow(meters: real, m: real, q: real, n: real)
    requires m > 0.0 && q * m == meters && n < q + 1.0
    ensures (n - 1.0) * m < meters
  {
    MulPos(q - (n - 1.0), m);
  }

  /** The ceiling of a quotient by a positive divisor, multiplied back,
      reaches the dividend and overshoots it by less than one divisor. */
  lemma CeilQuotient(meters: real, mpp: real)
    requires mpp > 0.0
    ensures Ceil(meters / mpp) as real * mpp >= meters
    ensures (Ceil(meters / mpp) as real - 1.0) * mpp < meters
  {
    var q := meters / mpp;
    assert q * mpp == meters;
    ScaledAbove(meters, mpp, q, Ceil(q) as real);
    ScaledBelow(meters, mpp, q, Ceil(q) as real);
  }

  /** Canvas side in pixels for a side of `meters` metres at `mpp` metres per
      pixel: the ceiling of the quotient. */
  function CanvasSize(meters: real, mpp: real): (px: nat)
    requires meters >= 0.0 && mpp > 0.0
    ensures px as real * mpp >= meters
    ensures (px as real - 1.0) * mpp < meters
  {
    CeilQuotient(meters, mpp);
    Ceil(meters / mpp)
  }

  /** The canvas is the least pixel count whose span covers the side. */
  lemma CanvasSizeIsLeast(meters: real, mpp: real, n: int)
    requires meters >= 0.0 && mpp > 0.0
    ensures n as real * mpp >= meters <==> n >= CanvasSize(meters, mpp)
  {
    var px := CanvasSize(meters, mpp);
    if n >= px {
      MulNonneg(n as real - px as real, mpp);
    } else {
      MulNonneg(px as real - 1.0 - n as real, mpp);
    }
  }

  /** Number of tiles along a side of `px` pixels: the ceiling of the real
      quotient `px / TileSize`. */
  function TileCount(px: nat): (n: nat)
    ensures n * TileSize >= px
    ensures (n - 1) * TileSize < px
  {
    var q := px as real / TileSize as real;
    var c := Ceil(q);
    assert c as real * 640.0 >= px as real;
    assert (c as real - 1.0) * 640.0 < px as real;
    c
  }

  /** The tile count is the least number of tiles that reaches the side. */
  lemma TileCountIsLeast(px: nat, n: int)
    ensures n * TileSize >= px <==> n >= TileCount(px)
  {
  }

  /** The tile count agrees with integer ceiling division. */
  lemma TileCountIsCeilDiv(px: nat)
    ensures TileCount(px) == (px + TileSize - 1) / TileSize
  {
    var n := TileCount(px);
    var d := (px + TileSize - 1) / TileSize;
    assert d * TileSize >= px && (d - 1) * TileSize < px;
    TileCountIsLeast(px, d);
    TileCountIsLeast(px, n as int - 1);
  }

  /** No tiles are planned exactly when the side is empty. */
  lemma TileCountZero(px: nat)
    ensures TileCount(px) == 0 <==> px == 0
  {
  }

  /** Distance in metres from a tile's corner to its centre at `mpp` metres
      per pixel: half the diagonal of a square tile. */
  function HalfDiagonal(mpp: real, sqrtTwo: real): (d: real)
    requires mpp > 0.0 && 1.414 < sqrtTwo < 1.415
    ensures 0.707 * (TileSize as real * mpp) < d < 0.7075 * (TileSize as real * mpp)
  {
    var step := TileSize as real * mpp;
    var d := sqrtTwo * TileSize as real * mpp / 2.0;
    assert d == sqrtTwo / 2.0 * step;
    MulPos(sqrtTwo / 2.0 - 0.707, step);
    MulPos(0.7075 - sqrtTwo / 2.0, step);
    assert d < 0.7075 * step;
    assert 0.707 * step < d;
    d
  }

  /** The fixed quantities derived once from the area and the zoom level. */
  datatype GridPlan = GridPlan(
    meterPerPixel: real,
    width: nat,
    height: nat,
    tilesX: nat,
    tilesY: nat,
    stepDistance: real,
    diagonal: real)

  /** The plan for an area of `widthMeters` by `heightMeters`, as measured by
      the geodesic inverse problem, at `zoom` with cosine factor `cosLat` of the
      upper-left latitude; `sqrtTwo` is the floating-point square root of two. */
  function Plan(zoom: int, cosLat: real, widthMeters: real, heightMeters: real, sqrtTwo: real): (p: GridPlan)
    requires cosLat > 0.0 && widthMeters >= 0.0 && heightMeters >= 0.0
    requires 1.414 < sqrtTwo < 1.415
    ensures p.meterPerPixel == Resolution.MeterPerPixel(zoom, cosLat) && p.meterPerPixel > 0.0
    ensures p.width as real * p.meterPerPixel >= widthMeters
    ensures (p.width as real - 1.0) * p.meterPerPixel < widthMeters
    ensures p.height as real * p.meterPerPixel >= heightMeters
    ensures (p.height as real - 1.0) * p.meterPerPixel < heightMeters
    ensures p.tilesX * TileSize >= p.width && (p.tilesX - 1) * TileSize < p.width
    ensures p.tilesY * TileSize >= p.height && (p.tilesY - 1) * TileSize < p.height
    ensures p.stepDistance == TileSize as real * p.meterPerPixel
    ensures 0.707 * p.stepDistance < p.diagonal < 0.7075 * p.stepDistance
  {
    var mpp := Resolution.MeterPerPixel(zoom, cosLat);
    var width := CanvasSize(widthMeters, mpp);
    var height := CanvasSize(heightMeters, mpp);
    GridPlan(mpp, width, height, TileCount(width), TileCount(height),
             TileSize as real * mpp, HalfDiagonal(mpp, sqrtTwo))
  }
}
