/** Ground resolution of a map tile: metres per pixel at a zoom level and a
    reference latitude, `156543.03392 * cos(lat) / 2^zoom`. The cosine of the
    latitude is an opaque real factor. */
module Resolution {

  /** Metres per pixel at zoom 0 on the equator. */
  const BaseResolution: real := 156543.03392

  /** `2^zoom` as a real, for every integer zoom (a negative zoom gives a
      fraction, as a floating-point power does). */
  function Pow2(zoom: int): (r: real)
    ensures r > 0.0
    ensures zoom >= 0 ==> r >= 1.0
    decreases if zoom >= 0 then zoom else -zoom
  {
    if zoom == 0 then 1.0
    else if zoom > 0 then 2.0 * Pow2(zoom - 1)
    else Pow2(zoom + 1) / 2.0
  }

  /** Metres per pixel for `zoom` where the cosine of the reference latitude
      is `cosLat`. No zoom is rejected. */
  function MeterPerPixel(zoom: int, cosLat: real): (mpp: real)
    ensures mpp > 0.0 <==> cosLat > 0.0
    ensures zoom >= 0 && cosLat > 0.0 ==> mpp <= BaseResolution * cosLat
  {
    BaseResolution * cosLat / Pow2(zoom)
  }

  /** One zoom level more doubles the power of two, for negative zooms too. */
  lemma Pow2Succ(zoom: int)
    ensures Pow2(zoom + 1) == 2.0 * Pow2(zoom)
  {
  }

  /** Raising the zoom by one halves the ground resolution exactly. */
  lemma ZoomHalvesResolution(zoom: int, cosLat: real)
    ensures MeterPerPixel(zoom + 1, cosLat) == MeterPerPixel(zoom, cosLat) / 2.0
  {
    Pow2Succ(zoom);
    HalveQuotient(BaseResolution * cosLat, Pow2(zoom));
  }

  /** Doubling a positive divisor halves the quotient. */
  lemma HalveQuotient(a: real, p: real)
    requires p > 0.0
    ensures a / (2.0 * p) == (a / p) / 2.0
  {
  }

  /** A positive value is below any multiple `b` of it by two or more. */
  lemma BelowMultiple(a: real, p: real, b: real)
    requires a > 0.0 && p >= 2.0 && a * p == b
    ensures a < b
  {
    assert a * p == a + a * (p - 1.0);
    assert a * (p - 1.0) > 0.0;
  }

  /** Raising the zoom by `k` levels divides the resolution by `2^k`. */
  lemma {:induction false} ZoomShift(zoom: int, k: nat, cosLat: real)
    ensures MeterPerPixel(zoom + k, cosLat) * Pow2(k) == MeterPerPixel(zoom, cosLat)
    decreases k
  {
    if k > 0 {
      ZoomShift(zoom, k - 1, cosLat);
      ZoomHalvesResolution(zoom + k - 1, cosLat);
    }
  }

  /** At a positive cosine factor, a finer zoom always has a strictly smaller
      ground resolution. */
  lemma ZoomMonotone(zoom: int, k: nat, cosLat: real)
    requires k > 0 && cosLat > 0.0
    ensures MeterPerPixel(zoom + k, cosLat) < MeterPerPixel(zoom, cosLat)
  {
    ZoomShift(zoom, k, cosLat);
    var fine, p := MeterPerPixel(zoom + k, cosLat), Pow2(k);
    assert p >= 2.0 by { Pow2Succ(k - 1); }
    BelowMultiple(fine, p, MeterPerPixel(zoom, cosLat));
  }

  /** The resolutions noted next to the entry point, zoom 16 at about 1.4689
      and zoom 17 at about 0.7345 m/px, hold for a cosine factor near
      0.614962, that is a reference latitude near 52.05 degrees. */
  lemma NotedResolutions(cosLat: real)
    requires 0.61496 <= cosLat <= 0.61497
    ensures 1.4689 <= MeterPerPixel(16, cosLat) <= 1.4690
    ensures 0.73445 <= MeterPerPixel(17, cosLat) <= 0.73450
  {
    assert Pow2(4) == 16.0;
    assert Pow2(8) == 256.0 by { ZoomShift(4, 4, 1.0); }
    assert Pow2(16) == 65536.0 by { ZoomShift(8, 8, 1.0); }
    assert MeterPerPixel(16, cosLat) == BaseResolution * cosLat / 65536.0;
    ZoomHalvesResolution(16, cosLat);
  }
}
