/** Geographic points and the geodesic "Direct" problem, kept abstract.

    The mosaic planner never computes ellipsoid geometry itself: it asks a
    geodesic solver for the point reached from a start point along an azimuth
    over a distance. That solver is a parameter here, and every question put to
    it is recorded as a `DirectCall`, so that the traversal can state which
    point each step starts from. */
module Geo {

  /** A latitude/longitude pair in decimal degrees. */
  datatype GeoPoint = GeoPoint(lat: real, lon: real)

  /** One question put to the geodesic solver: start latitude and longitude,
      azimuth in degrees clockwise from north, and distance in metres. */
  datatype DirectCall = DirectCall(lat: real, lon: real, azimuth: real, distance: real)

  /** The WGS84 forward geodesic problem, `(lat1, lon1, azi1, s12) -> (lat2, lon2)`. */
  type DirectSolver = (real, real, real, real) -> GeoPoint

  /** Azimuths used by the traversal. */
  const East: real := 90.0
  const SouthEast: real := 135.0
  const South: real := 180.0

  /** The point the solver returns for a recorded call. */
  function Land(direct: DirectSolver, call: DirectCall): GeoPoint
  {
    direct(call.lat, call.lon, call.azimuth, call.distance)
  }
}
