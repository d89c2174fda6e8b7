/**
 * What the interlink computation needs from a satellite: its position at a
 * given instant. The orbit propagator that produces it and the distance
 * formula between two positions are foreign, floating-point code, so both
 * enter the model as arbitrary total functions supplied by the caller.
 */
module Satellite {

  /** A satellite's sub-point and height at one instant, as `get_position`
      reports it: latitude and longitude in degrees, altitude in km,
      azimuth in degrees. */
  datatype Position = Position(lat: real, lon: real, altitude: real, azimuth: real)

  /** The position of one satellite as a function of time (whole seconds). */
  type PositionAt = int -> Position

  /** The distance in km between two positions (the haversine formula of
      `calculate_distance`); only its determinism matters here. */
  type DistanceFn = (Position, Position) -> real

  /** Sampling step the HTTP handler uses, in seconds. */
  const DefaultTimeStep: int := 300

  /** Largest separation, in km, at which two satellites are taken to be
      able to communicate. */
  const MaxRangeKm: real := 1000.0

  /** Below this altitude (km) a satellite counts as low. */
  const LowAltitudeKm: real := 100.0

  /** Separation (km) beyond which the Earth blocks a link that involves a
      low satellite. */
  const LowOrbitMaxDistanceKm: real := 2000.0
}
