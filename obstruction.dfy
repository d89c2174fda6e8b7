/**
 * The Earth-obstruction heuristic: a link is blocked only when one of the
 * two satellites is low and they are far apart.
 */
module Obstruction {
  import opened Satellite

  /** True when the Earth is taken to block the line of sight from `p1`
      to `p2`. */
  function CheckEarthObstruction(p1: Position, p2: Position, dist: DistanceFn): (blocked: bool)
    ensures blocked <==>
              (p1.altitude < LowAltitudeKm || p2.altitude < LowAltitudeKm)
              && dist(p1, p2) > LowOrbitMaxDistanceKm
    // the two ways a link is never blocked
    ensures p1.altitude >= LowAltitudeKm && p2.altitude >= LowAltitudeKm ==> !blocked
    ensures dist(p1, p2) <= LowOrbitMaxDistanceKm ==> !blocked
  {
    var distance := dist(p1, p2);
    if p1.altitude < LowAltitudeKm || p2.altitude < LowAltitudeKm then
      var maxDistance := LowOrbitMaxDistanceKm;
      if distance > maxDistance then true else false
    else
      false
  }

  /** The sampling loop's acceptance test: not obstructed and within range. */
  function CanLink(p1: Position, p2: Position, dist: DistanceFn): (ok: bool)
    // the obstruction test never rejects a pair that is within range,
    // so acceptance depends on the distance alone
    ensures ok <==> dist(p1, p2) <= MaxRangeKm
  {
    !CheckEarthObstruction(p1, p2, dist) && dist(p1, p2) <= MaxRangeKm
  }
}
