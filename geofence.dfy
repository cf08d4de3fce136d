/**
 * The geofence gate of the attendance screen. The great-circle distance
 * itself is floating-point trigonometry and is not modelled: callers hand
 * the distance in metres to the model as a `real`.
 */
module Geofence {

  /** A latitude/longitude pair as reported by the position provider. */
  datatype Coordinate = Coordinate(latitude: real, longitude: real)

  /** The construction site every distance is measured from. */
  const Site: Coordinate := Coordinate(17.4221891, 78.3819498)

  /** Clock-in is allowed up to this many metres from the site, inclusive. */
  const RadiusMeters: real := 100.0

  /** The gate of `handleClockIn`: the radius itself still counts as on site. */
  predicate WithinRadius(distance: real): (within: bool)
    ensures distance < RadiusMeters ==> within
    ensures distance == RadiusMeters ==> within
    ensures distance > RadiusMeters ==> !within
  {
    distance <= RadiusMeters
  }

  /**
   * JavaScript's `Math.round`: the nearest integer, halves rounded up
   * (towards positive infinity).
   */
  function RoundHalfUp(x: real): (r: int)
    ensures x - 0.5 < r as real <= x + 0.5
  {
    (x + 0.5).Floor
  }

  /** A rejected distance is never shown as less than the radius. */
  lemma RejectedDistanceShownAtLeastRadius(distance: real)
    requires !WithinRadius(distance)
    ensures RoundHalfUp(distance) >= 100
  {
  }

  /**
   * Rounding hides how close the rejection was: a worker 100.25 m away is
   * refused and told they are "100m away", the radius itself.
   */
  lemma RejectedDistanceCanBeShownAsRadius()
    ensures !WithinRadius(100.25) && RoundHalfUp(100.25) == 100
  {
  }
}
