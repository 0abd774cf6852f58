/**
 * The coordinate values the map screens pass around.
 *
 * A `Coordinate` is a point the user picked: on the map, by geolocation or
 * from an address. Its latitude and longitude are micro-degree counts.
 * A `DecodedPoint` is what the boundary decoder builds from stored text; its
 * fields are whatever `Number(...)` gave, so they may be NaN or `undefined`.
 */
module Geo {
  import opened JsNumber

  datatype Coordinate = Coordinate(latitude: int, longitude: int)

  datatype DecodedPoint = DecodedPoint(latitude: JsNum, longitude: JsNum)

  /** The decoded form of a coordinate whose numbers survived the trip intact. */
  function Lift(c: Coordinate): (p: DecodedPoint)
    ensures p.latitude.Finite? && p.longitude.Finite?
  {
    DecodedPoint(Finite(Degrees(c.latitude)), Finite(Degrees(c.longitude)))
  }

  function LiftAll(b: seq<Coordinate>): (r: seq<DecodedPoint>)
    ensures |r| == |b|
    ensures forall k :: 0 <= k < |b| ==> r[k] == Lift(b[k])
  {
    seq(|b|, k requires 0 <= k < |b| => Lift(b[k]))
  }

  /** Different boundaries never decode to the same points. */
  lemma LiftAllInjective(a: seq<Coordinate>, b: seq<Coordinate>)
    requires LiftAll(a) == LiftAll(b)
    ensures a == b
  {
    assert |a| == |b|;
    forall k | 0 <= k < |a|
      ensures a[k] == b[k]
    {
      assert Lift(a[k]) == Lift(b[k]);
    }
  }
}
