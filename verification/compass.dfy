/**
 * The global state of app.js (`userLat`, `userLon`, `userHeading`,
 * `signLat`, `signLon`) and the two handlers that update it: the success
 * branch of `fetchSign`, which replaces the target sign, and
 * `handleOrientation`, which records the heading and turns the needle.
 *
 * A global that is still `undefined` is `None`. The needle's CSS rotation is
 * kept as the field `needle`: the angle last handed to `rotateNeedle`.
 */
module Compass {
  import opened Wrappers
  import opened GeoMath
  import opened Selection

  /** JavaScript truthiness of a number-or-undefined: defined and not 0 (NaN is not modelled). */
  predicate Truthy(x: Option<real>): (b: bool)
    ensures b ==> x.Some?
    ensures x == Some(0.0) ==> !b
    ensures x.Some? && x.value != 0.0 ==> b
  {
    x.Some? && x.value != 0.0
  }

  /**
   * The target the response handler of `fetchSign` adopts: the centre of the
   * selected way, or None when the response is empty or no way lies within
   * the cone around the heading the request was made with. Of equally
   * good ways, the first in the response is adopted.
   */
  function ResponseTarget(elements: seq<Way>, lat: real, lon: real, heading: real, az: Azimuth): (t: Option<Point>)
    ensures t.None? <==> forall w :: w in elements ==> Cone <= SignDeviation(lat, lon, heading, az, w)
    ensures t.Some? ==>
      exists w :: w in elements && w.center == t.value && SignDeviation(lat, lon, heading, az, w) < Cone &&
        (forall v :: v in elements && SignDeviation(lat, lon, heading, az, v) < Cone ==>
           SignDeviation(lat, lon, heading, az, w) <= SignDeviation(lat, lon, heading, az, v))
    ensures t.Some? ==>
      exists k :: 0 <= k < |elements| && elements[k].center == t.value &&
        IsFirstBest(Deviations(elements, lat, lon, heading, az), k)
  {
    SelectedSpec(elements, lat, lon, heading, az);
    if |elements| > 0 then
      match Selected(elements, lat, lon, heading, az)
      case None => None
      case Some(w) => Some(w.center)
    else
      None
  }

  /**
   * The rotation `handleOrientation` hands to the needle: present only when
   * both the user's and the sign's latitude are truthy, and then the bearing
   * to the sign seen from the heading, so that turning the needle by it and
   * then by the heading points along the bearing.
   */
  function NeedleRotation(userLat: Option<real>, userLon: Option<real>, signLat: Option<real>, signLon: Option<real>,
                          heading: real, az: Azimuth): (r: Option<real>)
    requires userLat.Some? ==> userLon.Some?
    requires signLat.Some? ==> signLon.Some?
    ensures r.Some? <==> Truthy(userLat) && Truthy(signLat)
    ensures r.Some? ==> r.value + heading == CalcBearing(az, userLat.value, userLon.value, signLat.value, signLon.value)
  {
    if Truthy(userLat) && Truthy(signLat) then
      Some(CalcBearing(az, userLat.value, userLon.value, signLat.value, signLon.value) - heading)
    else
      None
  }

  /**
   * With a compass heading in [0, 360) and an azimuth atan2 can produce, the
   * rotation stays strictly within one turn either way; it is not normalised.
   */
  lemma NeedleWithinOneTurn(userLat: Option<real>, userLon: Option<real>, signLat: Option<real>, signLon: Option<real>,
                            heading: real, az: Azimuth)
    requires userLat.Some? && userLon.Some? && signLat.Some? && signLon.Some?
    requires 0.0 <= heading < FullTurn
    requires -180.0 <= az(userLat.value, userLon.value, signLat.value, signLon.value) <= 180.0
    ensures var r := NeedleRotation(userLat, userLon, signLat, signLon, heading, az);
      r.Some? ==> -FullTurn < r.value < FullTurn
  {
  }

  /**
   * With `alpha` 270 and a sign at bearing 0 the rotation handed to the
   * needle is -270, the same dial position as a quarter turn clockwise.
   */
  lemma NeedleAlpha270BearingNorth()
    ensures NeedleRotation(Some(48.0), Some(11.0), Some(49.0), Some(11.0), 270.0, (a, b, c, d) => 0.0) == Some(-270.0)
  {
  }

  /**
   * Truthiness makes latitude 0 count as "no position": a user or a sign
   * exactly on the equator never turns the needle.
   */
  lemma EquatorMeansNoNeedle(userLat: Option<real>, userLon: real, signLat: Option<real>, signLon: real,
                             heading: real, az: Azimuth)
    ensures NeedleRotation(Some(0.0), Some(userLon), signLat, Some(signLon), heading, az) == None
    ensures NeedleRotation(userLat, Some(userLon), Some(0.0), Some(signLon), heading, az) == None
  {
  }

  /**
   * The needle's sign convention: with `alpha` 90 and a sign at bearing 0
   * the rotation handed to the needle is -90, a quarter turn anticlockwise
   * on the dial.
   */
  lemma NeedleAlpha90BearingNorth()
    ensures NeedleRotation(Some(48.0), Some(11.0), Some(49.0), Some(11.0), 90.0, (a, b, c, d) => 0.0) == Some(-90.0)
  {
  }

  /** The globals of app.js. */
  class State {
    var userLat: Option<real>
    var userLon: Option<real>
    var userHeading: Option<real>
    var signLat: Option<real>
    var signLon: Option<real>
    /** The angle most recently passed to `rotateNeedle`, if any. */
    var needle: Option<real>

    /** Each coordinate pair is assigned together, so its halves are defined together. */
    ghost predicate Valid()
      reads this
    {
      && (userLat.Some? <==> userLon.Some?)
      && (signLat.Some? <==> signLon.Some?)
    }

    /** Page load: every global is `undefined` and the needle has not been turned. */
    constructor ()
      ensures Valid()
      ensures userLat == None && userLon == None && userHeading == None
      ensures signLat == None && signLon == None && needle == None
    {
      userLat, userLon, userHeading := None, None, None;
      signLat, signLon := None, None;
      needle := None;
    }

    /** The position part of `updatePosition`: both coordinates are replaced. */
    method UpdatePosition(lat: real, lon: real)
      requires Valid()
      modifies this`userLat, this`userLon
      ensures Valid()
      ensures userLat == Some(lat) && userLon == Some(lon)
    {
      userLat := Some(lat);
      userLon := Some(lon);
    }

    /**
     * The success branch of `fetchSign`, for the position and heading the
     * request was made with. The target is replaced only when a sign is
     * selected; otherwise the last target is kept. Nothing else changes.
     */
    method HandleResponse(elements: seq<Way>, lat: real, lon: real, heading: real, az: Azimuth)
      requires Valid()
      modifies this`signLat, this`signLon
      ensures Valid()
      ensures var t := ResponseTarget(elements, lat, lon, heading, az);
        if t.Some? then signLat == Some(t.value.lat) && signLon == Some(t.value.lon)
        else signLat == old(signLat) && signLon == old(signLon)
    {
      if |elements| > 0 {
        var nextSign := FindNextSignInDirection(elements, lat, lon, heading, az);
        if nextSign.Some? {
          signLat := Some(nextSign.value.center.lat);
          signLon := Some(nextSign.value.center.lon);
        }
      }
    }

    /**
     * `handleOrientation`: the heading is always recorded; the needle is
     * turned only when both a position and a target are known (truthy), and
     * is otherwise left as it was.
     */
    method HandleOrientation(alpha: real, az: Azimuth)
      requires Valid()
      modifies this`userHeading, this`needle
      ensures Valid()
      ensures userHeading == Some(alpha)
      ensures var rotation := NeedleRotation(userLat, userLon, signLat, signLon, alpha, az);
        needle == if rotation.Some? then rotation else old(needle)
    {
      userHeading := Some(alpha);
      if Truthy(userLat) && Truthy(signLat) {
        var bearing := CalcBearing(az, userLat.value, userLon.value, signLat.value, signLon.value);
        var rotation := bearing - alpha;
        needle := Some(rotation);
      }
    }
  }
}
