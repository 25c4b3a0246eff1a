/**
 * `findNextSignInDirection` in app.js: among the motorway ways returned by
 * the map query, pick the one whose bearing from the user deviates least
 * from the current heading, provided that deviation is under 90 degrees.
 *
 * The selection is written twice: `Best` is a reference definition by
 * recursion from the front of the list, characterised by `IsFirstBest`;
 * `FindNextSignInDirection` is the source's forward loop with its running
 * minimum, proved to agree with it.
 */
module Selection {
  import opened Wrappers
  import opened GeoMath

  /** The `center` Overpass reports for a way (`out center`). */
  datatype Point = Point(lat: real, lon: real)

  /** One element of the Overpass response: a motorway way without a speed limit. */
  datatype Way = Way(center: Point)

  /** A sign is eligible only if its deviation is strictly below this many degrees. */
  const Cone: real := 90.0

  /** Initial value of the running minimum `smallestAngleDiff`. */
  const InitialAngleDiff: real := 360.0

  /** `Math.abs(heading - signBearing)`: a plain absolute difference, with no wrap-around. */
  function Deviation(heading: real, bearing: real): (d: real)
    ensures 0.0 <= d
    ensures d == heading - bearing || d == bearing - heading
  {
    if heading >= bearing then heading - bearing else bearing - heading
  }

  /** The deviation of one way's centre, as seen from the user's position. */
  function SignDeviation(userLat: real, userLon: real, heading: real, az: Azimuth, w: Way): (d: real)
    ensures 0.0 <= d
    ensures 0.0 <= heading < FullTurn && -180.0 <= az(userLat, userLon, w.center.lat, w.center.lon) <= 180.0 ==>
      d < InitialAngleDiff
  {
    Deviation(heading, CalcBearing(az, userLat, userLon, w.center.lat, w.center.lon))
  }

  /** The deviation of every way, in response order. */
  function Deviations(signs: seq<Way>, userLat: real, userLon: real, heading: real, az: Azimuth): (d: seq<real>)
  {
    seq(|signs|, i requires 0 <= i < |signs| => SignDeviation(userLat, userLon, heading, az, signs[i]))
  }

  /**
   * k is the selected position: eligible, no eligible deviation is smaller,
   * and every earlier position is ineligible or strictly worse (first wins).
   */
  ghost predicate IsFirstBest(d: seq<real>, k: int)
  {
    && 0 <= k < |d|
    && d[k] < Cone
    && (forall j :: 0 <= j < |d| && d[j] < Cone ==> d[k] <= d[j])
    && (forall j :: 0 <= j < k ==> Cone <= d[j] || d[k] < d[j])
  }

  /**
   * Reference selection, by recursion from the front: the head wins unless
   * it is ineligible or the best of the tail is strictly better.
   */
  function Best(d: seq<real>): (r: Option<nat>)
    ensures r.Some? ==> r.value < |d| && d[r.value] < Cone
  {
    if |d| == 0 then None
    else
      var rest := Best(d[1..]);
      if d[0] < Cone && (rest.None? || d[0] <= d[rest.value + 1]) then Some(0)
      else match rest
        case None => None
        case Some(k) => Some(k + 1)
  }

  /** Nothing is selected exactly when nothing is eligible; otherwise the selection is the first best. */
  lemma {:induction false} BestSpec(d: seq<real>)
    ensures Best(d).None? <==> forall i :: 0 <= i < |d| ==> Cone <= d[i]
    ensures Best(d).Some? ==> IsFirstBest(d, Best(d).value)
  {
    if |d| > 0 {
      var tail := d[1..];
      BestSpec(tail);
      assert forall j :: 1 <= j < |d| ==> d[j] == tail[j - 1];
    }
  }

  /** At most one position is the first best. */
  lemma FirstBestUnique(d: seq<real>, k: int, k': int)
    requires IsFirstBest(d, k) && IsFirstBest(d, k')
    ensures k == k'
  {
  }

  /** `Best` picks k exactly when k is the first best position. */
  lemma BestIffFirstBest(d: seq<real>, k: nat)
    ensures Best(d) == Some(k) <==> IsFirstBest(d, k)
  {
    BestSpec(d);
    if IsFirstBest(d, k) {
      FirstBestUnique(d, k, Best(d).value);
    }
  }

  /** An appended deviation that is eligible and strictly better than the current choice is selected. */
  lemma SnocSelectsNew(p: seq<real>, x: real)
    requires x < Cone && (Best(p).None? || x < p[Best(p).value])
    ensures Best(p + [x]) == Some(|p|)
  {
    var q := p + [x];
    BestSpec(p);
    assert forall j :: 0 <= j < |p| ==> q[j] == p[j];
    assert IsFirstBest(q, |p|);
    BestIffFirstBest(q, |p|);
  }

  /** Any other appended deviation leaves the selection as it was. */
  lemma SnocKeepsBest(p: seq<real>, x: real)
    requires !(x < Cone && (Best(p).None? || x < p[Best(p).value]))
    ensures Best(p + [x]) == Best(p)
  {
    var q := p + [x];
    BestSpec(p);
    assert forall j :: 0 <= j < |p| ==> q[j] == p[j];
    match Best(p)
    case None =>
      BestSpec(q);
      assert forall i :: 0 <= i < |q| ==> Cone <= q[i];
    case Some(k) =>
      assert IsFirstBest(q, k);
      BestIffFirstBest(q, k);
  }

  /**
   * Appending one deviation changes the selection only if the new one is
   * eligible and strictly smaller than the current choice: this is one step
   * of the source's loop.
   */
  lemma BestSnoc(p: seq<real>, x: real)
    ensures Best(p + [x]) ==
      if x < Cone && (Best(p).None? || x < p[Best(p).value]) then Some(|p|) else Best(p)
  {
    if x < Cone && (Best(p).None? || x < p[Best(p).value]) {
      SnocSelectsNew(p, x);
    } else {
      SnocKeepsBest(p, x);
    }
  }

  /** The way the source returns, or None (JavaScript `null`). */
  function Selected(signs: seq<Way>, userLat: real, userLon: real, heading: real, az: Azimuth): (r: Option<Way>)
    ensures r.Some? ==> r.value in signs
    ensures signs == [] ==> r.None?
  {
    match Best(Deviations(signs, userLat, userLon, heading, az))
    case None => None
    case Some(k) => Some(signs[k])
  }

  /**
   * The selection in terms of the ways themselves: None exactly when no way
   * is within the cone; otherwise a way within the cone that no eligible way
   * beats, taken at its first best position.
   */
  lemma SelectedSpec(signs: seq<Way>, userLat: real, userLon: real, heading: real, az: Azimuth)
    ensures var r := Selected(signs, userLat, userLon, heading, az);
      r.None? <==> forall w :: w in signs ==> Cone <= SignDeviation(userLat, userLon, heading, az, w)
    ensures var r := Selected(signs, userLat, userLon, heading, az);
      r.Some? ==>
        && SignDeviation(userLat, userLon, heading, az, r.value) < Cone
        && (forall w :: w in signs && SignDeviation(userLat, userLon, heading, az, w) < Cone ==>
              SignDeviation(userLat, userLon, heading, az, r.value) <= SignDeviation(userLat, userLon, heading, az, w))
        && exists k :: 0 <= k < |signs| && signs[k] == r.value &&
             IsFirstBest(Deviations(signs, userLat, userLon, heading, az), k)
  {
    var d := Deviations(signs, userLat, userLon, heading, az);
    BestSpec(d);
    assert |d| == |signs| && forall i :: 0 <= i < |signs| ==> d[i] == SignDeviation(userLat, userLon, heading, az, signs[i]);
    assert forall w :: w in signs ==> exists i :: 0 <= i < |signs| && signs[i] == w;
  }

  /**
   * The source's loop. `smallestAngleDiff` starts at 360, above every
   * eligible deviation, so the first eligible way is always taken; the
   * strict comparison keeps the earliest of equally good ways.
   */
  method FindNextSignInDirection(signs: seq<Way>, userLat: real, userLon: real, heading: real, az: Azimuth)
    returns (nearestSign: Option<Way>)
    ensures nearestSign == Selected(signs, userLat, userLon, heading, az)
  {
    ghost var d := Deviations(signs, userLat, userLon, heading, az);
    ghost var best: Option<nat> := None;
    nearestSign := None;
    var smallestAngleDiff := InitialAngleDiff;
    for i := 0 to |signs|
      invariant best == Best(d[..i])
      invariant best.None? ==> nearestSign.None? && smallestAngleDiff == InitialAngleDiff
      invariant best.Some? ==> best.value < i && nearestSign == Some(signs[best.value]) && smallestAngleDiff == d[best.value]
    {
      var sign := signs[i];
      var signBearing := CalcBearing(az, userLat, userLon, sign.center.lat, sign.center.lon);
      var angleDiff := Deviation(heading, signBearing);
      assert d[..i + 1] == d[..i] + [angleDiff];
      BestSnoc(d[..i], angleDiff);
      if angleDiff < smallestAngleDiff && angleDiff < Cone {
        smallestAngleDiff := angleDiff;
        nearestSign := Some(sign);
        best := Some(i);
      }
    }
    assert d[..|signs|] == d;
  }

  /**
   * The deviation does not wrap around north: heading 350 and bearing 10 are
   * 340 degrees apart, so such a way is never eligible, while bearing 10
   * against heading 0 is.
   */
  lemma NoWrapAround()
    ensures Deviation(350.0, 10.0) == 340.0
    ensures Best([Deviation(350.0, 10.0)]) == None
    ensures Best([Deviation(0.0, 10.0), Deviation(0.0, 95.0), Deviation(0.0, 350.0)]) == Some(0)
  {
  }

  /**
   * `alpha` grows anticlockwise, so a device facing east reports 270: then
   * a way due east (bearing 90) deviates by 180 and is excluded, while a way
   * due west (bearing 270) deviates by 0 and is selected.
   */
  lemma FacingEastPicksWest()
    ensures Deviation(270.0, 90.0) == 180.0
    ensures Best([Deviation(270.0, 90.0), Deviation(270.0, 270.0)]) == Some(1)
  {
  }
}
