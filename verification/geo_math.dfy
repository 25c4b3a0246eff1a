/**
 * The arithmetic part of `calcBearing` in app.js.
 *
 * The trigonometric part (degrees to radians, sin/cos, atan2 and the
 * conversion back to degrees) is floating-point code that is not modelled:
 * it is handed in as a function `Azimuth` from the two positions to the raw
 * forward azimuth in degrees, which atan2 keeps in [-180, 180].
 * What is modelled is the last step, `(brng + 360) % 360`, with JavaScript's
 * remainder operator written out on exact reals.
 */
module GeoMath {

  /** The raw forward azimuth `atan2(y, x) * 180 / PI` from (lat1, lon1) to (lat2, lon2). */
  type Azimuth = (real, real, real, real) -> real

  const FullTurn: real := 360.0

  /** Integer part of q, rounded toward zero, as JavaScript's `%` uses it. */
  function Trunc(q: real): (n: int)
    ensures q >= 0.0 ==> n as real <= q < n as real + 1.0
    ensures q < 0.0 ==> n as real - 1.0 < q <= n as real
  {
    if q >= 0.0 then q.Floor else -((-q).Floor)
  }

  /**
   * JavaScript's `x % 360`: the remainder takes the sign of the dividend
   * (it is NOT the mathematical modulus for negative x).
   */
  function Rem360(x: real): (r: real)
    ensures x >= 0.0 ==> 0.0 <= r < FullTurn
    ensures x < 0.0 ==> -FullTurn < r <= 0.0
    ensures ((x - r) / FullTurn).Floor as real == (x - r) / FullTurn
  {
    x - FullTurn * Trunc(x / FullTurn) as real
  }

  /** The final line of `calcBearing`: `(brng + 360) % 360`. */
  function Normalize(brng: real): (r: real)
    ensures -FullTurn <= brng ==> 0.0 <= r < FullTurn
    ensures ((brng - r) / FullTurn).Floor as real == (brng - r) / FullTurn
  {
    var x := brng + FullTurn;
    var r := Rem360(x);
    var q := (x - r) / FullTurn;
    assert (brng - r) / FullTurn == q - 1.0;
    assert (q - 1.0).Floor == q.Floor - 1;
    r
  }

  /**
   * On every azimuth atan2 can produce (and on all of [-360, 360)) the
   * normalisation lands in [0, 360): a non-negative azimuth is kept and a
   * negative one is moved up by a full turn.
   */
  lemma NormalizeRange(brng: real)
    requires -FullTurn <= brng < FullTurn
    ensures 0.0 <= Normalize(brng) < FullTurn
    ensures brng >= 0.0 ==> Normalize(brng) == brng
    ensures brng < 0.0 ==> Normalize(brng) == brng + FullTurn
  {
  }

  /**
   * The normalisation is not a general angle normaliser: below one full
   * negative turn the result stays non-positive, e.g. -400 gives -40.
   */
  lemma NormalizeBelowOneTurn(brng: real)
    requires brng < -FullTurn
    ensures -FullTurn < Normalize(brng) <= 0.0
    ensures brng == -400.0 ==> Normalize(brng) == -40.0
  {
  }

  /** `calcBearing(lat1, lon1, lat2, lon2)`: the compass bearing in [0, 360). */
  function CalcBearing(az: Azimuth, lat1: real, lon1: real, lat2: real, lon2: real): (b: real)
    ensures -180.0 <= az(lat1, lon1, lat2, lon2) <= 180.0 ==> 0.0 <= b < FullTurn
    ensures 0.0 <= az(lat1, lon1, lat2, lon2) <= 180.0 ==> b == az(lat1, lon1, lat2, lon2)
    ensures -180.0 <= az(lat1, lon1, lat2, lon2) < 0.0 ==> b == az(lat1, lon1, lat2, lon2) + FullTurn
  {
    Normalize(az(lat1, lon1, lat2, lon2))
  }
}
