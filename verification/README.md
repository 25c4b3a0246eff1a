# NextUnlimitedAutobahn: direction-aware sign selection, in Dafny

The app is a browser compass that points toward a stretch of German
motorway without a speed limit: the one lying most nearly in the direction
of travel. It sends an Overpass query for such motorway ways within 50 km of
the user on every position fix once a heading is known, and every five
seconds while the user's latitude and longitude are truthy and a heading is
defined. From the answer it picks the way whose bearing deviates least from
the heading the query was made with, among those less than 90 degrees off;
distances are never compared, only displayed. It stores that way's centre
as the target (`signLat`, `signLon`). On each orientation event it records
the heading and, when both the user's and the sign's latitude are truthy,
turns the needle by `bearing - heading`.

This project models that logic from `app.js`:

- `geo_math.dfy` (module `GeoMath`): the last step of `calcBearing`,
  `(brng + 360) % 360`. JavaScript's sign-of-dividend remainder is written
  out on exact reals. The trigonometric part of `calcBearing` is a function
  parameter, `Azimuth`.
- `selection.dfy` (module `Selection`): `findNextSignInDirection`, written twice.
  - `Best` is a reference definition by recursion from the front of the list.
  - `IsFirstBest` characterises it: eligible, minimal, first of equals.
  - `FindNextSignInDirection` is the source's forward loop with its
    running minimum that starts at 360. It is proved equal to `Best`.
- `compass.dfy` (module `Compass`): the globals as the class `Compass.State`.
  Its methods are the response branch of `fetchSign`, `handleOrientation`,
  and the position assignment of `updatePosition`. JavaScript truthiness
  (`if(userLat && signLat)`) is modelled: a latitude of exactly 0 counts
  as absent.
- `wrappers.dfy`: `Option`, standing for `null`/`undefined`.

Note what `app.js` does and does not do:

- The deviation is `|heading - bearing|`, not a wrap-aware difference.
- The cone is strict: a deviation of exactly 90 is excluded.
- There is no fallback to the nearest way when nothing lies ahead.
- There is no needle smoothing and no speed-triggered policy switch.
- The heading is `event.alpha` of an absolute device orientation (app.js:22, 50),
  which grows anticlockwise (a device facing east reports 270), while
  `calcBearing` is a clockwise compass bearing. `app.js` compares and
  subtracts the two as if both were clockwise (app.js:54, 93), and the model
  keeps that convention: facing east, a way due east deviates by 180 and is
  excluded, while a way due west deviates by 0.
- `(brng + 360) % 360` is not a general angle normaliser. It is correct for
  `brng` in [-360, 360), which includes atan2's [-180, 180]. Below that it
  stays in (-360, 0] (`NormalizeBelowOneTurn`).

## Model

| member | source | states |
|---|---|---|
| `GeoMath.Rem360` | app.js:121 | JavaScript `x % 360`: the result has the sign of x, lies within one turn of 0, and differs from x by a whole number of turns |
| `GeoMath.Normalize` | app.js:121 | `(brng + 360) % 360` differs from brng by a whole number of turns, and lies in [0, 360) for every brng from -360 up |
| `GeoMath.NormalizeRange` | app.js:120-121 | for every brng in [-360, 360), and so for atan2's [-180, 180], the result is in [0, 360); a non-negative brng is unchanged and a negative one gains 360 |
| `GeoMath.NormalizeBelowOneTurn` | app.js:121 | below -360 the normalisation stays in (-360, 0], e.g. -400 gives -40 |
| `GeoMath.CalcBearing` | app.js:115-122 | given an azimuth in [-180, 180], the bearing is in [0, 360): the azimuth itself when non-negative, the azimuth plus 360 otherwise |
| `Selection.Deviation` | app.js:93 | the deviation is non-negative and is heading minus bearing or bearing minus heading, with no wrap-around |
| `Selection.SignDeviation` | app.js:92-93 | a way's deviation is non-negative, and with a heading in [0, 360) and an azimuth atan2 can produce it is below the initial running minimum 360 |
| `Selection.Best` | app.js:87-102 | the reference selection returns either nothing or an in-range index whose deviation is under 90 |
| `Selection.BestSpec` | app.js:88-101 | nothing is selected exactly when no deviation is under 90; otherwise the selected index is eligible, no eligible deviation is smaller, and every earlier index is ineligible or strictly worse |
| `Selection.FirstBestUnique` | app.js:95-97 | the first-best index is unique, so the first-wins tie-break determines the result |
| `Selection.BestIffFirstBest` | app.js:91-101 | the reference selection picks k if and only if k is the first best index |
| `Selection.SnocSelectsNew` | app.js:95-97 | an appended candidate that is eligible and strictly better than the current choice becomes the selection |
| `Selection.SnocKeepsBest` | app.js:95-98 | any other appended candidate leaves the selection unchanged, so ties keep the earlier way |
| `Selection.BestSnoc` | app.js:91-99 | one more candidate changes the selection only when it is eligible and strictly better than the current one, and then it is selected |
| `Selection.Selected` | app.js:87-102 | a selected way is an element of the input list, and an empty list selects nothing |
| `Selection.SelectedSpec` | app.js:87-102 | null exactly when no way lies within 90 degrees of the heading; otherwise a way within the cone that no eligible way beats, at its first best position |
| `Selection.FindNextSignInDirection` | app.js:87-102 | the forward loop with running minimum 360 and strict comparisons returns exactly the reference selection |
| `Selection.NoWrapAround` | app.js:93-95 | heading 350 and bearing 10 deviate by 340, so that way is excluded; with heading 0, bearings 10, 95 and 350 select the first |
| `Selection.FacingEastPicksWest` | app.js:93-97 | with alpha 270 (device facing east), a way at bearing 90 deviates by 180 and is excluded, and a way at bearing 270 is selected |
| `Compass.ResponseTarget` | app.js:72-81 | the response yields a target exactly when some way lies within the cone of the request's heading; the target is the centre of such a way that no eligible way beats, taken at its first best position (first of equals wins) |
| `Compass.Truthy` | app.js:52 | a truthy coordinate is defined; 0 is falsy and every other defined value is truthy |
| `Compass.NeedleRotation` | app.js:52-55 | a rotation exists exactly when both latitudes are truthy; rotation plus heading equals the bearing to the sign |
| `Compass.NeedleWithinOneTurn` | app.js:53-54 | with a heading in [0, 360) the rotation is strictly within one turn either way |
| `Compass.EquatorMeansNoNeedle` | app.js:52 | a user or a sign at latitude exactly 0 is treated as absent and never turns the needle |
| `Compass.NeedleAlpha90BearingNorth` | app.js:54 | alpha 90 and a sign at bearing 0 give a rotation of -90, a quarter turn anticlockwise on the dial |
| `Compass.NeedleAlpha270BearingNorth` | app.js:54 | alpha 270 and a sign at bearing 0 give a rotation of -270, the dial position of a quarter turn clockwise |
| `Compass.State.constructor` | app.js:3-4 | all globals start undefined and the needle untouched |
| `Compass.State.UpdatePosition` | app.js:36-38 | both user coordinates are replaced together |
| `Compass.State.HandleResponse` | app.js:72-81 | the target is replaced by the selected way's centre when there is one, and otherwise left unchanged; only `signLat`/`signLon` may change |
| `Compass.State.HandleOrientation` | app.js:49-57 | the heading is always recorded; the needle is set to the rotation when both latitudes are truthy and otherwise left as it was; only `userHeading` and the needle may change |

## Left out

- Floating point: all numbers are exact reals. NaN, infinities and rounding are not modelled.
- The trigonometric body of `calcBearing` (app.js:116-120) is the function parameter `Azimuth`. Its range [-180, 180] appears only as a hypothesis of the lemmas that need it.
- The direction of `event.alpha`: `app.js` treats the anticlockwise `event.alpha` (app.js:50) as a clockwise compass heading when it subtracts it from a bearing (app.js:54, 93). The model keeps this convention and does not model the sensor's orientation; no lemma states what the needle shows relative to the world.
- `calcDistance` (app.js:106-113): the haversine formula. Its result is only written to the page.
- `event.alpha` being `null`: the heading is always a number here. `userHeading !== undefined` holds for `null` (app.js:26, 43), so JavaScript would coerce `null` to 0 both in `bearing - userHeading` (app.js:54) and in `Math.abs(heading - signBearing)` (app.js:93), where the deviation becomes the bearing itself.
- The Overpass request, JSON parsing and `.catch` logging (app.js:61-71, 83): network I/O. The response is a given sequence of ways, and a failed request is a response that never arrives.
- Position and orientation callbacks, the `setInterval` polling and its guard (app.js:15-33, 43-45): asynchronous event wiring. `UpdatePosition` models only the assignments at lines 37-38.
- DOM and presentation: `acceptDisclaimer`, `animateCompass`, `showError`, the style write in `rotateNeedle` (kept as the `needle` field), and the speed and distance text (app.js:7-12, 40-41, 78-79, 124-144).
