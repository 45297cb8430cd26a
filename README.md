# Rubik's cube scanner: scan state and solver adapter

This project models the core of a browser-based Rubik's cube scanner in Dafny:

- **The scan-state machine** (`VirtualCube`). It stores colour-mapped face readings under the face their centre sticker names. It tracks which faces are still missing and chooses the next face to ask for (priority F, R, B, L, U, D). It schedules that guidance 1200 ms after an accepted reading. It also runs two animation tracks:
  - a 600 ms confirmation pulse;
  - a cubic ease-out rotation toward the pose of the expected face.
- **The solver adapter** (`solver_utils.js`). It validates that every colour appears on exactly nine stickers and serialises the six faces in the solver's order F, R, U, D, L, B. It calls the solver library and flattens the four stages of its answer (cross, F2L, OLL, PLL) into one list of moves, with every "prime" replaced by an apostrophe.

Modules:

| file | module | what it holds |
|---|---|---|
| `wrappers.dfy` | `Wrappers` | `Option` and `Result` |
| `faces.dfy` | `Faces` | Face letters, the three face orders, the colour-name tables |
| `cube_store.dfy` | `CubeStore` | The cube-state object as a value, the missing faces, the next-face rule |
| `animation.dfy` | `Animation` | Poses, the pulse and rotation tracks, easing |
| `virtual_cube.dfy` | `Scanner` | The class `VirtualCube` with its fields and methods |
| `move_text.dfy` | `MoveText` | The normalisation of the solver's answer into move tokens |
| `solver_utils.dfy` | `SolverUtils` | `validateState`, the cube string, `getSolverMoves` |

How the model is shaped:

- **Class and methods.** The scanner is a class whose methods update its fields in place. Each method's contract gives the new state in terms of specification functions (`Store`, `MissingFaces`, `NextFace`, `PulseTick`, `RotationAngles`). Every method except `AddFace` requires and preserves the invariant `Valid()`, which says:
  - a set slot always holds a reading of its own face;
  - nothing is set or pending before the first accepted reading;
  - no face is expected once the cube is complete.

  `AddFace` is the storing step of `Commit`. On its own it does not keep `Valid()`: a first reading stored outside `Commit` leaves a slot set before the first scan is recorded, just as the code's `addFace` does when called outside `loop`.
- **Loops.** The counting loop of `validateState` and the serialisation loop of `getSolverMoves` are methods with loop invariants. Each is proved equal to a specification function, and the properties are proved about that function.

In these places the code's behaviour is easy to misread; the model follows the code:

- A reading whose centre colour is unknown is written under the key `"undefined"` of the cube state. This is the `stray` field.
- `validateState` counts every value of the object, so it counts that stray entry as well, not only the six face slots.
- When the cube becomes complete, a pending guidance timer is not cancelled.
- `getSolverMoves` does not check completeness itself. An unset slot passes validation only when the counts still come to nine each; serialisation then fails inside the `try` block and the result is the "Impossible Cube State" error.

## Model

| member | source | states |
|---|---|---|
| Faces.FaceColor | website/src/classes/virtual_cube.js:35 | The inverted table maps each face to a colour name that `colorFace` maps back to that face |
| Faces.ColorFaceInverse | website/src/classes/virtual_cube.js:4-7 | A known colour name is exactly the name its face maps back to (the two tables are inverse) |
| Faces.CenterOfMappedReading | website/src/classes/virtual_cube.js:249-250 | The key of a reading is the mapped colour of its fifth entry, `undefined` when there are fewer than five |
| CubeStore.MissingFacesSpec | website/src/classes/virtual_cube.js:304-306 | A face is listed as missing exactly when its slot is `null` |
| CubeStore.MissingFacesInKeyOrder | website/src/classes/virtual_cube.js:304-306 | Missing faces are listed once each, in key order U, D, F, B, L, R |
| CubeStore.CompleteIffAllSet | website/src/classes/virtual_cube.js:309-311 | Complete exactly when all six slots are set |
| CubeStore.StoreKeepsConsistent | website/src/classes/virtual_cube.js:248-253 | After any store, every set slot holds a reading whose centre names that slot |
| CubeStore.StoreKeepsSetSlots | website/src/classes/virtual_cube.js:251 | A slot once set is never unset by a later reading |
| CubeStore.StoreKeepsComplete | website/src/classes/virtual_cube.js:251 | A complete cube stays complete whatever reading is stored |
| CubeStore.RescanKeepsMissing | website/src/classes/virtual_cube.js:251 | Re-scanning an already set face (last write wins) leaves the missing faces unchanged |
| CubeStore.NewFaceShrinksMissing | website/src/classes/virtual_cube.js:251 | Storing a reading of a face not yet set removes exactly one missing face |
| CubeStore.DistinctCommitsCount | website/src/classes/virtual_cube.js:248-253 | Readings of pairwise different, still-missing faces reduce the missing count by their number |
| CubeStore.EmptyMissesAll | website/src/classes/virtual_cube.js:3 | In the initial state all six faces are missing, in key order |
| CubeStore.CompleteAfterSixDistinct | website/src/classes/virtual_cube.js:3 | From the initial state, readings of pairwise different faces number at most six and complete the cube exactly when there are six |
| CubeStore.FirstListed | website/src/classes/virtual_cube.js:237-238 | `order.find`: the result is missing and comes first in the priority order among the missing faces; no result only when no listed face is missing |
| CubeStore.NextFace | website/src/classes/virtual_cube.js:237-239 | The next face is one of the missing faces and has the best priority of them; the fallback is never needed |
| CubeStore.NextFaceIsUnset | website/src/classes/virtual_cube.js:233-241 | On an incomplete cube the face asked for next has an unset slot |
| CubeStore.UpBeforeDown | website/src/classes/virtual_cube.js:237 | With only U and D missing, U is asked for first, in either listing order |
| Animation.RotationForFace | website/src/classes/virtual_cube.js:291-301 | Every pose lies within half a turn on each axis, never turns about z, and is the identity exactly for Front |
| Animation.RotationsDistinct | website/src/classes/virtual_cube.js:291-301 | Different faces are shown by different poses |
| Animation.Progress | website/src/classes/virtual_cube.js:191 | Progress never exceeds 1, is non-negative for a non-negative elapsed time, and equals 1 exactly when the duration has elapsed |
| Animation.PulseTick | website/src/classes/virtual_cube.js:187-201 | The pulse switches off exactly when its duration has elapsed; its start and duration are kept |
| Animation.PulseScale | website/src/classes/virtual_cube.js:187-201 | The scale is untouched while the pulse is off and snaps back to `Baseline` exactly once the pulse is over |
| Animation.RotationTick | website/src/classes/virtual_cube.js:204-218 | The tween switches off exactly when its duration has elapsed; its endpoints, start and duration are kept |
| Animation.RotationAngles | website/src/classes/virtual_cube.js:204-218 | The pose is untouched while no tween runs, is the start pose at the first instant, and is exactly the target once the duration has elapsed |
| Animation.EaseOutBounds | website/src/classes/virtual_cube.js:209 | The ease-out maps the unit interval into itself |
| Animation.EaseOutMonotone | website/src/classes/virtual_cube.js:209 | The ease-out never moves backward |
| Animation.LerpAnglesBetween | website/src/classes/virtual_cube.js:211-213 | Interpolation with a fraction in [0, 1] stays between the two poses on each axis |
| Animation.RotationStaysBetween | website/src/classes/virtual_cube.js:207-213 | A running tween never overshoots: on each axis the pose stays between start and target |
| Animation.PulseStaysOff | website/src/classes/virtual_cube.js:188 | Once the pulse is off, later ticks change neither the pulse nor the scale |
| Scanner.VirtualCube.constructor | website/src/classes/virtual_cube.js:2-40 | The initial state: all slots `null`, scanning, nothing expected or pending, both tracks idle with durations 600 and 800 |
| Scanner.VirtualCube.GetExpectedCenterColor | website/src/classes/virtual_cube.js:178-184 | A colour is returned exactly after the first accepted reading while a face is expected, and it is that face's colour |
| Scanner.VirtualCube.AddFace | website/src/classes/virtual_cube.js:248-253 | Returns the centre's face; the reading lands in that slot (or the stray key) and no other slot changes |
| Scanner.VirtualCube.AnimateScale | website/src/classes/virtual_cube.js:187-201 | One pulse tick: the new track and scale are those of `PulseTick` and `PulseScale`; the invariant is kept |
| Scanner.VirtualCube.AnimateRotation | website/src/classes/virtual_cube.js:204-218 | One rotation tick: the new track and pose are those of `RotationTick` and `RotationAngles`; the invariant is kept |
| Scanner.VirtualCube.SetTargetRotation | website/src/classes/virtual_cube.js:221-230 | A tween starts now from the current pose toward the target, duration kept; the invariant is kept |
| Scanner.VirtualCube.GuideToNextFace | website/src/classes/virtual_cube.js:233-245 | Complete: nothing changes. Otherwise the best-priority missing face (slot unset) is expected and a 1500 ms tween toward its pose starts |
| Scanner.VirtualCube.RunDueTimer | website/src/classes/virtual_cube.js:142-144 | Before the due time nothing happens; once due, the action runs once and is no longer pending |
| Scanner.VirtualCube.Commit | website/src/classes/virtual_cube.js:118-145 | An unknown centre changes only the stray entry. Otherwise the pulse restarts. The first accepted face snaps the pose and becomes expected. Then either the expected face clears (complete, timer left as is) or guidance is rescheduled 1200 ms later |
| Scanner.VirtualCube.Loop | website/src/classes/virtual_cube.js:111-147 | Both tracks advance. A tick without a reading changes nothing else. A reading is committed as above, the first-scan snap overriding this tick's rotation |
| Scanner.FrontFirstScenario | website/src/classes/virtual_cube.js:111-145 | A first reading of Front leaves the pose at rest, expects Front (colour "green") and schedules guidance for 1200 ms later |
| Scanner.RightAfterFrontScenario | website/src/classes/virtual_cube.js:142-144 | When that guidance comes due, Right is expected (colour "red") and a 1500 ms tween from rest toward Right's pose starts |
| MoveText.Words | website/src/utils/solver_utils.js:52-53 | Reference reading of the move text: every word is non-empty and holds no whitespace |
| MoveText.PhaseMoves | website/src/utils/solver_utils.js:44-47 | A missing stage contributes no moves |
| MoveText.SplitMatchesWords | website/src/utils/solver_utils.js:52-53 | Splitting on whitespace runs and dropping blank pieces gives exactly the maximal non-space runs |
| MoveText.WordsAcrossSpace | website/src/utils/solver_utils.js:44-47 | A joining space separates words: the words of `a + " " + b` are those of `a` then those of `b` |
| MoveText.ReplacePrimeAcrossSpace | website/src/utils/solver_utils.js:51 | The replacement never spans a joining space, so it acts on each side separately |
| MoveText.MovesByPhase | website/src/utils/solver_utils.js:36-53 | The move list is the concatenation of each stage's own moves: no move glues two stages together |
| MoveText.MovesAreTokens | website/src/utils/solver_utils.js:50-53 | Every move is non-empty and holds no whitespace |
| MoveText.NoPrimeLeft | website/src/utils/solver_utils.js:51 | After the replacement no "prime" is left, not even one formed across a replaced occurrence |
| MoveText.MovesHaveNoPrime | website/src/utils/solver_utils.js:50-53 | No move contains "prime" |
| MoveText.ReplacePrimeKeepsToken | website/src/utils/solver_utils.js:51 | The replacement never lengthens a text, never empties a non-empty one and never adds whitespace |
| MoveText.TokensPhase | website/src/utils/solver_utils.js:45 | An array stage of non-empty, whitespace-free tokens yields exactly its tokens with "prime" replaced |
| MoveText.SilentPhases | website/src/utils/solver_utils.js:46 | Stages whose text is empty contribute no moves |
| MoveText.TokensExample | website/src/utils/solver_utils.js:36-53 | Stages `["R","Uprime","F2"]`, missing, `""`, missing give the moves R, U', F2 |
| SolverUtils.Values | website/src/utils/solver_utils.js:72 | The counted values are the six slots in key order, then the stray entry if there is one |
| SolverUtils.FirstMismatch | website/src/utils/solver_utils.js:80-85 | No result exactly when every face from that position on has nine stickers; otherwise the first face, in the order F, R, U, D, L, B, whose count is not nine |
| SolverUtils.ValidationError | website/src/utils/solver_utils.js:64-87 | No error exactly when every face has exactly nine stickers |
| SolverUtils.ValidationNamesFirstBadFace | website/src/utils/solver_utils.js:80-85 | The error names a face with a wrong count, with that count, and every face before it in the order F, R, U, D, L, B has nine |
| SolverUtils.StrayIsCounted | website/src/utils/solver_utils.js:72-77 | The stray entry's stickers add to the counts of the faces they name |
| SolverUtils.ValidateState | website/src/utils/solver_utils.js:64-87 | The counting and checking loops return exactly `ValidationError` |
| SolverUtils.LabelsMatchColors | website/src/utils/solver_utils.js:82 | The message's colour names are the scanner's colour names with a capital first letter |
| SolverUtils.Decimal | website/src/utils/solver_utils.js:83 | A count prints as a non-empty string of decimal digits without a leading zero |
| SolverUtils.DecimalRoundTrip | website/src/utils/solver_utils.js:83 | The printed count reads back as the count |
| SolverUtils.Serialised | website/src/utils/solver_utils.js:19-25 | A cube string exists exactly when all six slots are set |
| SolverUtils.AppendReading | website/src/utils/solver_utils.js:22-24 | Appending a face's stickers adds their spelling after the text so far |
| SolverUtils.Serialise | website/src/utils/solver_utils.js:15-25 | The serialisation loops return exactly `Serialised` |
| SolverUtils.SpellRoundTrip | website/src/utils/solver_utils.js:10-13 | A reading of known stickers is spelled one letter per sticker, and reading the letters back gives the reading |
| SolverUtils.SerialisedRoundTrip | website/src/utils/solver_utils.js:10-25 | With known stickers the cube string reads back as the readings in the order F, R, U, D, L, B, one letter per sticker: 54 letters for six nine-sticker faces |
| SolverUtils.GetSolverMoves | website/src/utils/solver_utils.js:1-61 | Errors in order: validation, a `null` slot, no solver, solver failure. Success only on nine-of-each counts; the moves are the stages' moves, each non-empty, whitespace-free and without "prime" |
| SolverUtils.EmptyCubeMessage | website/src/utils/solver_utils.js:80-83 | An empty cube state fails on the green face with the count printed as "0" |

## Left out

- Rendering with Three.js is not modelled:
  - not modelled: `initThreeJS`, `handleResize`, `update3DColors`, `fillAllCenters`, the render call, the CSS colour lookup;
  - the cube group's scale and rotation are kept as the two fields `groupScale` and `groupRotation`.
- The pulse's sine curve is not modelled:
  - the scale is kept as `Swell(progress)`, standing for `1 + sin(progress * pi) * 0.15`;
  - what is stated is when the scale snaps back to `Baseline`. `Swell(0.0)`, at the first instant of a pulse, also stands for scale 1.
- Floating-point arithmetic is not modelled. Poses are exact reals in quarter turns (pi/2 is 1.0), and easing and progress are exact real arithmetic, so rounding is out of scope.
- The clock and the timer are parameters:
  - `Date.now()` is the `now` parameter;
  - `setTimeout`/`clearTimeout` become the due time `nextMoveDue`, which the caller fires with `RunDueTimer` between ticks;
  - browser event-loop scheduling is not modelled.
- Console logging is not modelled.
- The solver library is a parameter: `None` when it did not load. Its answer is either `Crashed` (it threw, or returned nothing whose stages can be read) or the four stages. What it computes is not modelled.
- Stage shapes:
  - A stage is an array of strings, a string, or a falsy value.
  - Not modelled: other kinds of value (numbers, objects), and `null` entries inside an array, which `join` prints as empty.
- Faces.ColorFace: a colour name equal to an inherited property of a plain object (such as "constructor") is treated like any unknown name. The code would look up the inherited property instead.
- Scanner.VirtualCube.Loop: `isScanning` is never cleared by the code, so the model keeps it true. Input stopping at completion is a caller's concern.
- CubeStore.NextFace: the `missing[0]` fallback of `guideToNextFace` is not modelled, because the priority order lists every face and the fallback can never run. `NextFace` proves this.
- `website/src/classes/video_capture.js` and `website/src/index.js` are not part of this model.
