# clock3d in Dafny

A model of the geometric core of clock3d, a three.js script that builds a
two-faced analog clock and animates its hands. The model covers two parts.

- The static face layout. Sixty minute ticks per face sit flush with the rim.
  Every fifth tick is a double-sized hour mark, and tick 0 has an accent colour.
  Each tick has a copy on the back face. The model also covers the hand mounts,
  the outer ring's cross-section and the hand lengths derived from the body
  dimensions.
- The per-frame hand update (`render`). Six hand meshes (hour, minute and
  second, front and back) are re-posed from the time of day on every frame.
  The back hour hand shows the time nine hours earlier.

Trigonometry is abstracted away. Every direction is a whole number of
sixtieths of a turn, measured clockwise from 12 o'clock. A point in the face
plane is `Polar(dist, angle)` and stands for `(dist·sin, dist·cos)`. Negating
x is the same as negating the angle. A mesh's rotation about the face normal
("spin") is also counted in sixtieths, counter-clockwise as the renderer
counts it. So π/2 is 15, π/6 is 5 and π/30 is 1.

A `Pose` holds four things: the centre, the depth `z`, whether the mesh was
first turned half a turn about the vertical axis (`rotateY(PI)`), and the spin.
From a pose and the primitive's shape, `AxisAngle` gives the direction of the
mesh's long axis. Planes are long along local y. The stretched spheres used
for the hour and minute hands are long along local x.

Modules:

- `Geometry` (geometry.dfy): angles, poses, the long-axis direction, and the
  "radial" and "mirrored" relations.
- `ClockFace` (clock_face.dfy): the configuration, the tick loop, the hand
  mounts, the ring profile and the hand lengths.
- `HandAnimator` (hand_animator.dfy): the angle laws, the pure `Render`
  specification of a frame, and the `Hands` class whose `Step` overwrites the
  six poses in place.

Facts about the code that shape the model:

- The code checks no ranges on the dimensions or on the time, so the model
  has no error cases and accepts any integers for the time.
- The hour hand moves on whole hours only. It does not creep with the minutes.
- The back face is always built, and its hour offset is fixed at -9.
- The ring profile is a closed 5-point polygon. It is `2·bodyHeight` high, so
  it overhangs each face by half the body's thickness.
- The back ticks are not mirrored copies. They are clones at the same place in
  the plane, turned over and spun by `+i`. `BackFaceMirrorsFront` proves that
  the back face still reads as the front face seen from behind, because the
  layout is symmetric about the 12–6 axis.
- The back minute hand's spin is computed with the per-second rate (index.js:223).
  That rate equals the per-minute rate, and the model keeps that name.
- `setRotationFromEuler` replaces the back second hand's initial `rotateY(PI)`.
  After the first frame that hand is no longer turned over. Its material is
  double-sided, so nothing visible changes, and `Step` states this outcome.

## Model

| member | source | states |
|---|---|---|
| `Geometry.TurnedOver` | index.js:66-71 | Turning a pose over onto the back face mirrors it for every shape: distance kept, direction, depth and long axis negated. It also reverses which way the mesh faces. |
| `ClockFace.TickDistance` | index.js:51-65 | A tick's centre distance plus half its own length (double for a major tick) equals `bodyRadius`. |
| `ClockFace.BuildTicks` | index.js:40-74 | The loop produces 120 meshes. Mesh 2i is front tick i and mesh 2i+1 is its back copy, for i = 0..59. The front meshes it emits include exactly 12 hour marks and exactly one accent tick. |
| `ClockFace.TickClassification` | index.js:41-45 | A tick is major iff `i % 5 == 0`. A major tick is exactly twice as wide and twice as long as a minor tick. Only tick 0 is sky blue; the rest are black. The back copy has the same size and colour. |
| `ClockFace.TickFlushWithRim` | index.js:51-65 | On both faces, every tick's outer edge lies on the rim. Its inner edge is one tick length inside the rim. |
| `ClockFace.TickPlacement` | index.js:66-71 | Tick i stands in direction i and lies radially on both faces. The front copy is at `+bodyHeight/2` and faces out. The back copy is at `-bodyHeight/2` and faces out the back. The two spins are exact negations. |
| `ClockFace.TickAnglePeriodic` | index.js:42-64 | Tick i+60 has the same direction and class as tick i. |
| `ClockFace.BackFaceMirrorsFront` | index.js:66-71 | Back tick i equals front tick (60−i) mod 60 turned over (angles up to whole turns), with the same class, colour and size. |
| `ClockFace.MajorTicksBelow` | index.js:40-42 | The first n ticks of a face include ⌈n/5⌉ major ticks. |
| `ClockFace.AccentTicksBelow` | index.js:40-41 | Any non-empty prefix of a face holds exactly one accent tick. |
| `ClockFace.FaceTickCounts` | index.js:40-42 | Each face has 12 hour marks and exactly one accent tick. |
| `ClockFace.HandMountsMirror` | index.js:85-87 | The two mounts share the pivot and sit at opposite depths. |
| `ClockFace.RingProfile` | index.js:93-101 | The profile has 5 points, and the first equals the last. Every edge is axis-aligned, and none is degenerate unless the ring has zero thickness or height. The points are exactly the four corners from `bodyRadius` to `bodyRadius + ringThickness` and from height 0 to `2·bodyHeight`. |
| `ClockFace.RingCentred` | index.js:94-108 | After the `-ringHeight/2` shift, the ring spans depths −bodyHeight to +bodyHeight. This range is centred on the body and contains both face surfaces. |
| `ClockFace.HandLengths` | index.js:116-158 | The minute hand is as long as the second hand. It is longer than the hour hand by 3/10 of the radius. For the standard dimensions only (bodyRadius = 50, tickLength = 5), the lengths are 30 and 45, and the minute hand's tip reaches exactly to the inner end of the minor ticks. |
| `HandAnimator.HourAngleReading` | index.js:186-192 | For any integer, the hour angle is 5·(hours mod 12) sixtieths, and it repeats every 12 hours. |
| `HandAnimator.BackHourReading` | index.js:182 | `hours − 9` may be negative, but its angle is still 5·((hours+3) mod 12). |
| `HandAnimator.DialLandmarks` | index.js:186-192 | At 3 o'clock the hour hand is a quarter turn round, and so is the minute hand at 15 minutes. 30 seconds is a half turn. Hours 0 and 12 coincide. Second angles 0..59 increase strictly and are pairwise distinct directions. |
| `HandAnimator.HandsPointAtTicks` | index.js:186-233 | The minute and second hands point at the tick of their own number. The hour hand always points at an hour mark. |
| `HandAnimator.HandPose` | index.js:190-197 | A hand's pose is half its length along its angle. Its long axis points the same way (radial), and it is not turned over. |
| `HandAnimator.RenderWellPosed` | index.js:190-242 | A frame keeps every hand half its length out and radial, at its face's depth. The back minute and second hands stay the mirror images of the front ones. |
| `HandAnimator.RenderReadsClock` | index.js:181-242 | The front hands read hours mod 12, minutes and seconds. The back hour hand is the mirror image of a front hour hand at `hours − 9`, that is at (hours+3) mod 12. |
| `HandAnimator.MountsAtHandPivot` | index.js:85-130 | In any well-posed frame, each face's mount lies at the depth of that face's hour and minute hands. The inner end of every hand lies at the mount's centre, the pivot. |
| `HandAnimator.HourHandsWholeHours` | index.js:181-206 | Minutes and seconds do not affect either hour hand. |
| `HandAnimator.RenderIdempotent` | index.js:178-242 | Drawing the same time twice gives the same frame. A frame depends on earlier frames only through the hands' depths. |
| `HandAnimator.Hands.constructor` | index.js:113-171 | Gives all six initial poses exactly: every hand points at 12 at half its length. The hour and minute hands are spun a quarter turn, the second hands not at all. Front hands are at `+bodyHeight/2` and back hands at `-bodyHeight/2`, and the second hands are lifted 0.01 further out. Only the back second hand is turned over. All hands start well posed. |
| `HandAnimator.Hands.Step` | index.js:178-242 | Overwrites all six poses so that they equal `Render` of the time, keeping each depth. The hands stay well posed, and the back second hand is no longer turned over. |

## Left out

- The renderer, scene, camera, lights, axes helper, trackball controls and the draw call (index.js:3-22, 173, 246-247). These are rendering plumbing with no geometric content.
- The body cylinder mesh (index.js:24-35). It appears only through its half-height, `FrontZ`, the depth of each face surface.
- The animation-frame loop and the `Date` reads (index.js:111, 179, 244). The time is a parameter of `Step`. The code re-samples the date at the end of each frame, so each frame draws the previous sample; that is scheduling, not geometry.
- Sines, cosines and floating-point coordinates. Positions are polar descriptors, and angles are exact sixtieths of a turn.
- Tessellation and material details: segment counts, lathe resolution, flat normals, material sides, disabled depth testing, hand widths, the hand mount's radius and segment counts (index.js:78-82), the `scale.x` stretch and the hand colours. None of these changes a position, a direction or a size the model states.
- Range checks on the time or the dimensions. The code has none, so the model has none either.
- `BuildTicks` returns the tick meshes instead of adding them to a scene; the scene is an external sink.
