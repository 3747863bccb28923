/** Exact placement vocabulary for the clock.

    Every angle is a whole number of sixtieths of a turn, so the trigonometry
    of the scene never has to be evaluated: a direction is an integer, and two
    integers that differ by a multiple of 60 name the same direction.

    Directions in the face plane are measured clockwise from 12 o'clock
    ("up", +y), the convention the clock uses for its ticks and hands: a point
    at distance d in direction a has x = d sin(a) and y = d cos(a).

    Mesh rotations about the face normal ("spin") follow the renderer's own
    convention instead: a positive spin turns the mesh counter-clockwise as
    seen from +z. */
module Geometry {

  const FullTurn: int := 60
  const HalfTurn: int := 30
  const QuarterTurn: int := 15

  /** `a` and `b` name the same direction. */
  predicate SameDirection(a: int, b: int) {
    (a - b) % FullTurn == 0
  }

  /** A point of the face plane in polar form: x = dist sin(angle),
      y = dist cos(angle). */
  datatype Polar = Polar(dist: real, angle: int)

  /** The primitives the clock is built from, by the local axis their long
      side lies along before they are rotated: a plane is made with its length
      along local y; a sphere stretched by `scale.x` is long along local x. */
  datatype Shape = Plane | Spheroid

  /** Direction (clockwise from up) of the unrotated long axis. */
  function AxisBase(shape: Shape): int {
    match shape
    case Plane => 0
    case Spheroid => QuarterTurn
  }

  /** Where a mesh stands: its centre in the face plane, its depth `z` along
      the face normal, whether it was first turned half a turn about the
      vertical axis (`rotateY(PI)`), and its spin about its own z axis. */
  datatype Pose = Pose(center: Polar, z: real, flipped: bool, spin: int)

  /** The direction, clockwise from up, in which the long axis of a `shape`
      placed at `p` lies. A counter-clockwise spin lowers the clockwise angle;
      after a half turn about the vertical axis the picture is seen mirrored,
      so the sign is reversed. */
  function AxisAngle(shape: Shape, p: Pose): int {
    if p.flipped then p.spin - AxisBase(shape) else AxisBase(shape) - p.spin
  }

  /** +1 when the front side of the mesh looks towards +z, -1 towards -z. */
  function Facing(p: Pose): int {
    if p.flipped then -1 else 1
  }

  /** The long axis points along the ray from the pivot through the centre:
      the mesh is laid out radially. */
  predicate Radial(shape: Shape, p: Pose) {
    SameDirection(AxisAngle(shape, p), p.center.angle)
  }

  /** `back` is the image of `front` on the other face of the clock: the face
      picture is mirrored (x changes sign, so every direction is negated) and
      the depth changes sign. Facing is not compared: it matters only for
      single-sided planes and is stated separately where it does. */
  predicate Mirrored(shape: Shape, front: Pose, back: Pose) {
    && back.center.dist == front.center.dist
    && SameDirection(back.center.angle, -front.center.angle)
    && back.z == -front.z
    && SameDirection(AxisAngle(shape, back), -AxisAngle(shape, front))
  }

  /** Two poses that place a mesh identically (angles up to whole turns). */
  predicate Equivalent(p: Pose, q: Pose) {
    && p.center.dist == q.center.dist
    && SameDirection(p.center.angle, q.center.angle)
    && p.z == q.z
    && p.flipped == q.flipped
    && SameDirection(p.spin, q.spin)
  }

  /** The pose carried half a turn about the clock's vertical axis, which maps
      (x, y, z) to (-x, y, -z): what one sees of `p` from the back of the
      clock, placed on the back face. */
  function TurnedOver(p: Pose): (q: Pose)
    ensures forall shape :: Mirrored(shape, p, q)
    ensures Facing(q) == -Facing(p)
  {
    Pose(Polar(p.center.dist, -p.center.angle), -p.z, !p.flipped, p.spin)
  }
}
