/** The moving part of the clock: the three hands on the front face and their
    three copies on the back face, re-posed from the time of day on every
    frame. Each hand is a primitive centred on its own midpoint, so it is
    placed half its length out from the pivot and turned to point the same
    way. */
module HandAnimator {
  import opened Geometry
  import opened ClockFace

  /** Angle per hour on the dial: a twelfth of a turn (pi/6). */
  const SixtiethsPerHour: int := 5
  /** Angle per minute: a sixtieth of a turn (pi/30). */
  const SixtiethsPerMinute: int := 1
  /** Angle per second: the same as per minute. */
  const SixtiethsPerSecond: int := SixtiethsPerMinute
  /** The back face shows the time nine hours earlier. */
  const BackHourOffset: int := -9
  /** The front second hand floats this far above the face, the back one as
      far below the back face, so that it is drawn over the other hands. */
  const SecondHandLift: real := 0.01

  // ------------------------------------------------------------ angle laws

  /** Whole hours only: the hour hand does not move between full hours. */
  function HourAngle(hours: int): int {
    SixtiethsPerHour * hours
  }

  function MinuteAngle(minutes: int): int {
    SixtiethsPerMinute * minutes
  }

  function SecondAngle(seconds: int): int {
    SixtiethsPerSecond * seconds
  }

  /** The hour hand reads the hour on a twelve-hour dial, whatever the sign
      of `hours`: its direction is five ticks per hour of `hours mod 12`, and
      it repeats every twelve hours. */
  lemma {:induction false} HourAngleReading(hours: int)
    ensures HourAngle(hours) % FullTurn == 5 * (hours % 12)
    ensures SameDirection(HourAngle(hours + 12), HourAngle(hours))
  {
    var q, r := hours / 12, hours % 12;
    assert hours == 12 * q + r;
    assert HourAngle(hours) == FullTurn * q + 5 * r;
    assert 0 <= 5 * r < FullTurn;
  }

  /** Angles with the same remainder name the same direction. */
  lemma {:induction false} SameRemainderSameDirection(a: int, b: int)
    requires a % FullTurn == b % FullTurn
    ensures SameDirection(a, b)
  {
    var qa, qb := a / FullTurn, b / FullTurn;
    assert a - b == FullTurn * (qa - qb);
  }

  /** The back face's hour hand is driven by `hours - 9`, which is negative
      in the first nine hours of the day; it still shows the hour
      `(hours + 3) mod 12`. */
  lemma {:induction false} BackHourReading(hours: int)
    ensures HourAngle(hours + BackHourOffset) % FullTurn == 5 * ((hours + 3) % 12)
    ensures SameDirection(HourAngle(hours + BackHourOffset), HourAngle((hours + 3) % 12))
  {
    var r := (hours + 3) % 12;
    HourAngleReading(hours - 9);
    assert (hours - 9) % 12 == r by {
      assert hours + 3 == (hours - 9) + 12;
    }
    assert HourAngle(hours + BackHourOffset) % FullTurn == 5 * r;
    assert HourAngle(r) % FullTurn == 5 * r by {
      assert 0 <= HourAngle(r) < FullTurn;
    }
    SameRemainderSameDirection(HourAngle(hours + BackHourOffset), HourAngle(r));
  }

  /** Fixed points of the dial: three o'clock and a quarter past point a
      quarter turn round, half a minute a half turn; midnight and noon
      coincide. Seconds (and minutes) within a minute advance strictly and
      stay within one turn, so no two of them share a direction. */
  lemma DialLandmarks(s: int, s': int)
    ensures HourAngle(3) == QuarterTurn && MinuteAngle(15) == QuarterTurn
    ensures SecondAngle(0) == 0 && SecondAngle(30) == HalfTurn
    ensures SameDirection(HourAngle(0), HourAngle(12))
    ensures 0 <= s < s' < 60 ==>
      0 <= SecondAngle(s) < SecondAngle(s') < FullTurn && !SameDirection(SecondAngle(s), SecondAngle(s'))
  {
  }

  /** Every hand points straight at a tick: the minute and second hands at
      the tick of their own number, the hour hand at an hour mark. */
  lemma {:induction false} HandsPointAtTicks(cfg: Config, hours: int, minutes: nat, seconds: nat)
    requires minutes < TicksPerFace && seconds < TicksPerFace
    ensures SameDirection(MinuteAngle(minutes), FrontTick(cfg, minutes).pose.center.angle)
    ensures SameDirection(SecondAngle(seconds), FrontTick(cfg, seconds).pose.center.angle)
    ensures var i := HourAngle(hours) % FullTurn;
      0 <= i < TicksPerFace && FrontTick(cfg, i).major
      && SameDirection(HourAngle(hours), FrontTick(cfg, i).pose.center.angle)
  {
    HourAngleReading(hours);
  }

  // ----------------------------------------------------------- hand poses

  /** Pose of a hand of `length` and `shape` at depth `z` pointing in
      direction `angle`: its centre half its length out along that direction,
      its long axis turned onto the same direction. */
  function HandPose(shape: Shape, length: real, z: real, angle: int): (p: Pose)
    ensures Radial(shape, p)
    ensures p.center == Polar(length / 2.0, angle) && p.z == z && Facing(p) == 1
  {
    Pose(Polar(length / 2.0, angle), z, false, AxisBase(shape) - angle)
  }

  /** The lengths of the three hands. */
  datatype Lengths = Lengths(hour: real, minute: real, second: real)

  function HandLengthsOf(cfg: Config): Lengths {
    Lengths(HourHandLength(cfg), MinuteHandLength(cfg), SecondHandLength(cfg))
  }

  /** The six hand poses of one frame. */
  datatype Frame = Frame(
    hour: Pose, hourBack: Pose,
    minute: Pose, minuteBack: Pose,
    second: Pose, secondBack: Pose)

  /** The frame drawn for a time of day, from the previous frame's depths
      alone: every front hand at its angle, every back hand at the negated
      angle (the back face is seen from behind), the back hour hand for the
      time `BackHourOffset` hours earlier. */
  function Render(lens: Lengths, prev: Frame, hours: int, minutes: int, seconds: int): Frame {
    Frame(
      HandPose(Spheroid, lens.hour, prev.hour.z, HourAngle(hours)),
      HandPose(Spheroid, lens.hour, prev.hourBack.z, -HourAngle(hours + BackHourOffset)),
      HandPose(Spheroid, lens.minute, prev.minute.z, MinuteAngle(minutes)),
      HandPose(Spheroid, lens.minute, prev.minuteBack.z, -MinuteAngle(minutes)),
      HandPose(Plane, lens.second, prev.second.z, SecondAngle(seconds)),
      HandPose(Plane, lens.second, prev.secondBack.z, -SecondAngle(seconds)))
  }

  /** What holds of the hands after construction and after every frame,
      for a clock whose front face is at depth `faceZ`: each hand is half
      its length out from the pivot and lies radially; the hour and minute
      hands lie on their face's surface and the second hands just outside
      it; the back minute and second hands are the mirror images of the
      front ones. */
  ghost predicate WellPosed(lens: Lengths, faceZ: real, f: Frame) {
    && f.hour.center.dist == lens.hour / 2.0 && f.hourBack.center.dist == lens.hour / 2.0
    && f.minute.center.dist == lens.minute / 2.0 && f.minuteBack.center.dist == lens.minute / 2.0
    && f.second.center.dist == lens.second / 2.0 && f.secondBack.center.dist == lens.second / 2.0
    && Radial(Spheroid, f.hour) && Radial(Spheroid, f.hourBack)
    && Radial(Spheroid, f.minute) && Radial(Spheroid, f.minuteBack)
    && Radial(Plane, f.second) && Radial(Plane, f.secondBack)
    && f.hour.z == faceZ && f.hourBack.z == -faceZ
    && f.minute.z == faceZ && f.minuteBack.z == -faceZ
    && f.second.z == faceZ + SecondHandLift && f.secondBack.z == -faceZ - SecondHandLift
    && Mirrored(Spheroid, f.minute, f.minuteBack)
    && Mirrored(Plane, f.second, f.secondBack)
  }

  /** Rendering keeps the hands well posed. */
  lemma {:induction false} RenderWellPosed(lens: Lengths, faceZ: real, prev: Frame, hours: int, minutes: int, seconds: int)
    requires WellPosed(lens, faceZ, prev)
    ensures WellPosed(lens, faceZ, Render(lens, prev, hours, minutes, seconds))
  {
    var f := Render(lens, prev, hours, minutes, seconds);
    assert f.minute.z == prev.minute.z && f.minuteBack.z == prev.minuteBack.z;
    assert f.second.z == prev.second.z && f.secondBack.z == prev.secondBack.z;
    assert AxisAngle(Spheroid, f.minute) == MinuteAngle(minutes);
    assert AxisAngle(Spheroid, f.minuteBack) == -MinuteAngle(minutes);
    assert Mirrored(Spheroid, f.minute, f.minuteBack);
    assert AxisAngle(Plane, f.second) == SecondAngle(seconds);
    assert AxisAngle(Plane, f.secondBack) == -SecondAngle(seconds);
    assert Mirrored(Plane, f.second, f.secondBack);
  }

  /** A rendered frame reads the clock: the front hands show hours (on a
      twelve-hour dial), minutes and seconds; the back hour hand is the
      mirror image of a front hour hand showing `hours - 9`, which is the
      hour `(hours + 3) mod 12`. */
  lemma {:induction false} RenderReadsClock(lens: Lengths, prev: Frame, hours: int, minutes: int, seconds: int)
    requires prev.hourBack.z == -prev.hour.z
    ensures var f := Render(lens, prev, hours, minutes, seconds);
      && f.hour.center.angle % FullTurn == 5 * (hours % 12)
      && f.minute.center.angle == minutes && f.second.center.angle == seconds
      && Mirrored(Spheroid, Render(lens, prev, hours + BackHourOffset, minutes, seconds).hour, f.hourBack)
      && SameDirection(f.hourBack.center.angle, -HourAngle((hours + 3) % 12))
  {
    var f := Render(lens, prev, hours, minutes, seconds);
    var g := Render(lens, prev, hours + BackHourOffset, minutes, seconds);
    HourAngleReading(hours);
    BackHourReading(hours);
    assert AxisAngle(Spheroid, g.hour) == HourAngle(hours + BackHourOffset);
    assert AxisAngle(Spheroid, f.hourBack) == -HourAngle(hours + BackHourOffset);
  }

  /** The hand mounts cover the hands' pivot: on each face the mount lies at
      the depth of the hour and minute hands, and the inner end of every
      hand, half its length in from its centre, is the mount's centre. */
  lemma MountsAtHandPivot(cfg: Config, f: Frame)
    requires WellPosed(HandLengthsOf(cfg), FrontZ(cfg), f)
    ensures HandMount(cfg, true).z == f.hour.z == f.minute.z
    ensures HandMount(cfg, false).z == f.hourBack.z == f.minuteBack.z
    ensures var pivot := HandMount(cfg, true).center.dist;
      && pivot == HandMount(cfg, false).center.dist
      && f.hour.center.dist - HourHandLength(cfg) / 2.0 == pivot
      && f.hourBack.center.dist - HourHandLength(cfg) / 2.0 == pivot
      && f.minute.center.dist - MinuteHandLength(cfg) / 2.0 == pivot
      && f.minuteBack.center.dist - MinuteHandLength(cfg) / 2.0 == pivot
      && f.second.center.dist - SecondHandLength(cfg) / 2.0 == pivot
      && f.secondBack.center.dist - SecondHandLength(cfg) / 2.0 == pivot
  {
  }

  /** The hour hands move only on the hour: minutes and seconds do not
      affect them. */
  lemma HourHandsWholeHours(lens: Lengths, prev: Frame, hours: int, m: int, s: int, m': int, s': int)
    ensures Render(lens, prev, hours, m, s).hour == Render(lens, prev, hours, m', s').hour
    ensures Render(lens, prev, hours, m, s).hourBack == Render(lens, prev, hours, m', s').hourBack
  {
  }

  /** A frame does not depend on the frames before it beyond the hands'
      depths, and drawing the same time twice gives the same frame. */
  lemma RenderIdempotent(lens: Lengths, prev: Frame, other: Frame, hours: int, minutes: int, seconds: int)
    ensures var f := Render(lens, prev, hours, minutes, seconds);
      Render(lens, f, hours, minutes, seconds) == f
    ensures
      && other.hour.z == prev.hour.z && other.hourBack.z == prev.hourBack.z
      && other.minute.z == prev.minute.z && other.minuteBack.z == prev.minuteBack.z
      && other.second.z == prev.second.z && other.secondBack.z == prev.secondBack.z
      ==> Render(lens, other, hours, minutes, seconds) == Render(lens, prev, hours, minutes, seconds)
  {
  }

  // ------------------------------------------------------- the hand meshes

  /** The six hand meshes, whose poses are overwritten on every frame. */
  class Hands {
    const lengths: Lengths
    /** Depth of the front face the hands lie on. */
    const faceZ: real
    var hour: Pose
    var hourBack: Pose
    var minute: Pose
    var minuteBack: Pose
    var second: Pose
    var secondBack: Pose

    ghost function Current(): Frame
      reads this
    {
      Frame(hour, hourBack, minute, minuteBack, second, secondBack)
    }

    ghost predicate Valid()
      reads this
    {
      WellPosed(lengths, faceZ, Current())
    }

    /** The hands as first built: all pointing at 12, the front hands on the
        front surface and their copies on the back surface; the second hands
        lifted off the faces, and the back second hand turned over. */
    constructor (cfg: Config)
      ensures Valid()
      ensures lengths == HandLengthsOf(cfg) && faceZ == FrontZ(cfg)
      ensures Current() == Frame(
        Pose(Polar(HourHandLength(cfg) / 2.0, 0), FrontZ(cfg), false, QuarterTurn),
        Pose(Polar(HourHandLength(cfg) / 2.0, 0), -FrontZ(cfg), false, QuarterTurn),
        Pose(Polar(MinuteHandLength(cfg) / 2.0, 0), FrontZ(cfg), false, QuarterTurn),
        Pose(Polar(MinuteHandLength(cfg) / 2.0, 0), -FrontZ(cfg), false, QuarterTurn),
        Pose(Polar(SecondHandLength(cfg) / 2.0, 0), FrontZ(cfg) + SecondHandLift, false, 0),
        Pose(Polar(SecondHandLength(cfg) / 2.0, 0), -FrontZ(cfg) - SecondHandLift, true, 0))
    {
      lengths := HandLengthsOf(cfg);
      faceZ := cfg.bodyHeight / 2.0;
      var hourLength := HourHandLength(cfg);
      var minuteLength := MinuteHandLength(cfg);
      var secondLength := SecondHandLength(cfg);
      // The stretched spheres are turned a quarter turn so that their long
      // axis points up, and moved up by half their length; each back copy is
      // cloned before the depths are set.
      var h := Pose(Polar(hourLength / 2.0, 0), 0.0, false, QuarterTurn);
      var m := Pose(Polar(minuteLength / 2.0, 0), 0.0, false, QuarterTurn);
      // The plane is already long along up; its back copy is turned over.
      var s := Pose(Polar(secondLength / 2.0, 0), 0.0, false, 0);
      var sBack := s.(flipped := true);
      hour, hourBack := h.(z := cfg.bodyHeight / 2.0), h.(z := -cfg.bodyHeight / 2.0);
      minute, minuteBack := m.(z := cfg.bodyHeight / 2.0), m.(z := -cfg.bodyHeight / 2.0);
      second := s.(z := cfg.bodyHeight / 2.0 + SecondHandLift);
      secondBack := sBack.(z := -cfg.bodyHeight / 2.0 - SecondHandLift);
    }

    /** Draws the time `hours:minutes:seconds`: every pose is rewritten from
        the time alone, keeping each hand's depth. Setting the rotation
        replaces any earlier one, so the back second hand is no longer
        turned over afterwards. */
    method Step(hours: int, minutes: int, seconds: int)
      requires Valid()
      modifies this
      ensures Valid()
      ensures Current() == Render(lengths, old(Current()), hours, minutes, seconds)
      ensures !secondBack.flipped
    {
      var hoursBack := hours + BackHourOffset;

      hour := hour.(center := Polar(lengths.hour / 2.0, SixtiethsPerHour * hours));
      hour := hour.(flipped := false, spin := -SixtiethsPerHour * hours + QuarterTurn);

      hourBack := hourBack.(center := Polar(lengths.hour / 2.0, -(SixtiethsPerHour * hoursBack)));
      hourBack := hourBack.(flipped := false, spin := SixtiethsPerHour * hoursBack + QuarterTurn);

      minute := minute.(center := Polar(lengths.minute / 2.0, SixtiethsPerMinute * minutes));
      minute := minute.(flipped := false, spin := -SixtiethsPerMinute * minutes + QuarterTurn);

      minuteBack := minuteBack.(center := Polar(lengths.minute / 2.0, -(SixtiethsPerMinute * minutes)));
      minuteBack := minuteBack.(flipped := false, spin := SixtiethsPerSecond * minutes + QuarterTurn);

      second := second.(center := Polar(lengths.second / 2.0, SixtiethsPerSecond * seconds));
      second := second.(flipped := false, spin := -SixtiethsPerSecond * seconds);

      secondBack := secondBack.(center := Polar(lengths.second / 2.0, -(SixtiethsPerSecond * seconds)));
      secondBack := secondBack.(flipped := false, spin := SixtiethsPerSecond * seconds);

      RenderWellPosed(lengths, faceZ, old(Current()), hours, minutes, seconds);
    }
  }
}
