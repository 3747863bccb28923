/** The static part of the clock: the sixty minute ticks on each face, the
    hand mounts, the outer ring's profile and the lengths of the hands, all
    derived from a handful of dimensions. Placements use the polar
    vocabulary of module Geometry. */
module ClockFace {
  import opened Geometry

  datatype Color = Black | SkyBlue

  /** The dimensions every other quantity is derived from. */
  datatype Config = Config(
    bodyRadius: real,
    bodyHeight: real,
    tickWidth: real,
    tickLength: real,
    ringThickness: real)

  /** The dimensions the clock is built with. */
  const Standard: Config := Config(50.0, 10.0, 1.0, 5.0, 5.0)

  const TicksPerFace: nat := 60
  /** Every fifth tick marks an hour. */
  const MajorEvery: nat := 5

  /** Depth of the front face of the body; the body is a cylinder of height
      `bodyHeight` centred on the origin, so the back face is at its
      negation. */
  function FrontZ(cfg: Config): real {
    cfg.bodyHeight / 2.0
  }

  // ---------------------------------------------------------------- ticks

  datatype Tick = Tick(
    index: nat,
    major: bool,
    color: Color,
    width: real,
    length: real,
    pose: Pose)

  predicate IsMajor(i: nat) {
    i % MajorEvery == 0
  }

  /** Distance from the pivot to the centre of tick `i`: set back from the
      rim by half the tick's own length, so that its outer edge lies on the
      rim. */
  function TickDistance(cfg: Config, i: nat): (d: real)
    ensures d + (if IsMajor(i) then 2.0 * cfg.tickLength else cfg.tickLength) / 2.0 == cfg.bodyRadius
  {
    if IsMajor(i) then cfg.bodyRadius - cfg.tickLength
    else cfg.bodyRadius - cfg.tickLength / 2.0
  }

  /** Tick `i` on the front face: in direction `i`, lying flat at the front
      surface, spun by `-i` so its length points radially. */
  function FrontTick(cfg: Config, i: nat): Tick {
    var major := IsMajor(i);
    Tick(i, major,
         if i == 0 then SkyBlue else Black,
         if major then 2.0 * cfg.tickWidth else cfg.tickWidth,
         if major then 2.0 * cfg.tickLength else cfg.tickLength,
         Pose(Polar(TickDistance(cfg, i), i), FrontZ(cfg), false, -(i as int)))
  }

  /** The copy of tick `i` on the back face: same centre in the plane, at the
      back surface, turned half a turn about the vertical axis and then spun
      by `+i` about its own axis. */
  function BackTick(cfg: Config, i: nat): Tick {
    var t := FrontTick(cfg, i);
    t.(pose := Pose(t.pose.center, -FrontZ(cfg), true, i))
  }

  /** The `k`-th tick mesh added to the scene: front and back copies of each
      tick, in loop order. */
  function TickAt(cfg: Config, k: nat): Tick {
    if k % 2 == 0 then FrontTick(cfg, k / 2) else BackTick(cfg, k / 2)
  }

  /** The front copies among the meshes `ms`: every other one, from the
      first. */
  function FrontCopies(ms: seq<Tick>): seq<Tick> {
    seq(|ms| / 2, (i: int) requires 0 <= i < |ms| / 2 => ms[2 * i])
  }

  /** The tick loop: for each index the front tick and its back copy, 120
      meshes in all; the front face so built carries twelve hour marks and
      exactly one accent tick. */
  method BuildTicks(cfg: Config) returns (ticks: array<Tick>)
    ensures fresh(ticks)
    ensures ticks.Length == 2 * TicksPerFace
    ensures forall k :: 0 <= k < ticks.Length ==> ticks[k] == TickAt(cfg, k)
    ensures CountWhere(FrontCopies(ticks[..]), MajorTick) == 12
    ensures CountWhere(FrontCopies(ticks[..]), AccentTick) == 1
  {
    ticks := new Tick[2 * TicksPerFace];
    var i: nat := 0;
    while i != TicksPerFace
      invariant i <= TicksPerFace
      invariant forall k :: 0 <= k < 2 * i ==> ticks[k] == TickAt(cfg, k)
      decreases TicksPerFace - i
    {
      var color := if i == 0 then SkyBlue else Black;
      var isMajor := i % MajorEvery == 0;
      var width, length, dist;
      if isMajor {
        width, length := cfg.tickWidth * 2.0, cfg.tickLength * 2.0;
        dist := cfg.bodyRadius - cfg.tickLength;
      } else {
        width, length := cfg.tickWidth, cfg.tickLength;
        dist := cfg.bodyRadius - cfg.tickLength / 2.0;
      }
      var front := Tick(i, isMajor, color, width, length, Pose(Polar(dist, i), cfg.bodyHeight / 2.0, false, 0));
      var back := front.(pose := front.pose.(z := -cfg.bodyHeight / 2.0, flipped := true));
      front := front.(pose := front.pose.(spin := -(i as int)));
      back := back.(pose := back.pose.(spin := i));
      ticks[2 * i] := front;
      ticks[2 * i + 1] := back;
      assert TickAt(cfg, 2 * i) == front;
      assert TickAt(cfg, 2 * i + 1) == back;
      i := i + 1;
    }
    forall j | 0 <= j < TicksPerFace
      ensures FrontCopies(ticks[..])[j] == FaceTicks(cfg)[j]
    {
      assert ticks[2 * j] == TickAt(cfg, 2 * j);
    }
    assert FrontCopies(ticks[..]) == FaceTicks(cfg);
    FaceTickCounts(cfg);
  }

  /** Sizes and colours: a tick is major exactly on the multiples of five; a
      major tick is exactly twice as wide and twice as long as a minor one;
      only tick 0 has the accent colour. The back copy looks the same. */
  lemma TickClassification(cfg: Config, i: nat)
    ensures FrontTick(cfg, i).major <==> i % 5 == 0
    ensures FrontTick(cfg, i).major ==>
      FrontTick(cfg, i).width == 2.0 * cfg.tickWidth && FrontTick(cfg, i).length == 2.0 * cfg.tickLength
    ensures !FrontTick(cfg, i).major ==>
      FrontTick(cfg, i).width == cfg.tickWidth && FrontTick(cfg, i).length == cfg.tickLength
    ensures (FrontTick(cfg, i).color == SkyBlue <==> i == 0)
    ensures FrontTick(cfg, i).color in {SkyBlue, Black}
    ensures BackTick(cfg, i).major == FrontTick(cfg, i).major
    ensures BackTick(cfg, i).color == FrontTick(cfg, i).color
    ensures BackTick(cfg, i).width == FrontTick(cfg, i).width
    ensures BackTick(cfg, i).length == FrontTick(cfg, i).length
  {
  }

  /** The outer edge of every tick, major or minor, on either face, lies on
      the rim of the body; the inner edge is one tick length further in. */
  lemma TickFlushWithRim(cfg: Config, i: nat)
    ensures FrontTick(cfg, i).pose.center.dist + FrontTick(cfg, i).length / 2.0 == cfg.bodyRadius
    ensures BackTick(cfg, i).pose.center.dist + BackTick(cfg, i).length / 2.0 == cfg.bodyRadius
    ensures FrontTick(cfg, i).pose.center.dist - FrontTick(cfg, i).length / 2.0
            == cfg.bodyRadius - FrontTick(cfg, i).length
  {
  }

  /** Each tick stands in direction `i`, lies radially, sits on its face's
      surface with its visible side outwards, and the two copies are spun by
      exactly opposite amounts. */
  lemma TickPlacement(cfg: Config, i: nat)
    ensures FrontTick(cfg, i).pose.center.angle == i && BackTick(cfg, i).pose.center.angle == i
    ensures Radial(Plane, FrontTick(cfg, i).pose) && Radial(Plane, BackTick(cfg, i).pose)
    ensures FrontTick(cfg, i).pose.z == cfg.bodyHeight / 2.0
    ensures BackTick(cfg, i).pose.z == -cfg.bodyHeight / 2.0
    ensures BackTick(cfg, i).pose.spin == -FrontTick(cfg, i).pose.spin
    ensures Facing(FrontTick(cfg, i).pose) == 1 && Facing(BackTick(cfg, i).pose) == -1
  {
  }

  /** Tick angles repeat every sixty ticks. */
  lemma TickAnglePeriodic(cfg: Config, i: nat)
    ensures SameDirection(FrontTick(cfg, i + TicksPerFace).pose.center.angle, FrontTick(cfg, i).pose.center.angle)
    ensures FrontTick(cfg, i + TicksPerFace).major == FrontTick(cfg, i).major
  {
  }

  /** Although each back tick is a copy of the front tick at the same place
      in the plane, the back face as a whole reads as a clock face from
      behind: back tick `i` is exactly the front tick `(60 - i) % 60` turned
      over onto the back face, with the same size and colour. This holds
      because the layout is mirror-symmetric about the 12-6 axis. */
  lemma {:induction false} BackFaceMirrorsFront(cfg: Config, i: nat)
    requires i < TicksPerFace
    ensures var j := (TicksPerFace - i) % TicksPerFace;
      && Equivalent(BackTick(cfg, i).pose, TurnedOver(FrontTick(cfg, j).pose))
      && BackTick(cfg, i).major == FrontTick(cfg, j).major
      && BackTick(cfg, i).color == FrontTick(cfg, j).color
      && BackTick(cfg, i).width == FrontTick(cfg, j).width
      && BackTick(cfg, i).length == FrontTick(cfg, j).length
  {
    var j := (TicksPerFace - i) % TicksPerFace;
    if i == 0 {
      assert j == 0;
    } else {
      assert j == 60 - i;
      assert IsMajor(j) == IsMajor(i) by {
        assert j + i == 60;
        assert i % 5 == 0 <==> (60 - i) % 5 == 0;
      }
    }
  }

  // ------------------------------------------------------- counting ticks

  /** The front ticks of one face, in index order. */
  function FaceTicks(cfg: Config): seq<Tick> {
    seq(TicksPerFace, (i: int) requires 0 <= i => FrontTick(cfg, i))
  }

  /** Number of ticks in `ts` that satisfy `p`. */
  function CountWhere(ts: seq<Tick>, p: Tick -> bool): nat {
    if ts == [] then 0
    else CountWhere(ts[..|ts| - 1], p) + (if p(ts[|ts| - 1]) then 1 else 0)
  }

  predicate MajorTick(t: Tick) {
    t.major
  }

  predicate AccentTick(t: Tick) {
    t.color == SkyBlue
  }

  lemma {:induction false} MajorTicksBelow(cfg: Config, n: nat)
    requires n <= TicksPerFace
    ensures CountWhere(FaceTicks(cfg)[..n], MajorTick) == (n + 4) / 5
  {
    if n > 0 {
      var ts := FaceTicks(cfg);
      MajorTicksBelow(cfg, n - 1);
      assert ts[..n][..n - 1] == ts[..n - 1];
      assert ts[..n][n - 1] == FrontTick(cfg, n - 1);
    }
  }

  lemma {:induction false} AccentTicksBelow(cfg: Config, n: nat)
    requires n <= TicksPerFace
    ensures CountWhere(FaceTicks(cfg)[..n], AccentTick) == if n == 0 then 0 else 1
  {
    if n > 0 {
      var ts := FaceTicks(cfg);
      AccentTicksBelow(cfg, n - 1);
      assert ts[..n][..n - 1] == ts[..n - 1];
      assert ts[..n][n - 1] == FrontTick(cfg, n - 1);
    }
  }

  /** Each face carries twelve hour marks and exactly one accent tick. */
  lemma FaceTickCounts(cfg: Config)
    ensures CountWhere(FaceTicks(cfg), MajorTick) == 12
    ensures CountWhere(FaceTicks(cfg), AccentTick) == 1
  {
    var ts := FaceTicks(cfg);
    assert ts[..TicksPerFace] == ts;
    MajorTicksBelow(cfg, TicksPerFace);
    AccentTicksBelow(cfg, TicksPerFace);
  }

  // ---------------------------------------------------------- hand mounts

  /** The small sphere covering the hands' pivot on one face. */
  function HandMount(cfg: Config, front: bool): Pose {
    Pose(Polar(0.0, 0), if front then cfg.bodyHeight / 2.0 else -cfg.bodyHeight / 2.0, false, 0)
  }

  /** The two mounts sit at the pivot, one on each face surface, each the
      mirror image of the other (a sphere on the pivot has no direction to
      mirror). */
  lemma HandMountsMirror(cfg: Config)
    ensures HandMount(cfg, false).center == HandMount(cfg, true).center
    ensures HandMount(cfg, false).z == -HandMount(cfg, true).z
    ensures HandMount(cfg, true).z - HandMount(cfg, false).z == cfg.bodyHeight
  {
  }

  // ----------------------------------------------------------- outer ring

  /** A point of the ring's cross-section: `x` is the distance from the axis
      of revolution, `y` the height along it. */
  datatype Point = Point(x: real, y: real)

  function RingHeight(cfg: Config): real {
    cfg.bodyHeight * 2.0
  }

  /** The closed rectangular cross-section that is revolved into the ring:
      from the rim of the body out to `ringThickness` beyond it, over the
      full ring height. */
  function RingProfile(cfg: Config): (ps: seq<Point>)
    ensures |ps| == 5 && ps[0] == ps[4]
    ensures forall k :: 0 <= k < 4 ==> ps[k].x == ps[k + 1].x || ps[k].y == ps[k + 1].y
    ensures forall k :: 0 <= k < 4 ==> ps[k] != ps[k + 1] || cfg.ringThickness == 0.0 || cfg.bodyHeight == 0.0
    ensures forall k :: 0 <= k < 5 ==>
      (ps[k].x == cfg.bodyRadius || ps[k].x == cfg.bodyRadius + cfg.ringThickness) &&
      (ps[k].y == 0.0 || ps[k].y == RingHeight(cfg))
    ensures Point(cfg.bodyRadius, 0.0) in ps && Point(cfg.bodyRadius, RingHeight(cfg)) in ps
    ensures Point(cfg.bodyRadius + cfg.ringThickness, 0.0) in ps
    ensures Point(cfg.bodyRadius + cfg.ringThickness, RingHeight(cfg)) in ps
  {
    var r, h, t := cfg.bodyRadius, RingHeight(cfg), cfg.ringThickness;
    [Point(r, 0.0), Point(r, h), Point(r + t, h), Point(r + t, 0.0), Point(r, 0.0)]
  }

  /** Depth by which the ring is shifted after the profile's height axis has
      been turned onto the face normal. */
  function RingOffset(cfg: Config): real {
    -RingHeight(cfg) / 2.0
  }

  /** The ring is centred on the body: its depths run from `-bodyHeight` to
      `+bodyHeight`, so it spans twice the body's thickness and overhangs
      each face by half of it. */
  lemma RingCentred(cfg: Config)
    ensures forall p :: p in RingProfile(cfg) ==>
      -cfg.bodyHeight <= p.y + RingOffset(cfg) <= cfg.bodyHeight || cfg.bodyHeight < 0.0
    ensures RingOffset(cfg) == -cfg.bodyHeight
    ensures RingOffset(cfg) + RingHeight(cfg) == cfg.bodyHeight
    ensures cfg.bodyHeight >= 0.0 ==>
      RingOffset(cfg) <= -FrontZ(cfg) && FrontZ(cfg) <= RingOffset(cfg) + RingHeight(cfg)
  {
  }

  // --------------------------------------------------------- hand lengths

  function HourHandLength(cfg: Config): real {
    cfg.bodyRadius / 2.0 + cfg.tickLength
  }

  function MinuteHandLength(cfg: Config): real {
    cfg.bodyRadius * 4.0 / 5.0 + cfg.tickLength
  }

  function SecondHandLength(cfg: Config): real {
    cfg.bodyRadius * 4.0 / 5.0 + cfg.tickLength
  }

  /** The minute and second hands are equally long; for a positive radius
      the hour hand is shorter by three tenths of the radius. With the
      standard dimensions the hands are 30 and 45 long, and since a hand
      reaches from the pivot out to its full length, the minute hand's tip
      touches exactly the inner end of the minor ticks. */
  lemma HandLengths(cfg: Config)
    ensures MinuteHandLength(cfg) == SecondHandLength(cfg)
    ensures MinuteHandLength(cfg) - HourHandLength(cfg) == cfg.bodyRadius * 3.0 / 10.0
    ensures cfg.bodyRadius > 0.0 ==> HourHandLength(cfg) < MinuteHandLength(cfg)
    ensures HourHandLength(Standard) == 30.0 && MinuteHandLength(Standard) == 45.0
    ensures MinuteHandLength(Standard)
            == FrontTick(Standard, 1).pose.center.dist - FrontTick(Standard, 1).length / 2.0
  {
  }
}
