/** The two animation tracks of the scanner's 3D guide: the confirmation pulse
    (a scale factor) and the rotation tween toward a face's pose. Time is an
    integer number of milliseconds; rotations are measured in quarter turns,
    so that 1.0 stands for pi/2 radians and every pose of the table is whole. */
module Animation {
  import opened Faces

  /** Duration of the pulse, in milliseconds. */
  const PulseDuration: int := 600
  /** Duration the rotation track starts with. */
  const RotationDuration: int := 800
  /** Duration `guideToNextFace` gives the rotation toward the next face. */
  const GuideDuration: int := 1500
  /** Delay between an accepted reading and the guidance toward the next face. */
  const DelayBeforeNext: int := 1200
  /** The scale the pulse starts from and returns to, and its peak. */
  const BaseScale: real := 1.0
  const MaxScale: real := 1.15

  /** A rotation about the x, y and z axes, in quarter turns. */
  datatype Angles = Angles(x: real, y: real, z: real)

  /** No rotation: the pose facing Front. */
  const Rest: Angles := Angles(0.0, 0.0, 0.0)

  /** `getRotationForFace`: the pose that shows a face to the camera. Every
      angle lies within half a turn either way, no pose turns about z, and only
      Front is shown with no rotation at all. */
  function RotationForFace(f: Face): (a: Angles)
    ensures -2.0 <= a.x <= 2.0 && -2.0 <= a.y <= 2.0 && a.z == 0.0
    ensures a == Rest <==> f == F
  {
    match f
    case F => Rest
    case B => Angles(0.0, 2.0, 0.0)
    case R => Angles(0.0, -1.0, 0.0)
    case L => Angles(0.0, 1.0, 0.0)
    case U => Angles(1.0, 0.0, 0.0)
    case D => Angles(-1.0, 0.0, 0.0)
  }

  /** Different faces are shown by different poses. */
  lemma RotationsDistinct(f: Face, g: Face)
    requires f != g
    ensures RotationForFace(f) != RotationForFace(g)
  {
  }

  /** The scale of the cube group: the baseline, or part-way through the
      pulse, where it is `BaseScale + sin(progress * pi) * (MaxScale - BaseScale)`;
      so `Swell(0.0)`, the first instant of a pulse, also stands for scale 1. */
  datatype Scale = Baseline | Swell(progress: real)

  /** `scaleState`: whether the pulse runs, when it started, how long it lasts. */
  datatype PulseState = PulseState(active: bool, startTime: int, duration: int)

  /** `rotationState`: whether a tween runs, when it started, how long it lasts,
      and the pose it runs from and to. */
  datatype RotationState = RotationState(active: bool, startTime: int, duration: int, start: Angles, end: Angles)

  /** `Math.min(elapsed / duration, 1)`: it reaches 1 exactly when the whole
      duration has elapsed. */
  function Progress(elapsed: int, duration: int): (p: real)
    requires duration > 0
    ensures p <= 1.0
    ensures p == 1.0 <==> elapsed >= duration
    ensures elapsed >= 0 ==> 0.0 <= p
  {
    var q := elapsed as real / duration as real;
    if q < 1.0 then q else 1.0
  }

  /** The cubic ease-out `1 - (1 - p)^3`. */
  function EaseOut(p: real): real
  {
    1.0 - (1.0 - p) * (1.0 - p) * (1.0 - p)
  }

  /** `start + (end - start) * t` on one axis. */
  function Mix(a: real, b: real, t: real): real
  {
    a + (b - a) * t
  }

  /** `start + (end - start) * t` on each axis. */
  function Lerp(a: Angles, b: Angles, t: real): Angles
  {
    Angles(Mix(a.x, b.x, t), Mix(a.y, b.y, t), Mix(a.z, b.z, t))
  }

  /** The pulse track after one tick of `animateScale`: it switches off exactly
      when the whole duration has elapsed, and nothing else about it changes. */
  function PulseTick(p: PulseState, now: int): (q: PulseState)
    requires p.duration > 0
    ensures q.startTime == p.startTime && q.duration == p.duration
    ensures q.active <==> p.active && now - p.startTime < p.duration
  {
    if p.active && Progress(now - p.startTime, p.duration) == 1.0 then p.(active := false) else p
  }

  /** The scale `animateScale` leaves on the cube group: untouched while the
      pulse is off, snapped back to `Baseline` exactly once the pulse is over. */
  function PulseScale(p: PulseState, now: int, current: Scale): (s: Scale)
    requires p.duration > 0
    ensures !p.active ==> s == current
    ensures p.active ==> (s == Baseline <==> now - p.startTime >= p.duration)
  {
    if !p.active then current
    else
      var progress := Progress(now - p.startTime, p.duration);
      if progress == 1.0 then Baseline else Swell(progress)
  }

  /** The rotation track after one tick of `animateRotation`. */
  function RotationTick(r: RotationState, now: int): (q: RotationState)
    requires r.duration > 0
    ensures q.startTime == r.startTime && q.duration == r.duration && q.start == r.start && q.end == r.end
    ensures q.active <==> r.active && now - r.startTime < r.duration
  {
    if r.active && Progress(now - r.startTime, r.duration) == 1.0 then r.(active := false) else r
  }

  /** The pose `animateRotation` leaves on the cube group: untouched while no
      tween runs, the captured start pose at the first instant, exactly the
      target once the duration has elapsed. */
  function RotationAngles(r: RotationState, now: int, current: Angles): (a: Angles)
    requires r.duration > 0
    ensures !r.active ==> a == current
    ensures r.active && now == r.startTime ==> a == r.start
    ensures r.active && now - r.startTime >= r.duration ==> a == r.end
  {
    if !r.active then current
    else Lerp(r.start, r.end, EaseOut(Progress(now - r.startTime, r.duration)))
  }

  /** A product of two non-negative reals is non-negative. */
  lemma MulNonNeg(x: real, y: real)
    requires 0.0 <= x && 0.0 <= y
    ensures 0.0 <= x * y
  {
  }

  /** Scaling by a fraction in [0, 1] never increases a non-negative real. */
  lemma MulAtMost(x: real, t: real)
    requires 0.0 <= x && 0.0 <= t <= 1.0
    ensures 0.0 <= x * t <= x
  {
    MulNonNeg(x, t);
    assert x - x * t == x * (1.0 - t);
    MulNonNeg(x, 1.0 - t);
  }

  /** Scaling both sides of an inequality by a non-negative factor. */
  lemma ScaleLe(a: real, b: real, c: real)
    requires a <= b && 0.0 <= c
    ensures a * c <= b * c
  {
    assert b * c - a * c == (b - a) * c;
    MulNonNeg(b - a, c);
  }

  /** Over the unit interval the ease-out stays within [0, 1]. */
  lemma EaseOutBounds(p: real)
    requires 0.0 <= p <= 1.0
    ensures 0.0 <= EaseOut(p) <= 1.0
  {
    var q := 1.0 - p;
    MulAtMost(q, q);
    var sq := q * q;
    assert 0.0 <= sq <= 1.0;
    MulAtMost(sq, q);
    assert 0.0 <= sq * q <= 1.0;
    assert EaseOut(p) == 1.0 - sq * q;
  }

  /** The ease-out never moves backward over the unit interval. */
  lemma EaseOutMonotone(p1: real, p2: real)
    requires 0.0 <= p1 <= p2 <= 1.0
    ensures EaseOut(p1) <= EaseOut(p2)
  {
    var q1, q2 := 1.0 - p1, 1.0 - p2;
    assert 0.0 <= q2 <= q1;
    ScaleLe(q2, q1, q2);
    ScaleLe(q2, q1, q1);
    assert q1 * q2 == q2 * q1;
    assert q2 * q2 <= q1 * q1;
    MulNonNeg(q2, q2);
    ScaleLe(q2 * q2, q1 * q1, q2);
    ScaleLe(q2, q1, q1 * q1);
    assert q1 * q1 * q2 == q2 * (q1 * q1);
    assert q2 * q2 * q2 <= q1 * q1 * q1;
    assert EaseOut(p1) == 1.0 - q1 * q1 * q1;
    assert EaseOut(p2) == 1.0 - q2 * q2 * q2;
  }

  /** `v` lies between `a` and `b`, whichever of them is the larger. */
  predicate Between(a: real, b: real, v: real)
  {
    (a <= b ==> a <= v <= b) && (b <= a ==> b <= v <= a)
  }

  /** `a + (b - a) * t` lies between a and b when 0 <= t <= 1. */
  lemma LerpBetween(a: real, b: real, t: real)
    requires 0.0 <= t <= 1.0
    ensures Between(a, b, a + (b - a) * t)
  {
  }

  /** Mixing with a fraction in [0, 1] stays between the two values. */
  lemma MixBetween(a: real, b: real, t: real)
    requires 0.0 <= t <= 1.0
    ensures Between(a, b, Mix(a, b, t))
  {
    LerpBetween(a, b, t);
  }

  /** Every axis of `v` lies between the same axis of `a` and of `b`. */
  predicate AnglesBetween(a: Angles, b: Angles, v: Angles)
  {
    Between(a.x, b.x, v.x) && Between(a.y, b.y, v.y) && Between(a.z, b.z, v.z)
  }

  /** Interpolating with a fraction in [0, 1] stays between the two poses. */
  lemma LerpAnglesBetween(a: Angles, b: Angles, t: real)
    requires 0.0 <= t <= 1.0
    ensures AnglesBetween(a, b, Lerp(a, b, t))
  {
    MixBetween(a.x, b.x, t);
    MixBetween(a.y, b.y, t);
    MixBetween(a.z, b.z, t);
  }

  /** Once started, a rotation tween never overshoots: on every axis the pose
      stays between the captured start and the target. */
  lemma RotationStaysBetween(r: RotationState, now: int, current: Angles)
    requires r.duration > 0 && r.active && now >= r.startTime
    ensures AnglesBetween(r.start, r.end, RotationAngles(r, now, current))
  {
    var p := Progress(now - r.startTime, r.duration);
    EaseOutBounds(p);
    LerpAnglesBetween(r.start, r.end, EaseOut(p));
  }

  /** Once a tick has switched the pulse off, later ticks leave it and the
      scale alone. */
  lemma PulseStaysOff(p: PulseState, t1: int, t2: int, s: Scale)
    requires p.duration > 0 && t1 - p.startTime >= p.duration
    ensures PulseTick(PulseTick(p, t1), t2) == PulseTick(p, t1)
    ensures PulseScale(PulseTick(p, t1), t2, s) == s
  {
  }
}
