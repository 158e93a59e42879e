/**
  Pointer-driven tilt of the whole scene. The pointer position is turned
  into an offset from the centre of the window; the offset, scaled, is the
  rotation the scene group aims for; and every frame the group's rotation
  moves a fixed fraction of the way towards that aim.

  Angles and offsets are reals; the single- and double-precision arithmetic
  of the animation is not modelled.
 */
module Orbit {
  import opened Particles

  /** Pointer offset per pixel from the window centre. */
  const Sensitivity: real := 0.002

  /** Rotation aimed for per unit of pointer offset. */
  const Tilt: real := 1.5

  /** Fraction of the remaining distance covered each frame. */
  const Easing: real := 0.05

  /** Fraction of the remaining distance left after each frame. */
  const Retain: real := 1.0 - Easing

  /** Pointer offset from the window centre, already scaled. */
  datatype Pointer = Pointer(mouseX: real, mouseY: real)

  /** Rotation of the scene group about its x and y axes. */
  datatype Rotation = Rotation(x: real, y: real)

  /** The pointer offset recorded for a pointer event at (clientX, clientY) in a window of the given size. */
  function PointerAt(clientX: real, clientY: real, width: real, height: real): (p: Pointer)
    ensures p.mouseX == 0.0 <==> clientX == width / 2.0
    ensures p.mouseY == 0.0 <==> clientY == height / 2.0
    ensures p.mouseX > 0.0 <==> clientX > width / 2.0
    ensures p.mouseY > 0.0 <==> clientY > height / 2.0
  {
    Pointer((clientX - width / 2.0) * Sensitivity, (clientY - height / 2.0) * Sensitivity)
  }

  /** The window position a pointer offset was recorded for: the inverse of `PointerAt`. */
  function ClientOf(p: Pointer, width: real, height: real): (c: (real, real))
  {
    (p.mouseX / Sensitivity + width / 2.0, p.mouseY / Sensitivity + height / 2.0)
  }

  /** Recording a pointer position loses nothing: the position can be recovered from the offset. */
  lemma PointerRoundTrip(clientX: real, clientY: real, width: real, height: real)
    ensures ClientOf(PointerAt(clientX, clientY, width, height), width, height) == (clientX, clientY)
  {
  }

  /** Every offset is recorded for exactly one window position. */
  lemma ClientRoundTrip(p: Pointer, width: real, height: real)
    ensures var c := ClientOf(p, width, height);
            PointerAt(c.0, c.1, width, height) == p
  {
  }

  /**
    The rotation aimed for: vertical pointer offset tilts the scene about
    its x axis, horizontal offset turns it about its y axis.
   */
  function Target(p: Pointer): (t: Rotation)
  {
    Rotation(p.mouseY * Tilt, p.mouseX * Tilt)
  }

  /**
    From window position to aim: the axes swap, and each pixel away from
    the centre aims 0.003 radians further.
   */
  lemma TargetOfClient(clientX: real, clientY: real, width: real, height: real)
    ensures Target(PointerAt(clientX, clientY, width, height))
         == Rotation(0.003 * (clientY - height / 2.0), 0.003 * (clientX - width / 2.0))
  {
  }

  /** The pointer at the window centre aims for no rotation at all, and only there. */
  lemma CentredTarget(clientX: real, clientY: real, width: real, height: real)
    ensures Target(PointerAt(clientX, clientY, width, height)) == Rotation(0.0, 0.0)
        <==> clientX == width / 2.0 && clientY == height / 2.0
  {
    TargetOfClient(clientX, clientY, width, height);
  }

  /**
    One frame of easing on one axis: the distance still to go is 95% of
    what it was, and the angle moves towards the aim without passing it.
   */
  function EaseAxis(angle: real, aim: real): (a: real)
    ensures aim - a == Retain * (aim - angle)
    ensures angle <= aim ==> angle <= a <= aim
    ensures aim <= angle ==> aim <= a <= angle
    ensures a == aim <==> angle == aim
  {
    angle + Easing * (aim - angle)
  }

  /** One frame of easing on both axes towards the rotation the pointer aims for. */
  function Smooth(rot: Rotation, p: Pointer): (r: Rotation)
    ensures Target(p).x - r.x == Retain * (Target(p).x - rot.x)
    ensures Target(p).y - r.y == Retain * (Target(p).y - rot.y)
  {
    var t := Target(p);
    Rotation(EaseAxis(rot.x, t.x), EaseAxis(rot.y, t.y))
  }

  /** `n` frames of easing on one axis with the aim held fixed. */
  function EaseN(angle: real, aim: real, n: nat): real
    decreases n
  {
    if n == 0 then angle else EaseN(EaseAxis(angle, aim), aim, n - 1)
  }

  function Pow(b: real, n: nat): real
  {
    if n == 0 then 1.0 else b * Pow(b, n - 1)
  }

  lemma {:induction false} PowRetainBounds(n: nat)
    ensures 0.0 < Pow(Retain, n) <= 1.0
  {
    if n > 0 {
      PowRetainBounds(n - 1);
    }
  }

  /** After `n` frames the distance still to go is 0.95^n of the starting distance. */
  lemma {:induction false} EaseNResidual(angle: real, aim: real, n: nat)
    ensures aim - EaseN(angle, aim, n) == Pow(Retain, n) * (aim - angle)
    decreases n
  {
    if n > 0 {
      var next := EaseAxis(angle, aim);
      EaseNResidual(next, aim, n - 1);
      calc {
        aim - EaseN(angle, aim, n);
        aim - EaseN(next, aim, n - 1);
        Pow(Retain, n - 1) * (aim - next);
        Pow(Retain, n - 1) * (Retain * (aim - angle));
        Pow(Retain, n) * (aim - angle);
      }
    }
  }

  /** The frame after `n` frames of easing is one more easing step of their result. */
  lemma {:induction false} EaseNLast(angle: real, aim: real, n: nat)
    ensures EaseN(angle, aim, n + 1) == EaseAxis(EaseN(angle, aim, n), aim)
    decreases n
  {
    if n > 0 {
      EaseNLast(EaseAxis(angle, aim), aim, n - 1);
    }
  }

  /** Easing never crosses the aim: every frame stays between the start and the aim. */
  lemma {:induction false} EaseNBetween(angle: real, aim: real, n: nat)
    ensures angle <= aim ==> angle <= EaseN(angle, aim, n) <= aim
    ensures aim <= angle ==> aim <= EaseN(angle, aim, n) <= angle
    decreases n
  {
    if n > 0 {
      EaseNBetween(EaseAxis(angle, aim), aim, n - 1);
    }
  }

  /**
    Convergence is monotone and never overshoots: every further frame ends
    between the previous angle and the aim.
   */
  lemma EaseNMonotone(angle: real, aim: real, n: nat)
    ensures angle <= aim ==> EaseN(angle, aim, n) <= EaseN(angle, aim, n + 1) <= aim
    ensures aim <= angle ==> aim <= EaseN(angle, aim, n + 1) <= EaseN(angle, aim, n)
  {
    EaseNLast(angle, aim, n);
    EaseNBetween(angle, aim, n);
  }

  /** The bound 0.95^n <= 19 / (19 + n), from Bernoulli's inequality. */
  lemma {:induction false} PowRetainRate(n: nat)
    ensures Pow(Retain, n) * (19 + n) as real <= 19.0
  {
    if n > 0 {
      PowRetainRate(n - 1);
      PowRetainBounds(n - 1);
      var p := Pow(Retain, n - 1);
      assert Pow(Retain, n) * (19 + n) as real == p * (Retain * (19 + n) as real);
      assert Retain * (19 + n) as real <= (19 + n - 1) as real;
      assert p * (Retain * (19 + n) as real) <= p * (19 + n - 1) as real;
    }
  }

  /**
    Angle `a` is at most 19 / (19 + n) as far from the aim as the starting
    angle was: the rate at which easing closes the distance.
   */
  predicate WithinRate(angle: real, aim: real, a: real, n: nat)
  {
    Abs(aim - a) * (19 + n) as real <= 19.0 * Abs(aim - angle)
  }

  /**
    The rotation settles on the aim: after `n` frames the distance still to
    go is at most 19 / (19 + n) of the starting distance.
   */
  lemma EaseNConverges(angle: real, aim: real, n: nat)
    ensures WithinRate(angle, aim, EaseN(angle, aim, n), n)
  {
    EaseNResidual(angle, aim, n);
    PowRetainRate(n);
    PowRetainBounds(n);
    RateBound(aim - EaseN(angle, aim, n), aim - angle, Pow(Retain, n), (19 + n) as real);
  }

  /** A distance scaled by `p`, with `p * k <= 19`, is at most 19 / k of the original. */
  lemma RateBound(x: real, y: real, p: real, k: real)
    requires x == p * y
    requires 0.0 <= p && 0.0 <= k && p * k <= 19.0
    ensures Abs(x) * k <= 19.0 * Abs(y)
  {
    AbsScale(p, y);
    ScaleBelow(p * k, 19.0, Abs(y));
    assert Abs(x) * k == (p * k) * Abs(y);
  }

  lemma AbsScale(p: real, x: real)
    requires 0.0 <= p
    ensures Abs(p * x) == p * Abs(x)
  {
    if x < 0.0 {
      assert p * x == -(p * -x);
    }
  }

  /** Scaling both sides of an inequality by the same non-negative factor. */
  lemma ScaleBelow(a: real, b: real, c: real)
    requires a <= b && 0.0 <= c
    ensures a * c <= b * c
  {
  }
}
