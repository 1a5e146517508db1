/** Scrolling of the experience timeline (components/experience.tsx).

    Arrow buttons and the wheel compute a horizontal scroll target; an 800 ms
    animation then moves `scrollLeft` from its start to that target along an
    ease-in-out cubic curve. Numbers are Dafny reals: IEEE-754 rounding and the
    browser's clamping of `scrollLeft` are not modelled. */
module Timeline {
  import opened Wrappers

  datatype Side = Left | Right

  const ButtonStep: real := 350.0
  const WheelStep: real := 150.0
  const Duration: real := 800.0

  /** `scrollTimeline`: an arrow button aims one button step to its side;
      without a timeline element nothing happens. */
  function ButtonTarget(hasTimeline: bool, current: real, side: Side): (r: Option<real>)
    ensures r.None? <==> !hasTimeline
    ensures r.Some? && side == Left ==> r.value < current && current - r.value == ButtonStep
    ensures r.Some? && side == Right ==> r.value > current && r.value - current == ButtonStep
  {
    if !hasTimeline then None
    else if side == Left then Some(current - ButtonStep)
    else Some(current + ButtonStep)
  }

  /** The timeline's wheel handler: a zero vertical delta is ignored, any other
      delta aims one wheel step in its direction. The listener is only
      installed when the timeline element exists. */
  function WheelTarget(hasTimeline: bool, current: real, deltaY: real): (r: Option<real>)
    ensures r.None? <==> !hasTimeline || deltaY == 0.0
    ensures r.Some? ==> (r.value > current <==> deltaY > 0.0)
    ensures r.Some? ==> r.value == current + WheelStep || r.value == current - WheelStep
  {
    if !hasTimeline || deltaY == 0.0 then None
    else
      var direction := if deltaY > 0.0 then 1.0 else -1.0;
      Some(current + direction * WheelStep)
  }

  /** Animation progress: elapsed time over the duration, capped at 1. */
  function Progress(elapsed: real): (p: real)
    ensures p <= 1.0
    ensures p == 1.0 <==> elapsed >= Duration
    ensures elapsed >= 0.0 ==> 0.0 <= p
    ensures p * Duration <= elapsed
    ensures elapsed <= Duration ==> p * Duration == elapsed
  {
    if elapsed / Duration <= 1.0 then elapsed / Duration else 1.0
  }

  function Cube(x: real): real { x * x * x }

  /** The ease-in-out cubic curve. */
  function Ease(t: real): real
  {
    if t < 0.5 then 4.0 * Cube(t) else 1.0 - Cube(-2.0 * t + 2.0) / 2.0
  }

  lemma CubeMonotone(x: real, y: real)
    requires 0.0 <= x <= y
    ensures Cube(x) <= Cube(y)
  {
    assert x * x <= y * y by {
      assert x * x <= x * y;
      assert x * y <= y * y;
    }
    assert x * x * x <= y * y * x;
    assert y * y * x <= y * y * y;
  }

  lemma CubeBounds(x: real)
    requires 0.0 <= x <= 1.0
    ensures 0.0 <= Cube(x) <= x
  {
    assert 0.0 <= x * x <= x by {
      assert x * x <= x * 1.0;
    }
    assert x * x * x <= x * x * 1.0;
  }

  lemma EaseFixedPoints()
    ensures Ease(0.0) == 0.0 && Ease(0.5) == 0.5 && Ease(1.0) == 1.0
  {
    assert Cube(0.0) == 0.0 * 0.0 * 0.0 == 0.0;
    assert Cube(1.0) == 1.0 * 1.0 * 1.0 == 1.0;
    assert -2.0 * 0.5 + 2.0 == 1.0;
    assert -2.0 * 1.0 + 2.0 == 0.0;
  }

  /** The two branches meet at one half: the curve is continuous there, and
      within distance `d` of one half it stays within `3d` of one half (the
      curve's slope is at most 3). */
  lemma EaseContinuousAtHalf(t: real)
    requires 0.0 <= t <= 1.0
    ensures 4.0 * Cube(0.5) == 1.0 - Cube(-2.0 * 0.5 + 2.0) / 2.0
    ensures t < 0.5 ==> -3.0 * (0.5 - t) <= Ease(t) - 0.5 <= 0.0
    ensures t >= 0.5 ==> 0.0 <= Ease(t) - 0.5 <= 3.0 * (t - 0.5)
  {
    if t < 0.5 {
      SlopeBelowHalf(t);
    } else {
      SlopeBelowHalf(1.0 - t);
      EaseSymmetric(1.0 - t);
    }
  }

  /** For `0 <= t <= 1/2`, `1/2 - 4t^3 <= 3(1/2 - t)`, i.e. the lower branch
      stays within slope 3 of its value at one half. */
  lemma SlopeBelowHalf(t: real)
    requires 0.0 <= t <= 0.5
    ensures 0.0 <= 0.5 - 4.0 * Cube(t) <= 3.0 * (0.5 - t)
  {
    var u := 0.5 - t;
    assert Cube(t) == Cube(0.5 - u);
    assert 4.0 * Cube(0.5 - u) == 0.5 - 3.0 * u + 6.0 * u * u - 4.0 * u * u * u;
    assert 6.0 * u * u - 4.0 * u * u * u >= 0.0 by {
      assert u * u * u <= u * u * 0.5 by {
        assert 0.0 <= u * u;
      }
    }
    CubeMonotone(t, 0.5);
  }

  /** The curve is point-symmetric about (1/2, 1/2). */
  lemma EaseSymmetric(t: real)
    ensures Ease(1.0 - t) == 1.0 - Ease(t)
  {
    if t < 0.5 {
      assert -2.0 * (1.0 - t) + 2.0 == 2.0 * t;
      assert Cube(2.0 * t) == 8.0 * Cube(t);
    } else if t > 0.5 {
      assert 1.0 - t < 0.5;
      assert -2.0 * t + 2.0 == 2.0 * (1.0 - t);
      assert Cube(2.0 * (1.0 - t)) == 8.0 * Cube(1.0 - t);
    }
  }

  /** The curve maps [0, 1] into [0, 1]. */
  lemma EaseRange(t: real)
    requires 0.0 <= t <= 1.0
    ensures 0.0 <= Ease(t) <= 1.0
  {
    if t < 0.5 {
      CubeMonotone(t, 0.5);
      CubeBounds(t);
    } else {
      CubeBounds(-2.0 * t + 2.0);
    }
  }

  /** The curve never turns back on [0, 1]. */
  lemma EaseMonotone(a: real, b: real)
    requires 0.0 <= a <= b <= 1.0
    ensures Ease(a) <= Ease(b)
  {
    if b < 0.5 {
      CubeMonotone(a, b);
    } else if a >= 0.5 {
      CubeMonotone(-2.0 * b + 2.0, -2.0 * a + 2.0);
    } else {
      CubeMonotone(a, 0.5);
      CubeMonotone(-2.0 * b + 2.0, 1.0);
    }
  }

  /** One animation frame of `smoothScroll`: the new `scrollLeft` and whether
      another frame is requested. `elapsed` is the frame timestamp minus the
      start time. */
  datatype Frame = Frame(scrollLeft: real, again: bool)

  function AnimateFrame(start: real, target: real, elapsed: real): (f: Frame)
    ensures f.again <==> elapsed < Duration
    ensures !f.again ==> f.scrollLeft == target
    ensures elapsed >= 0.0 ==> Between(f.scrollLeft, start, target)
    ensures f.scrollLeft == Interpolate(start, target, Ease(Progress(elapsed)))
  {
    var p := Progress(elapsed);
    var e := Ease(p);
    assert elapsed >= 0.0 ==> 0.0 <= e <= 1.0 by {
      if elapsed >= 0.0 { EaseRange(p); }
    }
    InterpolateFacts(start, target, e);
    Frame(Interpolate(start, target, e), p < 1.0)
  }

  /** `start + change * e`: the position at eased progress `e`. */
  function Interpolate(start: real, target: real, e: real): real
  {
    start + (target - start) * e
  }

  predicate Between(x: real, a: real, b: real)
  {
    (a <= b ==> a <= x <= b) && (b <= a ==> b <= x <= a)
  }

  /** Eased progress 1 lands on the target, and any eased progress in [0, 1]
      lies between the start and the target. */
  lemma InterpolateFacts(start: real, target: real, e: real)
    ensures e == 1.0 ==> Interpolate(start, target, e) == target
    ensures 0.0 <= e <= 1.0 ==> Between(Interpolate(start, target, e), start, target)
  {
    var c := target - start;
    assert Interpolate(start, target, e) == start + c * e;
    if e == 1.0 {
      assert c * e == c;
    }
    if 0.0 <= e <= 1.0 {
      ProductBounds(c, e);
    }
  }

  lemma ProductBounds(c: real, e: real)
    requires 0.0 <= e <= 1.0
    ensures c >= 0.0 ==> 0.0 <= c * e <= c
    ensures c <= 0.0 ==> c <= c * e <= 0.0
  {
    assert c - c * e == c * (1.0 - e);
    if c >= 0.0 {
      MulNonNeg(c, e);
      MulNonNeg(c, 1.0 - e);
    } else {
      MulNonNeg(-c, e);
      MulNonNeg(-c, 1.0 - e);
    }
  }

  lemma MulNonNeg(a: real, b: real)
    requires a >= 0.0 && b >= 0.0
    ensures a * b >= 0.0
  {
  }

  /** Interpolation preserves the order of eased progress, in the direction
      of travel. */
  lemma InterpolateMonotone(start: real, target: real, a: real, b: real)
    requires a <= b
    ensures start <= target ==> Interpolate(start, target, a) <= Interpolate(start, target, b)
    ensures target <= start ==> Interpolate(start, target, b) <= Interpolate(start, target, a)
  {
    var c := target - start;
    assert Interpolate(start, target, b) - Interpolate(start, target, a) == c * (b - a);
    if c >= 0.0 {
      MulNonNeg(c, b - a);
    } else {
      MulNonNeg(-c, b - a);
    }
  }

  /** Later frames are never further from the target than earlier ones. */
  lemma FramesApproachTarget(start: real, target: real, e1: real, e2: real)
    requires 0.0 <= e1 <= e2
    ensures start <= target ==> AnimateFrame(start, target, e1).scrollLeft <= AnimateFrame(start, target, e2).scrollLeft
    ensures target <= start ==> AnimateFrame(start, target, e2).scrollLeft <= AnimateFrame(start, target, e1).scrollLeft
  {
    var p1, p2 := Progress(e1), Progress(e2);
    EaseMonotone(p1, p2);
    InterpolateMonotone(start, target, Ease(p1), Ease(p2));
    assert AnimateFrame(start, target, e1).scrollLeft == Interpolate(start, target, Ease(p1));
    assert AnimateFrame(start, target, e2).scrollLeft == Interpolate(start, target, Ease(p2));
  }

  /** The two arrow buttons undo each other. */
  lemma ButtonsAreInverse(current: real)
    ensures ButtonTarget(true, ButtonTarget(true, current, Left).value, Right) == Some(current)
    ensures ButtonTarget(true, ButtonTarget(true, current, Right).value, Left) == Some(current)
  {
  }

  /** Wheel turns of opposite sign undo each other. */
  lemma WheelTurnsAreInverse(current: real, deltaY: real)
    requires deltaY != 0.0
    ensures WheelTarget(true, current, deltaY).Some?
    ensures WheelTarget(true, WheelTarget(true, current, deltaY).value, -deltaY) == Some(current)
  {
  }

  /** A button press scrolls the timeline exactly one button step to its side
      once its animation has run for the full duration. */
  lemma ButtonScrollEndsOneStepAway(current: real, side: Side, elapsed: real)
    requires elapsed >= Duration
    ensures var f := AnimateFrame(current, ButtonTarget(true, current, side).value, elapsed);
      && !f.again
      && (side == Left ==> f.scrollLeft == current - ButtonStep)
      && (side == Right ==> f.scrollLeft == current + ButtonStep)
  {
  }

  /** A non-zero wheel turn scrolls the timeline exactly one wheel step in its
      direction once its animation has run for the full duration. */
  lemma WheelScrollEndsOneStepAway(current: real, deltaY: real, elapsed: real)
    requires deltaY != 0.0 && elapsed >= Duration
    ensures var f := AnimateFrame(current, WheelTarget(true, current, deltaY).value, elapsed);
      && !f.again
      && (deltaY > 0.0 ==> f.scrollLeft == current + WheelStep)
      && (deltaY < 0.0 ==> f.scrollLeft == current - WheelStep)
  {
  }

  /** Halfway through the animation the timeline is halfway to its target. */
  lemma AnimationHalfway(start: real, target: real)
    ensures AnimateFrame(start, target, Duration / 2.0).again
    ensures AnimateFrame(start, target, Duration / 2.0).scrollLeft == (start + target) / 2.0
  {
    assert Progress(Duration / 2.0) == 0.5;
    EaseFixedPoints();
  }
}
