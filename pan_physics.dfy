/**
 * Pure arithmetic of the kinetic pannable area (hildon/hildon-pannable-area.c):
 * adjustments, one scroll step on one axis with its overshoot and bounce,
 * drag velocity, the ease-out curve of animated scrolling, the target
 * clamps of the programmatic scroll calls, the child allocation under an
 * overshoot and the (unused) velocity factor.
 */
module PanPhysics {

  import opened Optional

  /** The glib CLAMP macro: the upper bound is tested first. */
  function Clamp(x: real, lo: real, hi: real): (r: real)
    ensures lo <= hi ==> lo <= r <= hi
    ensures lo <= x <= hi ==> r == x
    ensures r == x || r == lo || r == hi
  {
    if x > hi then hi else if x < lo then lo else x
  }

  /** glib MIN, MAX and ABS on doubles. */
  function Min(a: real, b: real): real { if a < b then a else b }
  function Max(a: real, b: real): real { if a > b then a else b }
  function Abs(a: real): real { if a < 0.0 then -a else a }

  /** glib MIN and MAX on integers. */
  function IMin(a: int, b: int): int { if a < b then a else b }
  function IMax(a: int, b: int): int { if a > b then a else b }

  /** The C conversion of a double to an int: truncation toward zero. */
  function Trunc(r: real): int
  {
    if r >= 0.0 then r.Floor else -((-r).Floor)
  }

  /** Truncation moves a value less than one step toward zero. */
  lemma TruncBounds(r: real)
    ensures 0.0 <= r ==> 0 <= Trunc(r) && Trunc(r) as real <= r < Trunc(r) as real + 1.0
    ensures r < 0.0 ==> Trunc(r) <= 0 && Trunc(r) as real - 1.0 < r <= Trunc(r) as real
  {
  }

  /** The C `ceil` followed by a conversion to int. */
  function Ceil(r: real): (i: int)
    ensures r <= i as real < r + 1.0
  {
    -((-r).Floor)
  }

  /** The four numbers of a GtkAdjustment that the area reads. */
  datatype Adjustment = Adjustment(value: real, lower: real, upper: real, pageSize: real)

  /** The test the area uses for "this axis has something to scroll". */
  predicate Scrollable(a: Adjustment)
  {
    a.upper - a.lower > a.pageSize
  }

  /** A position the axis may rest at: from lower to upper - page_size
      (just lower when the page is larger than the range). */
  predicate InRange(a: Adjustment, v: real)
  {
    a.lower <= v <= Max(a.lower, a.upper - a.pageSize)
  }

  predicate InBounds(a: Adjustment)
  {
    InRange(a, a.value)
  }

  /**
   * The per-axis state the area keeps and hands to axis_scroll by
   * reference: the adjustment, the velocity, the overshoot phase counter
   * (0 when not overshooting), the overshoot distance in pixels and the
   * snap target (-1 when there is none).
   */
  datatype Axis = Axis(adj: Adjustment, vel: real, overshooting: int, overshotDist: int, scrollTo: real)

  /** The invariant every axis of the area keeps. */
  predicate AxisValid(a: Axis, max: nat)
  {
    && InBounds(a.adj)
    && -(max as int) <= a.overshotDist <= max
    && (a.scrollTo == -1.0 || InRange(a.adj, a.scrollTo))
  }

  /** The new axis state and the `s` flag: false when the step ran into a bound. */
  datatype Step = Step(axis: Axis, ok: bool)

  /** Sign and order facts about products and quotients of reals. */
  lemma MulNonneg(a: real, b: real)
    requires 0.0 <= a && 0.0 <= b
    ensures 0.0 <= a * b
  {
  }

  lemma MulLe(a: real, b: real, c: real)
    requires a <= b && 0.0 <= c
    ensures a * c <= b * c
  {
    MulNonneg(b - a, c);
  }

  lemma MulGe(a: real, b: real, c: real)
    requires 0.0 <= c
    ensures a >= b ==> a * c >= b * c
  {
    if a >= b {
      MulLe(b, a, c);
    }
  }

  lemma DivMul(a: real, b: real)
    requires b != 0.0
    ensures (a / b) * b == a
  {
  }

  lemma DivNonneg(a: real, b: real)
    requires 0.0 <= a && 0.0 < b
    ensures 0.0 <= a / b
  {
  }

  lemma DivNeg(a: real, b: real)
    requires b != 0.0
    ensures (-a) / b == -(a / b)
  {
  }

  lemma MulLtPos(a: real, b: real, c: real)
    requires a < b && 0.0 < c
    ensures a * c < b * c
  {
  }

  /** Product bounds used by the bounce damping. */
  lemma ScaleBelowOne(q: real, v: real)
    requires 0.0 < q <= 1.0
    ensures v > 0.0 ==> 0.0 < q * v <= v
    ensures v < 0.0 ==> v <= q * v < 0.0
  {
  }

  /** A positive ratio of two integers at most one. */
  lemma RatioInUnit(d: int, max: nat)
    requires 0 < d <= max
    ensures 0.0 < d as real / max as real <= 1.0
  {
  }

  /** Truncating a value clamped to [0, max] (or [-max, 0]) stays there. */
  lemma TruncClamped(r: real, max: nat)
    ensures 0 <= Trunc(Clamp(r, 0.0, max as real)) <= max
    ensures -(max as int) <= Trunc(Clamp(r, -(max as real), 0.0)) <= 0
  {
    TruncBounds(Clamp(r, 0.0, max as real));
    TruncBounds(Clamp(r, -(max as real), 0.0));
  }

  /**
   * The velocity part of axis_scroll once the finger is up and the axis
   * is overshooting: the overshoot runs on for bounce_steps steps, each
   * damped by the share of overshoot_max already used, then the direction
   * is reversed and the contents spring back with at least 10 pixels per
   * step.
   */
  function BounceVelocity(a: Axis, max: nat, bounceSteps: nat): (r: Axis)
    requires -(max as int) <= a.overshotDist <= max
    requires a.overshotDist != 0
    ensures r == a.(vel := r.vel, overshooting := r.overshooting)
    // running on, outward and damped
    ensures a.overshotDist > 0 && a.vel > 0.0 && a.overshooting < bounceSteps ==>
              r.overshooting == a.overshooting + 1 && 0.0 < r.vel <= a.vel
    ensures a.overshotDist < 0 && a.vel < 0.0 && a.overshooting < bounceSteps ==>
              r.overshooting == a.overshooting + 1 && a.vel <= r.vel < 0.0
    // reversing
    ensures a.overshotDist > 0 && a.vel > 0.0 && a.overshooting >= bounceSteps ==>
              r.overshooting == a.overshooting && r.vel == -a.vel
    ensures a.overshotDist < 0 && a.vel < 0.0 && a.overshooting >= bounceSteps ==>
              r.overshooting == a.overshooting && r.vel == -a.vel
    // springing back
    ensures a.overshotDist > 0 && a.vel < 0.0 && a.overshooting > 1 ==>
              r.overshooting == a.overshooting && r.vel <= -10.0
    ensures a.overshotDist < 0 && a.vel > 0.0 && a.overshooting > 1 ==>
              r.overshooting == a.overshooting && r.vel >= 10.0
    // nothing to do
    ensures (a.vel == 0.0 || (a.overshooting <= 1 && (a.overshotDist > 0 <==> a.vel < 0.0))) ==> r == a
  {
    var od := a.overshotDist;
    if od > 0 then
      if a.overshooting < bounceSteps && a.vel > 0.0 then
        RatioInUnit(od, max);
        ScaleBelowOne(od as real / max as real, a.vel);
        a.(overshooting := a.overshooting + 1, vel := (od as real / max as real) * a.vel)
      else if a.overshooting >= bounceSteps && a.vel > 0.0 then
        a.(vel := -a.vel)
      else if a.overshooting > 1 && a.vel < 0.0 then
        a.(vel := Min(od as real * 0.8 * -1.0, -10.0))
      else a
    else
      if a.overshooting < bounceSteps && a.vel < 0.0 then
        RatioInUnit(-od, max);
        ScaleBelowOne((-od) as real / max as real, a.vel);
        var q := (-od) as real / max as real;
        DivNeg(od as real, max as real);
        assert od as real / max as real == -q;
        assert (od as real / max as real) * a.vel * -1.0 == q * a.vel;
        a.(overshooting := a.overshooting + 1, vel := (od as real / max as real) * a.vel * -1.0)
      else if a.overshooting >= bounceSteps && a.vel < 0.0 then
        a.(vel := -a.vel)
      else if a.overshooting > 1 && a.vel > 0.0 then
        a.(vel := Max(od as real * 0.8 * -1.0, 10.0))
      else a
  }

  /**
   * axis_scroll once the finger is up and the axis is overshooting: the
   * velocity is updated as BounceVelocity says and the overshoot moves by
   * it, staying on its side of the bound and within overshoot_max; an
   * overshoot that is back at zero ends and stops the axis.
   */
  function Bounce(a: Axis, max: nat, bounceSteps: nat): (r: Axis)
    requires -(max as int) <= a.overshotDist <= max
    ensures r.adj == a.adj && r.scrollTo == a.scrollTo
    ensures -(max as int) <= r.overshotDist <= max
    ensures a.overshotDist > 0 ==> 0 <= r.overshotDist
    ensures a.overshotDist < 0 ==> r.overshotDist <= 0
    ensures a.overshotDist == 0 ==> r.overshooting == 0 && r.vel == 0.0 && r.overshotDist == 0
    ensures a.overshotDist != 0 ==>
              var b := BounceVelocity(a, max, bounceSteps);
              r.vel == b.vel && r.overshooting == b.overshooting
    ensures a.overshotDist > 0 && 0.0 <= a.overshotDist as real + r.vel <= max as real ==>
              r.overshotDist == Trunc(a.overshotDist as real + r.vel)
    ensures a.overshotDist < 0 && -(max as real) <= a.overshotDist as real + r.vel <= 0.0 ==>
              r.overshotDist == Trunc(a.overshotDist as real + r.vel)
  {
    var od := a.overshotDist;
    if od == 0 then
      a.(overshooting := 0, vel := 0.0)
    else
      var b := BounceVelocity(a, max, bounceSteps);
      TruncClamped(od as real + b.vel, max);
      if od > 0 then b.(overshotDist := Trunc(Clamp(od as real + b.vel, 0.0, max as real)))
      else b.(overshotDist := Trunc(Clamp(od as real + b.vel, -(max as real), 0.0)))
  }

  /**
   * axis_scroll while the finger is down and the axis is overshooting:
   * the overshoot follows the drag (rubber band), clamped to the
   * overshoot limit; once it is back to zero the overshoot ends and the
   * adjustment takes the clamped position.
   */
  function RubberBand(a: Axis, inc: real, max: nat): (r: Axis)
    requires -(max as int) <= a.overshotDist <= max
    ensures r.vel == a.vel && r.scrollTo == a.scrollTo
    ensures -(max as int) <= r.overshotDist <= max
    ensures a.overshotDist != 0 ==> r.adj == a.adj && r.overshooting == a.overshooting
    ensures a.overshotDist > 0 && 0.0 <= a.overshotDist as real + inc <= max as real ==>
              r.overshotDist == Trunc(a.overshotDist as real + inc)
    ensures a.overshotDist < 0 && -(max as real) <= a.overshotDist as real + inc <= 0.0 ==>
              r.overshotDist == Trunc(a.overshotDist as real + inc)
    ensures a.overshotDist > 0 ==> 0 <= r.overshotDist
    ensures a.overshotDist < 0 ==> r.overshotDist <= 0
    ensures a.overshotDist == 0 ==>
              r.overshooting == 0 && r.overshotDist == 0 && r.adj == a.adj.(value := Clamp(a.adj.value - inc, a.adj.lower, a.adj.upper - a.adj.pageSize))
  {
    var od := a.overshotDist;
    TruncClamped(od as real + inc, max);
    if od > 0 then a.(overshotDist := Trunc(Clamp(od as real + inc, 0.0, max as real)))
    else if od < 0 then a.(overshotDist := Trunc(Clamp(od as real + inc, -(max as real), 0.0)))
    else
      a.(overshooting := 0,
         adj := a.adj.(value := Clamp(a.adj.value - inc, a.adj.lower, a.adj.upper - a.adj.pageSize)))
  }

  /**
   * hildon_pannable_axis_scroll: move one axis by `inc` pixels (the
   * contents move by -inc). Outside an overshoot the position follows
   * the step; a step past a bound stops at the bound and either starts an
   * overshoot (overshoot_max != 0) or stops the axis; a pending snap
   * target is taken once the step reaches or passes it.
   */
  function AxisStep(a: Axis, inc: real, max: nat, vmaxOvershooting: real, bounceSteps: nat, pressed: bool): (r: Step)
    requires -(max as int) <= a.overshotDist <= max
    ensures r.axis.adj == a.adj.(value := r.axis.adj.value)
    ensures !r.ok ==> a.overshooting == 0 && r.axis.scrollTo == -1.0
    ensures Scrollable(a.adj) && AxisValid(a, max) ==> AxisValid(r.axis, max)
    // hitting the lower bound
    ensures a.overshooting == 0 && a.adj.value - inc < a.adj.lower ==>
              && !r.ok && r.axis.adj.value == a.adj.lower
              && (max != 0 ==> r.axis.overshooting == 1 && 0 <= r.axis.overshotDist
                               && r.axis.vel <= vmaxOvershooting && (r.axis.vel == a.vel || r.axis.vel == vmaxOvershooting))
              && (max == 0 ==> r.axis.overshooting == 0 && r.axis.vel == 0.0 && r.axis.overshotDist == a.overshotDist)
    // hitting the upper bound
    ensures a.overshooting == 0 && a.adj.lower <= a.adj.value - inc && a.adj.value - inc > a.adj.upper - a.adj.pageSize ==>
              && !r.ok && r.axis.adj.value == a.adj.upper - a.adj.pageSize
              && (max != 0 ==> r.axis.overshooting == 1 && r.axis.overshotDist <= 0
                               && r.axis.vel >= -vmaxOvershooting && (r.axis.vel == a.vel || r.axis.vel == -vmaxOvershooting))
              && (max == 0 ==> r.axis.overshooting == 0 && r.axis.vel == 0.0 && r.axis.overshotDist == a.overshotDist)
    // an ordinary step, possibly completing a snap
    ensures a.overshooting == 0 && a.adj.lower <= a.adj.value - inc <= a.adj.upper - a.adj.pageSize ==>
              && r.ok && r.axis.overshooting == 0 && r.axis.overshotDist == a.overshotDist
              && (r.axis == a.(adj := a.adj.(value := a.adj.value - inc))
                  || (a.scrollTo != -1.0 && r.axis == a.(adj := a.adj.(value := a.scrollTo), scrollTo := -1.0, vel := 0.0)))
    ensures a.overshooting == 0 && a.scrollTo == -1.0 && a.adj.lower <= a.adj.value - inc <= a.adj.upper - a.adj.pageSize ==>
              r.axis == a.(adj := a.adj.(value := a.adj.value - inc))
    ensures a.overshooting == 0 && a.scrollTo != -1.0 && a.adj.lower <= a.adj.value - inc <= a.adj.upper - a.adj.pageSize
            && ((inc < 0.0 && a.scrollTo <= a.adj.value - inc) || (inc > 0.0 && a.scrollTo >= a.adj.value - inc)) ==>
              r.axis.adj.value == a.scrollTo && r.axis.scrollTo == -1.0 && r.axis.vel == 0.0
    // inside an overshoot
    ensures a.overshooting != 0 ==> r.ok && r.axis == (if pressed then RubberBand(a, inc, max) else Bounce(a, max, bounceSteps))
  {
    var adj := a.adj;
    var dist := adj.value - inc;
    var hi := adj.upper - adj.pageSize;
    if a.overshooting == 0 then
      if dist < adj.lower then
        if max != 0 then
          TruncClamped(a.overshotDist as real + a.vel, max);
          Step(a.(adj := adj.(value := adj.lower), overshooting := 1, scrollTo := -1.0,
                  overshotDist := Trunc(Clamp(a.overshotDist as real + a.vel, 0.0, max as real)),
                  vel := Min(vmaxOvershooting, a.vel)), false)
        else
          Step(a.(adj := adj.(value := adj.lower), vel := 0.0, scrollTo := -1.0), false)
      else if dist > hi then
        if max != 0 then
          TruncClamped(a.overshotDist as real + a.vel, max);
          Step(a.(adj := adj.(value := hi), overshooting := 1, scrollTo := -1.0,
                  overshotDist := Trunc(Clamp(a.overshotDist as real + a.vel, -(max as real), 0.0)),
                  vel := Max(-vmaxOvershooting, a.vel)), false)
        else
          Step(a.(adj := adj.(value := hi), vel := 0.0, scrollTo := -1.0), false)
      else if a.scrollTo != -1.0 && ((inc < 0.0 && a.scrollTo <= dist) || (inc > 0.0 && a.scrollTo >= dist)) then
        Step(a.(adj := adj.(value := a.scrollTo), scrollTo := -1.0, vel := 0.0), true)
      else
        Step(a.(adj := adj.(value := dist)), true)
    else if !pressed then
      Step(Bounce(a, max, bounceSteps), true)
    else
      Step(RubberBand(a, inc, max), true)
  }

  const RatioTolerance: real := 0.000001

  /** The final MIN/MAX of calculate_velocity: a positive value is capped
      at vmax, any other at -vmax. */
  function Saturate(v: real, vmax: real): (r: real)
    ensures vmax >= 0.0 ==> -vmax <= r <= vmax
    ensures -vmax <= v <= vmax ==> r == v
    ensures vmax >= 0.0 && v > vmax ==> r == vmax
    ensures vmax >= 0.0 && v < -vmax ==> r == -vmax
  {
    if v > 0.0 then Min(v, vmax) else Max(v, -vmax)
  }

  /**
   * hildon_pannable_area_calculate_velocity: a drag of `dist` pixels over
   * `delta` milliseconds mixes the raw drag speed into the velocity with
   * weight drag_inertia and saturates the result at +-vmax; a drag
   * shorter than the tolerance leaves the velocity alone. When two events
   * carry the same time the raw speed is an IEEE infinity; the value the
   * C code then ends with (+vmax or -vmax, the latter also for 0 * inf)
   * is written out.
   */
  function CalculateVelocity(vel: real, delta: real, dist: real, vmax: real, inertia: real, force: real): (r: real)
    ensures Abs(dist) < RatioTolerance ==> r == vel
    ensures Abs(dist) >= RatioTolerance && vmax >= 0.0 ==> -vmax <= r <= vmax
    ensures Abs(dist) >= RatioTolerance && delta != 0.0 ==>
              r == Saturate(vel * (1.0 - inertia) + (dist / Abs(delta)) * force * inertia, vmax)
    ensures Abs(dist) >= RatioTolerance && delta == 0.0 && vmax != 0.0 ==>
              (r == vmax <==> (force > 0.0 && dist * inertia > 0.0) || (force < 0.0 && dist * inertia < 0.0))
    ensures Abs(dist) >= RatioTolerance && delta == 0.0 ==> (r == vmax || r == -vmax)
  {
    if Abs(dist) < RatioTolerance then vel
    else if delta == 0.0 then
      // (dist / 0.0) * force * inertia is +inf, -inf or NaN; only +inf survives the cap as vmax
      if (force > 0.0 && dist * inertia > 0.0) || (force < 0.0 && dist * inertia < 0.0) then vmax else -vmax
    else
      Saturate(vel * (1.0 - inertia) + (dist / Abs(delta)) * force * inertia, vmax)
  }

  /** ease_out_cubic: (t - 1)^3 + 1. */
  function EaseOutCubic(t: real): (r: real)
    ensures t == 0.0 ==> r == 0.0
    ensures t == 1.0 ==> r == 1.0
  {
    var p := t - 1.0;
    p * p * p + 1.0
  }

  /** The curve maps [0, 1] onto [0, 1]. */
  lemma EaseOutCubicInUnit(t: real)
    requires 0.0 <= t <= 1.0
    ensures 0.0 <= EaseOutCubic(t) <= 1.0
  {
    var p := t - 1.0;
    assert 0.0 <= p * p <= 1.0 by {
      assert p * p == (-p) * (-p);
      assert (-p) * (-p) <= (-p) * 1.0;
    }
    assert -1.0 <= p * p * p <= 0.0 by {
      assert p * p * p == (p * p) * p;
      assert (p * p) * (-p) <= 1.0 * (-p);
    }
  }

  /** The curve is monotone, so an animation never moves backwards. */
  lemma EaseOutCubicMonotone(s: real, t: real)
    requires s <= t
    ensures EaseOutCubic(s) <= EaseOutCubic(t)
  {
    var p := s - 1.0;
    var q := t - 1.0;
    assert q * q * q - p * p * p == (q - p) * (q * q + q * p + p * p);
    assert q * q + q * p + p * p == (q + p / 2.0) * (q + p / 2.0) + 3.0 * p * p / 4.0;
    assert (q + p / 2.0) * (q + p / 2.0) >= 0.0;
    assert p * p >= 0.0;
    assert (q - p) * (q * q + q * p + p * p) >= 0.0;
  }

  /** src + t * (dst - src) for t in [0, 1] lies between src and dst. */
  lemma InterpolationBetween(src: real, dst: real, t: real)
    requires 0.0 <= t <= 1.0
    ensures Min(src, dst) <= src + t * (dst - src) <= Max(src, dst)
  {
    var w := dst - src;
    var y := t * w;
    if src <= dst {
      assert 0.0 <= y <= w;
      assert src <= src + y <= dst;
    } else {
      assert w <= y <= 0.0;
      assert dst <= src + y <= src;
    }
  }

  /** The set_value_internal target of one axis: -1 keeps the current value,
      anything else is brought into range without going below lower. */
  function SetValueTarget(req: real, a: Adjustment): (r: real)
    ensures req == -1.0 ==> r == a.value
    ensures req != -1.0 ==> InRange(a, r)
    ensures req != -1.0 && InRange(a, req) ==> r == req
    ensures req != -1.0 && req < a.lower ==> r == a.lower
    ensures InBounds(a) ==> InRange(a, r)
  {
    if req == -1.0 then a.value
    else Max(Min(req, a.upper - a.pageSize), a.lower)
  }

  /** The scroll_to / jump_to target of one axis: the destination centred
      in the page and clamped with CLAMP; -1 is clamped like any other
      coordinate. On a scrollable axis set_value_internal then keeps the
      clamped target as it is. */
  function CenterTarget(coord: int, a: Adjustment): (r: real)
    ensures Scrollable(a) ==> InRange(a, r)
    ensures Scrollable(a) && r != -1.0 ==> SetValueTarget(r, a) == r
    ensures InRange(a, coord as real - a.pageSize / 2.0) && a.lower <= a.upper - a.pageSize ==>
              r == coord as real - a.pageSize / 2.0
  {
    Clamp(coord as real - a.pageSize / 2.0, a.lower, a.upper - a.pageSize)
  }

  /** An axis given as -1 is moved all the same: with the content at 500 of
      [0, 1000] and a page of 200, a jump to (-1, y) sends it to 0. */
  lemma SentinelMovesAxis()
    ensures var a := Adjustment(500.0, 0.0, 1000.0, 200.0);
            SetValueTarget(CenterTarget(-1, a), a) == 0.0 != a.value
  {
  }

  /** The mouse-wheel step of scroll_cb: pow(page, 2/3) pixels, negative
      for up and left. */
  datatype ScrollDirection = ScrollUp | ScrollDown | ScrollLeft | ScrollRight | ScrollSmooth

  function WheelDelta(dir: ScrollDirection, step: real): (r: real)
    ensures Abs(r) == Abs(step)
    ensures step > 0.0 ==> (r < 0.0 <==> dir == ScrollUp || dir == ScrollLeft)
  {
    if dir == ScrollUp || dir == ScrollLeft then -step else step
  }

  /** gtk_adjustment_set_value: the adjustment stores the value brought
      into [lower, upper - page_size] without going below lower. */
  function AdjustmentSet(a: Adjustment, v: real): (r: Adjustment)
    ensures InBounds(r)
    ensures r.lower == a.lower && r.upper == a.upper && r.pageSize == a.pageSize
    ensures InRange(a, v) ==> r.value == v
    ensures v < a.lower ==> r.value == a.lower
  {
    a.(value := Max(Min(v, a.upper - a.pageSize), a.lower))
  }

  /** The scroll_cb request: CLAMP of value + delta to [lower, upper - page_size]. */
  function WheelClamp(a: Adjustment, delta: real): (r: real)
    ensures a.lower <= a.upper - a.pageSize ==> InRange(a, r)
  {
    Clamp(a.value + delta, a.lower, a.upper - a.pageSize)
  }

  /** When the page is larger than the range the CLAMP alone ends below
      lower: lower 0, upper 100, page 200 gives -100 on a scroll down. */
  lemma WheelClampLeavesRange()
    ensures var a := Adjustment(0.0, 0.0, 100.0, 200.0);
            WheelClamp(a, 34.0) == -100.0 < a.lower
  {
  }

  /** The value scroll_cb leaves in the adjustment: the CLAMP as stored by
      the adjustment's setter always lies in range, and it is the
      MAX(MIN(...)) clamp set_value_internal uses, whatever the page size. */
  function WheelTarget(a: Adjustment, delta: real): (r: real)
    ensures InRange(a, r)
    ensures InRange(a, a.value + delta) ==> r == a.value + delta
    ensures r == SetValueTarget(a.value + delta, a) || a.value + delta == -1.0
  {
    AdjustmentSet(a, WheelClamp(a, delta)).value
  }

  /** d^n. */
  function Pow(d: real, n: nat): real
  {
    if n == 0 then 1.0 else d * Pow(d, n - 1)
  }

  /** 1 + d + ... + d^(k-1). */
  function GeomSum(d: real, k: nat): real
  {
    if k == 0 then 0.0 else GeomSum(d, k - 1) + Pow(d, k - 1)
  }

  /** The closed form of the velocity factor: (1 - d) * sum = 1 - d^k. */
  lemma {:induction false} GeomSumClosedForm(d: real, k: nat)
    ensures GeomSum(d, k) * (1.0 - d) == 1.0 - Pow(d, k)
  {
    if k > 0 {
      GeomSumClosedForm(d, k - 1);
      calc {
        GeomSum(d, k) * (1.0 - d);
        (GeomSum(d, k - 1) + Pow(d, k - 1)) * (1.0 - d);
        GeomSum(d, k - 1) * (1.0 - d) + Pow(d, k - 1) * (1.0 - d);
        1.0 - Pow(d, k - 1) + Pow(d, k - 1) - d * Pow(d, k - 1);
      }
    }
  }

  /**
   * hildon_pannable_calculate_vel_factor: the sum of the first terms of
   * the geometric series of `decel`, one per frame of scroll_time
   * seconds at sps frames a second, stopping early once a term falls
   * below the tolerance. The result is GeomSum(decel, k) for the k the
   * loop stops at.
   */
  method CalculateVelFactor(sps: nat, scrollTime: real, decel: real) returns (fct: real, ghost k: nat)
    ensures 1 <= k && fct == GeomSum(decel, k)
    ensures k <= IMax(1, Ceil(sps as real * scrollTime))
    ensures k == IMax(1, Ceil(sps as real * scrollTime)) || Pow(decel, k - 1) < RatioTolerance
    ensures forall j: nat :: j < k - 1 ==> Pow(decel, j) >= RatioTolerance
  {
    var n := Ceil(sps as real * scrollTime);
    fct := 1.0;
    var fctI := 1.0;
    var i := 1;
    while i < n && fctI >= RatioTolerance
      invariant 1 <= i <= IMax(1, n)
      invariant fctI == Pow(decel, i - 1)
      invariant fct == GeomSum(decel, i)
      invariant forall j: nat :: j < i - 1 ==> Pow(decel, j) >= RatioTolerance
      decreases n - i
    {
      fctI := fctI * decel;
      fct := fct + fctI;
      i := i + 1;
    }
    k := i;
  }

  /** The speed left after n free steps of the deceleration timeout, each
      of which multiplies the velocity by decel. */
  function Decay(v: real, d: real, n: nat): real
  {
    if n == 0 then v else Decay(v, d, n - 1) * d
  }

  /** Bernoulli's bound on a decaying speed: |v d^n| * (1 + n(1 - d)) <= |v|. */
  lemma {:induction false} DecayBernoulli(v: real, d: real, n: nat)
    requires 0.0 <= d <= 1.0
    ensures Abs(Decay(v, d, n)) * (1.0 + n as real * (1.0 - d)) <= Abs(v)
  {
    if n > 0 {
      DecayBernoulli(v, d, n - 1);
      BernoulliStep(Decay(v, d, n - 1), d, n, v);
    }
  }

  /** One step of the bound: d (1 + n e) <= 1 + (n - 1) e for e = 1 - d. */
  lemma BernoulliStep(a: real, d: real, n: nat, v: real)
    requires 0.0 <= d <= 1.0 && n > 0
    requires Abs(a) * (1.0 + (n - 1) as real * (1.0 - d)) <= Abs(v)
    ensures Abs(a * d) * (1.0 + n as real * (1.0 - d)) <= Abs(v)
  {
    var q := Abs(a);
    var e := 1.0 - d;
    var b := 1.0 + (n - 1) as real * e;
    assert Abs(a * d) == q * d;
    assert d * (b + e) == b - n as real * e * e by { assert d == 1.0 - e; }
    assert n as real * e * e >= 0.0;
    MulLe(d * (b + e), b, q);
    assert q * d * (1.0 + n as real * e) == d * (b + e) * q;
  }

  /** The number of free deceleration steps after which a speed |v| is
      below one pixel per step. */
  function StopBound(v: real, d: real): nat
    requires 0.0 < d < 1.0
  {
    DivNonneg(Abs(v), 1.0 - d);
    (Abs(v) / (1.0 - d)).Floor + 1
  }

  /** With decel in (0, 1), repeated deceleration brings any speed below
      the 1.0 the timeout stops at, within StopBound steps. */
  lemma DecayStops(v: real, d: real)
    requires 0.0 < d < 1.0
    ensures Abs(Decay(v, d, StopBound(v, d))) < 1.0
  {
    var n := StopBound(v, d);
    PastRatio(Abs(v), 1.0 - d, n);
    DecayBernoulli(v, d, n);
    var q := Abs(Decay(v, d, n));
    assert q * (1.0 + n as real * (1.0 - d)) <= Abs(v);
    BelowOne(q, n as real * (1.0 - d), Abs(v));
  }

  /** q (1 + m) <= x < m with q >= 0 gives q < 1. */
  lemma BelowOne(q: real, m: real, x: real)
    requires 0.0 <= q && 0.0 <= x && q * (1.0 + m) <= x < m
    ensures q < 1.0
  {
    MulGe(q, 1.0, 1.0 + m);
  }

  /** n > x / e gives n * e > x for a positive e. */
  lemma PastRatio(x: real, e: real, n: nat)
    requires 0.0 < e && 0.0 <= x && n as real > x / e
    ensures n as real * e > x
  {
    assert (x / e) * e == x;
    assert (x / e) * e < n as real * e;
  }

  /** A rectangle of a GtkAllocation. */
  datatype Rect = Rect(x: int, y: int, width: int, height: int)

  /** The room left for the child: the allocation less the border and the
      visible indicators, never negative. */
  function ChildRoom(full: int, border: int, indicatorVisible: bool, indicator: int): int
  {
    IMax(full - 2 * border - (if indicatorVisible then indicator else 0), 0)
  }

  /**
   * hildon_pannable_area_child_allocate_calculate: the child fills the
   * room left by the border and the indicators; an overshoot at the start
   * (positive distance) pushes it by the distance, one at the end
   * (negative) shortens it, and it never leaves the room.
   */
  function ChildAllocate(alloc: Rect, border: int, vscrollVisible: bool, vscrollWidth: int,
                         hscrollVisible: bool, hscrollHeight: int, odX: int, odY: int): (r: Rect)
    ensures var w0 := ChildRoom(alloc.width, border, vscrollVisible, vscrollWidth);
            && 0 <= r.x && 0 <= r.width && r.x + r.width <= w0
            && (odX > 0 ==> r.x == IMin(odX, w0) && r.x + r.width == w0)
            && (odX < 0 ==> r.x == 0 && r.width == IMax(w0 + odX, 0))
            && (odX == 0 ==> r.x == 0 && r.width == w0)
    ensures var h0 := ChildRoom(alloc.height, border, hscrollVisible, hscrollHeight);
            && 0 <= r.y && 0 <= r.height && r.y + r.height <= h0
            && (odY > 0 ==> r.y == IMin(odY, h0) && r.y + r.height == h0)
            && (odY < 0 ==> r.y == 0 && r.height == IMax(h0 + odY, 0))
            && (odY == 0 ==> r.y == 0 && r.height == h0)
  {
    var w0 := ChildRoom(alloc.width, border, vscrollVisible, vscrollWidth);
    var h0 := ChildRoom(alloc.height, border, hscrollVisible, hscrollHeight);
    var y := if odY > 0 then IMin(0 + odY, h0) else 0;
    var height := if odY > 0 then IMax(h0 - odY, 0) else if odY < 0 then IMax(h0 + odY, 0) else h0;
    var x := if odX > 0 then IMin(0 + odX, w0) else 0;
    var width := if odX > 0 then IMax(w0 - odX, 0) else if odX < 0 then IMax(w0 + odX, 0) else w0;
    Rect(x, y, width, height)
  }

  /** GtkPolicyType, in its enum order. */
  datatype Policy = Always | Automatic | Never | External

  /** The visibility check_scrollbars gives one indicator. */
  function IndicatorVisible(hasChild: bool, p: Policy, a: Adjustment): (r: bool)
    ensures !hasChild ==> !r
    ensures hasChild && p == Always ==> r
    ensures p == Never ==> !r
    ensures hasChild && (p == Automatic || p == External) ==> (r <==> Scrollable(a))
  {
    if !hasChild then false
    else match p
      case Always => true
      case Never => false
      case _ => Scrollable(a)
  }

  /**
   * The indicator rectangles check_scrollbars stores, as written: it passes
   * a NULL allocation to gtk_widget_get_allocation (which returns early on
   * NULL, or writes through it with GLib checks compiled out) and then reads
   * allocation->width through it, so whenever an indicator is visible the
   * step faults (None); with none visible the rectangles are kept.
   */
  function IndicatorRectsAsWritten(vVisible: bool, hVisible: bool, vRect: Rect, hRect: Rect): (r: Option<(Rect, Rect)>)
    ensures r.None? <==> vVisible || hVisible
    ensures r.Some? ==> r.value == (vRect, hRect)
  {
    if vVisible || hVisible then None else Some((vRect, hRect))
  }

  /** The default policies (zero-initialised, GTK_POLICY_ALWAYS) and any
      child make the as-written code read through NULL. */
  lemma IndicatorRectsFaultAsWritten(hadj: Adjustment, vadj: Adjustment, vRect: Rect, hRect: Rect)
    ensures IndicatorRectsAsWritten(IndicatorVisible(true, Always, vadj), IndicatorVisible(true, Always, hadj), vRect, hRect).None?
  {
  }

  /**
   * The intended rectangles, computed from the widget's allocation: the
   * vertical indicator is a strip of indicator_width along the right
   * edge, the horizontal one along the bottom edge, each shortened by the
   * other when both show.
   */
  function IndicatorRects(width: int, height: int, indicator: int, vVisible: bool, hVisible: bool,
                          vRect: Rect, hRect: Rect): (r: (Rect, Rect))
    ensures !vVisible ==> r.0 == vRect
    ensures !hVisible ==> r.1 == hRect
    ensures vVisible ==> r.0.x + r.0.width == width && r.0.y == 0 && r.0.width == indicator
    ensures hVisible ==> r.1.y + r.1.height == height && r.1.x == 0 && r.1.height == indicator
    ensures vVisible && hVisible ==> r.0.y + r.0.height == r.1.y && r.1.x + r.1.width == r.0.x
  {
    var v := if vVisible then Rect(width - indicator, 0, indicator, height - (if hVisible then indicator else 0)) else vRect;
    var h := if hVisible then Rect(0, height - indicator, width - (if vVisible then indicator else 0), indicator) else hRect;
    (v, h)
  }

}
