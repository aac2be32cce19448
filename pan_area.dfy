/**
 * The state machine of the kinetic pannable area
 * (hildon/hildon-pannable-area.c): HildonPannableAreaPrivate as a class,
 * the event handlers, the inertial and motion timers, the indicator fade
 * and the animated repositioning as methods. Timers and the frame clock
 * are explicit calls (Timeout, MotionEventScrollTimeout,
 * ScrollIndicatorFade, FrameUpdate); a flag records whether each timer
 * is scheduled. Each handler returns the signals and synthetic events it
 * emits, in order.
 */
module PanArea {

  import opened Optional
  import opened PanPhysics
  import opened PanWindows

  /** A guint32 event time. */
  type Time = t: int | 0 <= t < 0x1_0000_0000

  /** guint32 subtraction, which wraps around. */
  function TimeDiff(a: Time, b: Time): (r: nat)
    ensures r < 0x1_0000_0000
    ensures b <= a ==> r == a - b
    ensures a < b ==> r == a - b + 0x1_0000_0000
  {
    (a - b) % 0x1_0000_0000
  }

  /** HildonPannableAreaMode. */
  datatype Mode = Push | Accel | Auto

  /** HILDON_MOVEMENT_UP/DOWN/LEFT/RIGHT. */
  datatype MovementDirection = Up | Down | Left | Right

  /** What a handler emits: the area's four signals, and the synthetic
      crossing and button/motion events put to the captured child (named
      by its path in the child's window tree). */
  datatype Signal =
    | HorizontalMovement(hdir: MovementDirection, hx: real, hy: real)
    | VerticalMovement(vdir: MovementDirection, vx: real, vy: real)
    | PanningStarted
    | PanningFinished
    | Crossing(target: seq<nat>, entering: bool)
    | ChildPress(presTarget: seq<nat>, px: int, py: int)
    | ChildMotion(motionTarget: seq<nat>, mx: real, my: real)
    | ChildRelease(releaseTarget: seq<nat>, rx: int, ry: int)

  /** A button or motion event: its time, position (in the event
      window), button and shift state, and whether it was delivered to the
      area's own event window rather than re-injected. */
  datatype Event = Event(time: Time, x: real, y: real, button: int, shift: bool, onEventWindow: bool)

  /**
   * The tunable part of the private structure (the GObject properties and
   * the accelerated velocities size_allocate computes). No code in the
   * file assigns them after initialisation; the model takes them as
   * given.
   */
  datatype Config = Config(
    enabled: bool, mode: Mode, horiz: bool, vert: bool,
    vmin: real, vmax: real, vmaxOvershooting: real, vfastFactor: real,
    decel: real, dragInertia: real, sps: nat, panningThreshold: nat,
    scrollbarFadeDelay: nat, bounceSteps: nat, force: nat, directionErrorMargin: nat,
    hovershootMax: nat, vovershootMax: nat, lowFrictionMode: bool, indicatorWidth: nat,
    hpolicy: Policy, vpolicy: Policy, accelVelX: real, accelVelY: real)

  const ScrollFadeTimeout: int := 100
  const CursorStoppedTimeout: int := 200
  const MaxSpeedThreshold: real := 280.0
  const MinAccelThreshold: real := 40.0
  const FastClickTime: int := 125
  /** The animation duration set by the instance initialiser, in ms. */
  const Duration: int := 200
  /** GDK_BUTTON_PRESS_MASK and GDK_BUTTON_RELEASE_MASK. */
  const ButtonPressMask: bv32 := 0x100
  const ButtonReleaseMask: bv32 := 0x200

  /** One axis of the two-axis driver: a scrollable axis takes an
      axis_scroll step, any other stops and drops its snap target; the
      flag is the `s` result (TRUE when the axis is not scrolled). */
  function Drive(a: Axis, inc: real, max: nat, vmaxOvershooting: real, bounceSteps: nat, pressed: bool): (r: Step)
    requires -(max as int) <= a.overshotDist <= max
    ensures AxisValid(a, max) ==> AxisValid(r.axis, max)
    ensures r.axis.adj == a.adj.(value := r.axis.adj.value)
    ensures !Scrollable(a.adj) ==> r.ok && r.axis == a.(vel := 0.0, scrollTo := -1.0)
    ensures Scrollable(a.adj) ==> r == AxisStep(a, inc, max, vmaxOvershooting, bounceSteps, pressed)
  {
    if Scrollable(a.adj) then AxisStep(a, inc, max, vmaxOvershooting, bounceSteps, pressed)
    else Step(a.(vel := 0.0, scrollTo := -1.0), true)
  }

  /** The free-running deceleration of one axis in the timeout: always in
      normal friction, and in low-friction mode only on an enabled axis
      below 80% of vmax. */
  function FreeDecel(vel: real, decel: real, lowFriction: bool, axisOn: bool, vmax: real): (r: real)
    ensures !lowFriction ==> r == vel * decel
    ensures lowFriction && !axisOn ==> r == vel
    ensures r == vel || r == vel * decel
  {
    if !lowFriction || (axisOn && Abs(vel) < 0.8 * vmax) then vel * decel else vel
  }

  /** The deceleration on the way to a snap target: none below 1.5. */
  function TargetDecel(vel: real, decel: real): (r: real)
    ensures Abs(vel) < 1.5 ==> r == vel
    ensures Abs(vel) >= 1.5 ==> r == vel * decel
  {
    if Abs(vel) >= 1.5 then vel * decel else vel
  }

  /** n free ticks in normal friction. */
  function FreeDecelN(v: real, d: real, vmax: real, n: nat): real
  {
    if n == 0 then v else FreeDecel(FreeDecelN(v, d, vmax, n - 1), d, false, true, vmax)
  }

  /** n normal-friction ticks multiply the velocity by decel n times. */
  lemma {:induction false} FreeDecelNIsDecay(v: real, d: real, vmax: real, n: nat)
    ensures FreeDecelN(v, d, vmax, n) == Decay(v, d, n)
  {
    if n > 0 {
      FreeDecelNIsDecay(v, d, vmax, n - 1);
    }
  }

  /** With decel in (0, 1), the free-running timeout reaches the stopping
      speed (below 1.0) within StopBound ticks. */
  lemma FreeDecelStops(v: real, d: real, vmax: real)
    requires 0.0 < d < 1.0
    ensures Abs(FreeDecelN(v, d, vmax, StopBound(v, d))) < 1.0
  {
    FreeDecelNIsDecay(v, d, vmax, StopBound(v, d));
    DecayStops(v, d);
  }

  /** The velocity a drag sets in ACCEL mode: the share of the allocation
      travelled scales vmax - vmin on top of vmin, signed by the drag
      direction (a zero drag counts as negative). */
  function AccelVelocity(d: real, size: int, vmin: real, vmax: real): (r: real)
    requires size > 0
    ensures 0.0 <= vmin <= vmax && Abs(d) <= size as real ==> vmin <= Abs(r) <= vmax
    ensures 0.0 < vmin <= vmax ==> (r > 0.0 <==> d > 0.0)
  {
    var m := (Abs(d) / size as real) * (vmax - vmin) + vmin;
    ShareScale(Abs(d), size as real, vmin, vmax, m);
    if d > 0.0 then m else -m
  }

  lemma ShareScale(a: real, s: real, lo: real, hi: real, m: real)
    requires 0.0 <= a && 0.0 < s && m == (a / s) * (hi - lo) + lo
    ensures lo <= hi ==> lo <= m
    ensures lo <= hi && a <= s ==> m <= hi
  {
    var q := a / s;
    DivNonneg(a, s);
    if lo <= hi {
      MulNonneg(q, hi - lo);
      if a <= s {
        assert q <= 1.0;
        MulLe(q, 1.0, hi - lo);
      }
    }
  }

  /** The AUTO-mode velocity of one axis after a drag of `dist` pixels:
      the filtered drag speed over the time since the last event on an
      enabled axis, zero on a disabled one. */
  function AutoVelocity(enabled: bool, vel: real, time: Time, last: Time, dist: real, c: Config): (r: real)
    ensures !enabled ==> r == 0.0
    ensures enabled && c.vmax >= 0.0 && Abs(dist) >= RatioTolerance ==> -c.vmax <= r <= c.vmax
    ensures enabled && Abs(dist) < RatioTolerance ==> r == vel
  {
    if enabled then CalculateVelocity(vel, TimeDiff(time, last) as real, dist, c.vmax, c.dragInertia, c.force as real)
    else 0.0
  }

  /** The opacities the indicator fade can reach: multiples of 0.2 in [0, 1]. */
  predicate AlphaLevel(a: real)
  {
    a == 0.0 || a == 0.2 || a == 0.4 || a == 0.6 || a == 0.8 || a == 1.0
  }

  /** The state area_scroll works on: both axes and the drag origin. */
  datatype Pan = Pan(h: Axis, v: Axis, x: real, y: real)

  predicate PanValid(c: Config, p: Pan)
  {
    AxisValid(p.h, c.hovershootMax) && AxisValid(p.v, c.vovershootMax)
  }

  /**
   * hildon_pannable_area_scroll: with a child, each axis takes one Drive
   * step (the vertical one first); in ACCEL mode an axis that ran into a
   * bound restarts the drag from the last cursor position. Only the
   * adjustments' values move.
   */
  function AreaScroll(c: Config, hasChild: bool, p: Pan, ex: real, ey: real, dx: real, dy: real, pressed: bool): (r: Pan)
    requires PanValid(c, p)
    ensures PanValid(c, r)
    ensures r.h.adj == p.h.adj.(value := r.h.adj.value) && r.v.adj == p.v.adj.(value := r.v.adj.value)
    ensures !hasChild ==> r == p
    ensures hasChild && !Scrollable(p.h.adj) ==> r.h == p.h.(vel := 0.0, scrollTo := -1.0)
    ensures hasChild && !Scrollable(p.v.adj) ==> r.v == p.v.(vel := 0.0, scrollTo := -1.0)
    ensures hasChild && Scrollable(p.h.adj) ==>
              r.h == AxisStep(p.h, dx, c.hovershootMax, c.vmaxOvershooting, c.bounceSteps, pressed).axis
    ensures hasChild && Scrollable(p.v.adj) ==>
              r.v == AxisStep(p.v, dy, c.vovershootMax, c.vmaxOvershooting, c.bounceSteps, pressed).axis
    ensures c.mode != Accel ==> r.x == p.x && r.y == p.y
    ensures hasChild && c.mode == Accel ==>
              (r.x == if Drive(p.h, dx, c.hovershootMax, c.vmaxOvershooting, c.bounceSteps, pressed).ok then p.x else ex)
              && (r.y == if Drive(p.v, dy, c.vovershootMax, c.vmaxOvershooting, c.bounceSteps, pressed).ok then p.y else ey)
  {
    if !hasChild then p
    else
      var sv := Drive(p.v, dy, c.vovershootMax, c.vmaxOvershooting, c.bounceSteps, pressed);
      var sh := Drive(p.h, dx, c.hovershootMax, c.vmaxOvershooting, c.bounceSteps, pressed);
      Pan(sh.axis, sv.axis,
          if c.mode == Accel && !sh.ok then ex else p.x,
          if c.mode == Accel && !sv.ok then ey else p.y)
  }

  /** The motion the coalescing timer has not yet applied, and whether the
      timer is scheduled. */
  datatype Motion = Motion(dx: real, dy: real, timer: bool)

  /** motion_event_scroll: with the coalescing timer off a step scrolls at
      once, clears the pending motion and starts the timer; with the timer
      on it is only added to the pending motion. */
  function Coalesce(c: Config, hasChild: bool, p: Pan, m: Motion, ex: real, ey: real,
                    dx: real, dy: real, pressed: bool): (r: (Pan, Motion))
    requires PanValid(c, p)
    ensures PanValid(c, r.0) && r.1.timer
    ensures m.timer ==> r.0 == p && r.1.dx == m.dx + dx && r.1.dy == m.dy + dy
    ensures !m.timer ==> r.0 == AreaScroll(c, hasChild, p, ex, ey, dx, dy, pressed) && r.1.dx == 0.0 && r.1.dy == 0.0
  {
    if m.timer then (p, Motion(m.dx + dx, m.dy + dy, true))
    else (AreaScroll(c, hasChild, p, ex, ey, dx, dy, pressed), Motion(0.0, 0.0, true))
  }

  function Sum(ds: seq<real>): real
  {
    if |ds| == 0 then 0.0 else Sum(ds[..|ds| - 1]) + ds[|ds| - 1]
  }

  /** A burst of motion steps, in order. */
  function Burst(c: Config, hasChild: bool, p: Pan, m: Motion, ex: real, ey: real,
                 dxs: seq<real>, dys: seq<real>, pressed: bool): (r: (Pan, Motion))
    requires PanValid(c, p) && |dxs| == |dys|
    ensures PanValid(c, r.0)
    decreases |dxs|
  {
    if |dxs| == 0 then (p, m)
    else
      var q := Burst(c, hasChild, p, m, ex, ey, dxs[..|dxs| - 1], dys[..|dys| - 1], pressed);
      Coalesce(c, hasChild, q.0, q.1, ex, ey, dxs[|dxs| - 1], dys[|dys| - 1], pressed)
  }

  /** While the coalescing timer runs, a burst scrolls nothing and leaves
      its whole motion pending. */
  lemma {:induction false} BurstPending(c: Config, hasChild: bool, p: Pan, m: Motion, ex: real, ey: real,
                                        dxs: seq<real>, dys: seq<real>, pressed: bool)
    requires PanValid(c, p) && |dxs| == |dys| && m.timer
    ensures Burst(c, hasChild, p, m, ex, ey, dxs, dys, pressed) == (p, Motion(m.dx + Sum(dxs), m.dy + Sum(dys), true))
    decreases |dxs|
  {
    if |dxs| > 0 {
      BurstPending(c, hasChild, p, m, ex, ey, dxs[..|dxs| - 1], dys[..|dys| - 1], pressed);
    }
  }

  /** A burst that starts with the timer off scrolls its first step at once
      and leaves the rest pending, for the timeout to apply. */
  lemma {:induction false} BurstFirstImmediate(c: Config, hasChild: bool, p: Pan, m: Motion, ex: real, ey: real,
                                               dxs: seq<real>, dys: seq<real>, pressed: bool)
    requires PanValid(c, p) && |dxs| == |dys| && |dxs| > 0 && !m.timer
    ensures Burst(c, hasChild, p, m, ex, ey, dxs, dys, pressed)
            == (AreaScroll(c, hasChild, p, ex, ey, dxs[0], dys[0], pressed),
                Motion(Sum(dxs[1..]), Sum(dys[1..]), true))
    decreases |dxs|
  {
    var n := |dxs|;
    if n == 1 {
      assert dxs[..0] == [] && dys[..0] == [];
      assert dxs[1..] == [] && dys[1..] == [];
    } else {
      BurstFirstImmediate(c, hasChild, p, m, ex, ey, dxs[..n - 1], dys[..n - 1], pressed);
      assert dxs[..n - 1][0] == dxs[0] && dys[..n - 1][0] == dys[0];
      assert dxs[..n - 1][1..] == dxs[1..][..n - 2];
      assert dys[..n - 1][1..] == dys[1..][..n - 2];
      assert dxs[1..][n - 2] == dxs[n - 1] && dys[1..][n - 2] == dys[n - 1];
    }
  }

  /** check_move's trigger: the first drag of a press passing the panning
      threshold on either axis. */
  predicate DragStarts(firstDrag: bool, moved: bool, dx: real, dy: real, threshold: nat)
  {
    firstDrag && !moved && (Abs(dx) > threshold as real || Abs(dy) > threshold as real)
  }

  /** The movement signal check_move emits for a drag from the press
      position (ix, iy) to (ex, ey): vertical unless the horizontal travel
      is strictly larger, so a tie counts as vertical. */
  function MovementSignal(ix: int, iy: int, ex: real, ey: real): (r: Signal)
    ensures r.VerticalMovement? <==> Abs(iy as real - ey) >= Abs(ix as real - ex)
    ensures r.VerticalMovement? || r.HorizontalMovement?
    ensures r.VerticalMovement? ==> (r.vdir == Up <==> ey < iy as real) && (r.vdir == Up || r.vdir == Down)
                                    && r.vx == ix as real && r.vy == iy as real
    ensures r.HorizontalMovement? ==> (r.hdir == Left <==> ex < ix as real) && (r.hdir == Left || r.hdir == Right)
                                      && r.hx == ix as real && r.hy == iy as real
  {
    if Abs(iy as real - ey) >= Abs(ix as real - ex) then
      VerticalMovement(if iy as real > ey then Up else Down, ix as real, iy as real)
    else
      HorizontalMovement(if ix as real > ex then Left else Right, ix as real, iy as real)
  }

  /** check_move's axis test: a drag along an axis that scrolls and is
      enabled is a pan; a drag along any other axis is one only when the
      cross axis scrolls and is enabled and the drag is within the error
      margin of the diagonal. */
  function PansAlong(vertical: bool, vOn: bool, hOn: bool, dv: real, dh: real, margin: nat): (r: bool)
    ensures vertical && vOn ==> r
    ensures !vertical && hOn ==> r
    ensures !vOn && !hOn ==> !r
    ensures vertical && !vOn ==> (r <==> hOn && dv - dh < margin as real)
    ensures !vertical && !hOn ==> (r <==> vOn && dh - dv < margin as real)
  {
    if vertical then vOn || !(!hOn || dv - dh >= margin as real)
    else hOn || !(!vOn || dh - dv >= margin as real)
  }

  /** The motion handler's enter/leave test: the cursor carried into the
      child's coordinates (converted to int) lies inside the child, edges
      included. */
  predicate InChild(cx: int, cy: int, ix: int, iy: int, ex: real, ey: real, width: int, height: int)
  {
    var px := Trunc(cx as real + (ex - ix as real));
    var py := Trunc(cy as real + (ey - iy as real));
    0 <= px <= width && 0 <= py <= height
  }

  /** The release handler's cursor-stopped rule for one axis. */
  predicate CursorStopped(d: real, delta: nat)
  {
    Abs(d) < 4.0 && delta >= CursorStoppedTimeout
  }

  /** The fast-click rule: a release within FAST_CLICK ms of a press that
      caught the area moving faster than vmin and the acceleration
      threshold. */
  predicate FastClick(dt: nat, oldX: real, oldY: real, vmin: real)
  {
    dt < FastClickTime && (Abs(oldX) > vmin || Abs(oldY) > vmin)
    && (Abs(oldX) > MinAccelThreshold || Abs(oldY) > MinAccelThreshold)
  }

  /** The fast-click velocity of one axis: the speed caught by the press
      plus the accelerated velocity, in the direction of the speed caught
      when the new flick goes the same way and against it otherwise; an
      axis the flick did not move stays still. */
  function FastClickBoost(vel: real, oldVel: real, accel: real): (r: real)
    ensures vel == 0.0 ==> r == 0.0
    ensures 0.0 <= accel && vel != 0.0 ==> Abs(r) == Abs(oldVel) + accel
    ensures 0.0 <= accel && vel * oldVel > 0.0 ==> r * oldVel > 0.0
    ensures 0.0 <= accel && vel != 0.0 && vel * oldVel <= 0.0 && oldVel != 0.0 ==> r * oldVel < 0.0
  {
    var boosted := oldVel + (if oldVel > 0.0 then accel else -accel);
    if vel == 0.0 then 0.0
    else if vel * oldVel > 0.0 then boosted
    else -boosted
  }

  /** The MAX_SPEED_THRESHOLD substitution: an axis faster than the
      threshold runs at the accelerated velocity instead when that is also
      above the threshold, keeping its direction. */
  function SpeedCap(vel: real, accel: real): (r: real)
    ensures Abs(vel) > MaxSpeedThreshold && accel > MaxSpeedThreshold ==>
              Abs(r) == accel && (r > 0.0 <==> vel > 0.0)
    ensures !(Abs(vel) > MaxSpeedThreshold && accel > MaxSpeedThreshold) ==> r == vel
  {
    if Abs(vel) > MaxSpeedThreshold && accel > MaxSpeedThreshold then
      (if vel > 0.0 then accel else -accel)
    else vel
  }

  /** The release's synthetic events to the captured child: a click lands
      only when the release hits the pressed window and no pan happened;
      otherwise the child gets a leave and a release far outside it. The
      child always gets a leave. */
  function ChildReleaseSignals(child: seq<nat>, hit: Option<Hit>, moved: bool): (r: seq<Signal>)
    ensures |r| == 2 && Crossing(child, false) in r
    ensures r[0].ChildRelease? <==> hit.Some? && hit.value.path == child && !moved
    ensures r[0].ChildRelease? ==> r[0] == ChildRelease(child, hit.value.tx, hit.value.ty)
    ensures !r[0].ChildRelease? ==> r[1] == ChildRelease(child, -16384, -16384)
  {
    if hit.None? || hit.value.path != child || moved then
      [Crossing(child, false), ChildRelease(child, -16384, -16384)]
    else
      [ChildRelease(child, hit.value.tx, hit.value.ty), Crossing(child, false)]
  }

  /** The press handler's click target: none while the area still moves
      faster than vfast_factor times vmax on either axis, otherwise the
      topmost window under the cursor that takes button presses. */
  function PressHit(c: Config, hvel: real, vvel: real, tree: Win, ex: real, ey: real): Option<Hit>
  {
    if Abs(hvel) <= c.vmax * c.vfastFactor && Abs(vvel) <= c.vmax * c.vfastFactor then
      Topmost(tree, Trunc(ex), Trunc(ey), ButtonPressMask)
    else None
  }

  /** What the capture part of a press emits: the end of a running pan,
      then, for a captured window, an enter and, for an event delivered to
      the area's own window, the press itself in the window's coordinates. */
  function CaptureSignals(wasPanning: bool, hit: Option<Hit>, onEventWindow: bool): (r: seq<Signal>)
    ensures (PanningFinished in r) == wasPanning
    ensures hit.None? ==> |r| == (if wasPanning then 1 else 0)
    ensures hit.Some? ==> Crossing(hit.value.path, true) in r
    ensures hit.Some? && onEventWindow ==> r[|r| - 1] == ChildPress(hit.value.path, hit.value.tx, hit.value.ty)
    ensures !(hit.Some? && onEventWindow) ==> forall i :: 0 <= i < |r| ==> !r[i].ChildPress?
  {
    (if wasPanning then [PanningFinished] else [])
    + (if hit.Some? then
         [Crossing(hit.value.path, true)]
         + (if onEventWindow then [ChildPress(hit.value.path, hit.value.tx, hit.value.ty)] else [])
       else [])
  }

  /** The release of a finger that had pulled an axis past its bound: the
      bounce is cut short and the axis is thrown back at nine tenths of the
      overshoot, in its direction. */
  function OvershootRelease(a: Axis, bounceSteps: nat): (r: Axis)
    ensures r.adj == a.adj && r.overshotDist == a.overshotDist && r.scrollTo == a.scrollTo
    ensures a.overshotDist == 0 ==> r == a
    ensures a.overshotDist != 0 ==>
              && r.overshooting == bounceSteps
              && Abs(r.vel) == Abs(a.overshotDist as real) * 0.9
              && (r.vel > 0.0 <==> a.overshotDist > 0)
  {
    if a.overshotDist != 0 then a.(overshooting := bounceSteps, vel := a.overshotDist as real * 0.9)
    else a
  }

  /** The wheel stops a running inertial scroll: both speeds and bounces
      vanish, and the overshoots too when either is positive. */
  function WheelStop(a: Axis, anyPositive: bool): (r: Axis)
    ensures r.adj == a.adj && r.scrollTo == a.scrollTo && r.vel == 0.0 && r.overshooting == 0
    ensures r.overshotDist == if anyPositive then 0 else a.overshotDist
  {
    a.(vel := 0.0, overshooting := 0, overshotDist := if anyPositive then 0 else a.overshotDist)
  }

  /** One frame of an animation: the eased share of the way from source
      to target, for a frame at or after the start. */
  function FrameShare(now: int, start: int, end: int): (t: real)
    requires start < end
    ensures start <= now < end ==> 0.0 <= t <= 1.0
    ensures now == start ==> t == 0.0
  {
    FrameFraction(now, start, end);
    EaseOutCubic((now - start) as real / (end - start) as real)
  }

  lemma FrameFraction(now: int, start: int, end: int)
    requires start < end
    ensures start <= now < end ==> 0.0 <= (now - start) as real / (end - start) as real <= 1.0
  {
    if start <= now < end {
      var q := (now - start) as real / (end - start) as real;
      DivNonneg((now - start) as real, (end - start) as real);
      DivMul((now - start) as real, (end - start) as real);
      assert q * (end - start) as real <= (end - start) as real;
      EaseOutCubicInUnit(q);
    }
  }

  /** The value a frame gives an adjustment: the point the share `t`
      of the way from source to target, as the adjustment takes it. A
      share in [0, 1] between in-range positions is itself in range, so
      the adjustment takes it as it is, and it lies between them. */
  function FrameValue(a: Adjustment, src: real, dst: real, t: real): (r: real)
    ensures InRange(a, r)
    ensures InRange(a, src) && InRange(a, dst) && 0.0 <= t <= 1.0 ==>
              r == src + t * (dst - src) && Min(src, dst) <= r <= Max(src, dst)
  {
    if 0.0 <= t <= 1.0 then
      InterpolationBetween(src, dst, t);
      AdjustmentSet(a, src + t * (dst - src)).value
    else AdjustmentSet(a, src + t * (dst - src)).value
  }

  /** The press and drag bookkeeping of the private structure: whether
      the button is down, the time and type (1 press, 2 motion, 3 release)
      of the last event handled, the time of the last press, whether the
      drag became a pan, whether the next drag is the first of its press,
      and whether the press started a selection drag. */
  datatype Track = Track(pressed: bool, lastTime: Time, lastPressTime: Time, lastType: int,
                         moved: bool, firstDrag: bool, selection: bool)

  /** What a press records: its position as gint (ix, iy) and the
      velocities it stopped (old_vel_x, old_vel_y). */
  datatype Press = Press(ix: int, iy: int, oldVelX: real, oldVelY: real)

  /** The captured child window, by its path in the child's window tree,
      with its size, the press position in its coordinates (cx, cy) and
      whether the cursor is inside it (last_in). */
  datatype Grab = Grab(child: Option<seq<nat>>, width: int, height: int, cx: int, cy: int, lastIn: bool)

  /** The scroll indicators' fade: the opacity, the fade-in flag, whether
      the fade timer is scheduled, the event interrupt, and the counter of
      the hold phase. */
  datatype Fade = Fade(alpha: real, fadeIn: bool, timer: bool, interrupt: bool, delayCounter: int)

  /** What check_scrollbars keeps: which indicators show, and where. */
  datatype Indicators = Indicators(hVisible: bool, vVisible: bool, hRect: Rect, vRect: Rect)

  /** The animated repositioning: where each axis runs from and to, the
      start and end frame times (in microseconds), and whether the frame
      clock callback is connected (tick_id). */
  datatype Animation = Animation(hsource: real, htarget: real, vsource: real, vtarget: real,
                                 startTime: int, endTime: int, ticking: bool)

  /** A running animation runs between in-range positions over the set
      duration. */
  predicate AnimationValid(ha: Adjustment, va: Adjustment, an: Animation)
  {
    an.ticking ==>
      && InRange(ha, an.hsource) && InRange(ha, an.htarget)
      && InRange(va, an.vsource) && InRange(va, an.vtarget)
      && an.endTime == an.startTime + 1000 * Duration
  }

  /** The invariant of the private structure: both axes valid, the
      opacity on a fade level, and a running animation well formed. */
  predicate AreaValid(c: Config, p: Pan, alpha: real, an: Animation)
  {
    PanValid(c, p) && AlphaLevel(alpha) && AnimationValid(p.h.adj, p.v.adj, an)
  }

  /** Stopping both axes, dropping their snap targets and moving the drag
      origin keeps the invariant. */
  lemma StopKeepsValid(c: Config, p: Pan, x: real, y: real, alpha: real, an: Animation)
    requires AreaValid(c, p, alpha, an)
    ensures AreaValid(c, Pan(p.h.(vel := 0.0, scrollTo := -1.0), p.v.(vel := 0.0, scrollTo := -1.0), x, y),
                      alpha, an)
  {
  }

  /** Moving both adjustments to in-range values keeps the invariant. */
  lemma ValueKeepsValid(c: Config, p: Pan, alpha: real, an: Animation, hval: real, vval: real)
    requires AreaValid(c, p, alpha, an) && InRange(p.h.adj, hval) && InRange(p.v.adj, vval)
    ensures AreaValid(c, Pan(p.h.(adj := p.h.adj.(value := hval)), p.v.(adj := p.v.adj.(value := vval)), p.x, p.y),
                      alpha, an)
  {
  }

  /** New speeds keep the invariant. */
  lemma VelKeepsValid(c: Config, p: Pan, alpha: real, an: Animation, hvel: real, vvel: real)
    requires AreaValid(c, p, alpha, an)
    ensures AreaValid(c, Pan(p.h.(vel := hvel), p.v.(vel := vvel), p.x, p.y), alpha, an)
  {
  }

  /** The synthetic events a release sends the captured child, if any,
      given whether the drag was a pan. */
  function ChildSignals(child: Option<seq<nat>>, tree: Win, ev: Event, moved: bool): (r: seq<Signal>)
  {
    if child.Some? then
      ChildReleaseSignals(child.value, Topmost(tree, Trunc(ev.x), Trunc(ev.y), ButtonReleaseMask), moved)
    else []
  }

  /** The velocities a release leaves on the axes, and whether the area
      goes on moving (either speed at least vmin). */
  datatype Throw = Throw(h: Axis, v: Axis, go: bool)

  /**
   * The kinetic part of the release handler: an axis pulled past its
   * bound is thrown back; a fast click (within FAST_CLICK ms of a press
   * that caught the area moving) boosts the speeds caught by the press;
   * otherwise an area that goes on moving has its speeds capped by the
   * MAX_SPEED_THRESHOLD substitution. `dt` is the time since the press.
   */
  function ReleaseThrow(c: Config, h: Axis, v: Axis, p: Press, dt: nat): (r: Throw)
    ensures r.h.adj == h.adj && r.h.overshotDist == h.overshotDist && r.h.scrollTo == h.scrollTo
    ensures r.v.adj == v.adj && r.v.overshotDist == v.overshotDist && r.v.scrollTo == v.scrollTo
    ensures r.h.overshooting == if h.overshotDist != 0 then c.bounceSteps else h.overshooting
    ensures r.v.overshooting == if v.overshotDist != 0 then c.bounceSteps else v.overshooting
    ensures !r.go ==> Abs(r.h.vel) < c.vmin && Abs(r.v.vel) < c.vmin
    ensures FastClick(dt, p.oldVelX, p.oldVelY, c.vmin) && 0.0 <= c.accelVelX
            && OvershootRelease(h, c.bounceSteps).vel != 0.0 ==>
              Abs(r.h.vel) == Abs(p.oldVelX) + c.accelVelX
    ensures FastClick(dt, p.oldVelX, p.oldVelY, c.vmin) && 0.0 <= c.accelVelY
            && OvershootRelease(v, c.bounceSteps).vel != 0.0 ==>
              Abs(r.v.vel) == Abs(p.oldVelY) + c.accelVelY
    ensures !FastClick(dt, p.oldVelX, p.oldVelY, c.vmin) && h.overshotDist == 0 && !r.go ==> r.h.vel == h.vel
    ensures !FastClick(dt, p.oldVelX, p.oldVelY, c.vmin) && v.overshotDist == 0 && !r.go ==> r.v.vel == v.vel
    ensures !FastClick(dt, p.oldVelX, p.oldVelY, c.vmin) && r.go ==>
              && r.h.vel == SpeedCap(OvershootRelease(h, c.bounceSteps).vel, c.accelVelX)
              && r.v.vel == SpeedCap(OvershootRelease(v, c.bounceSteps).vel, c.accelVelY)
  {
    var ho := OvershootRelease(h, c.bounceSteps);
    var vo := OvershootRelease(v, c.bounceSteps);
    var fast := FastClick(dt, p.oldVelX, p.oldVelY, c.vmin);
    var hb := if fast then FastClickBoost(ho.vel, p.oldVelX, c.accelVelX) else ho.vel;
    var vb := if fast then FastClickBoost(vo.vel, p.oldVelY, c.accelVelY) else vo.vel;
    var go := Abs(vb) >= c.vmin || Abs(hb) >= c.vmin;
    Throw(ho.(vel := if go && !fast then SpeedCap(hb, c.accelVelX) else hb),
          vo.(vel := if go && !fast then SpeedCap(vb, c.accelVelY) else vb),
          go)
  }

  /** What the kinetic part of a release emits: the start of a pan that
      had not started when the area goes on moving, the end of one that
      had when it stops. */
  function ThrowSignals(go: bool, moved: bool): (r: seq<Signal>)
    ensures |r| <= 1
    ensures PanningStarted in r <==> go && !moved
    ensures PanningFinished in r <==> !go && moved
  {
    if go then (if moved then [] else [PanningStarted])
    else (if moved then [PanningFinished] else [])
  }

  /**
   * set_value_internal on the two adjustments and the animation state:
   * each request is made a target by SetValueTarget; with animation on
   * and a frame clock, a request for the targets already running is
   * dropped, any other starts the animation from the current values;
   * without, updating stops and both adjustments take their targets.
   */
  function Reposition(ha: Adjustment, va: Adjustment, an: Animation, hreq: real, vreq: real,
                      animate: bool, hasClock: bool, frameTime: int): (r: (Adjustment, Adjustment, Animation))
    ensures r.0 == ha.(value := r.0.value) && r.1 == va.(value := r.1.value)
    ensures animate && hasClock && an.ticking
            && an.htarget == SetValueTarget(hreq, ha) && an.vtarget == SetValueTarget(vreq, va) ==>
              r == (ha, va, an)
    ensures animate && hasClock
            && !(an.ticking && an.htarget == SetValueTarget(hreq, ha) && an.vtarget == SetValueTarget(vreq, va)) ==>
              && r.0 == ha && r.1 == va
              && r.2 == Animation(ha.value, SetValueTarget(hreq, ha), va.value, SetValueTarget(vreq, va),
                                  frameTime, frameTime + 1000 * Duration, true)
    ensures !(animate && hasClock) ==> r.2 == an.(ticking := false)
    ensures !(animate && hasClock) && InBounds(ha) && InBounds(va) ==>
              r.0.value == SetValueTarget(hreq, ha) && r.1.value == SetValueTarget(vreq, va)
    ensures InBounds(ha) && InBounds(va) && AnimationValid(ha, va, an) ==>
              InBounds(r.0) && InBounds(r.1) && AnimationValid(r.0, r.1, r.2)
  {
    var ht := SetValueTarget(hreq, ha);
    var vt := SetValueTarget(vreq, va);
    if animate && hasClock then
      if an.ticking && an.htarget == ht && an.vtarget == vt then (ha, va, an)
      else (ha, va, Animation(ha.value, ht, va.value, vt, frameTime, frameTime + 1000 * Duration, true))
    else (AdjustmentSet(ha, ht), AdjustmentSet(va, vt), an.(ticking := false))
  }

  /** Asking again for the targets an animation already runs to changes
      nothing, however often it is asked. */
  lemma RepositionIdempotent(ha: Adjustment, va: Adjustment, an: Animation, hreq: real, vreq: real,
                             hasClock: bool, t1: int, t2: int)
    requires hasClock
    ensures var r := Reposition(ha, va, an, hreq, vreq, true, hasClock, t1);
            Reposition(r.0, r.1, r.2, hreq, vreq, true, hasClock, t2) == r
  {
    var r := Reposition(ha, va, an, hreq, vreq, true, hasClock, t1);
    assert r.0 == ha && r.1 == va;
  }

  /** A jump without animation leaves both adjustments where a second
      identical jump would put them. */
  lemma JumpIdempotent(ha: Adjustment, va: Adjustment, an: Animation, hreq: real, vreq: real,
                       hasClock: bool, t1: int, t2: int)
    requires InBounds(ha) && InBounds(va)
    requires hreq != -1.0 && vreq != -1.0
    ensures var r := Reposition(ha, va, an, hreq, vreq, false, hasClock, t1);
            Reposition(r.0, r.1, r.2, hreq, vreq, false, hasClock, t2) == r
  {
    var r := Reposition(ha, va, an, hreq, vreq, false, hasClock, t1);
    assert SetValueTarget(hreq, r.0) == SetValueTarget(hreq, ha);
    assert SetValueTarget(vreq, r.1) == SetValueTarget(vreq, va);
  }

  /** The part of the private structure a drag moves: both axes and the
      drag origin, the ACCEL restart point (ex, ey) and the pending
      coalesced motion. */
  datatype Kinetic = Kinetic(p: Pan, ex: real, ey: real, motion: Motion)

  /**
   * handle_move on a drag of (dx, dy), `last` being the time of the last
   * event handled: the new kinetic state and the drag it leaves. PUSH
   * scrolls by the drag through the coalescing timer and puts the drag
   * origin at the cursor; ACCEL only sets the velocities from the share of
   * the allocation dragged and the restart point; AUTO filters the drag
   * into each enabled axis's velocity, stops a disabled axis and drops its
   * drag, scrolls by what is left and moves the enabled axes' origin.
   */
  function MoveStep(c: Config, hasChild: bool, s: Kinetic, ev: Event, last: Time, dx: real, dy: real,
                    width: int, height: int, pressed: bool): (r: (Kinetic, real, real))
    requires PanValid(c, s.p)
    requires c.mode == Accel ==> width > 0 && height > 0
    ensures PanValid(c, r.0.p)
    ensures c.mode == Push ==>
              var co := Coalesce(c, hasChild, s.p, s.motion, s.ex, s.ey, dx, dy, pressed);
              && r.1 == dx && r.2 == dy && r.0.ex == s.ex && r.0.ey == s.ey
              && r.0.p.h == co.0.h && r.0.p.v == co.0.v && r.0.p.x == ev.x && r.0.p.y == ev.y && r.0.motion == co.1
    ensures c.mode == Accel ==>
              && r.1 == dx && r.2 == dy && r.0.ex == ev.x && r.0.ey == ev.y
              && r.0.p == s.p.(h := s.p.h.(vel := AccelVelocity(dx, width, c.vmin, c.vmax)),
                               v := s.p.v.(vel := AccelVelocity(dy, height, c.vmin, c.vmax)))
              && r.0.motion == s.motion
    ensures c.mode == Accel && 0.0 <= c.vmin <= c.vmax && Abs(dx) <= width as real ==>
              c.vmin <= Abs(r.0.p.h.vel) <= c.vmax
    ensures c.mode == Accel && 0.0 <= c.vmin <= c.vmax && Abs(dy) <= height as real ==>
              c.vmin <= Abs(r.0.p.v.vel) <= c.vmax
    ensures c.mode == Auto ==>
              var hv := AutoVelocity(c.horiz, s.p.h.vel, ev.time, last, ev.x - s.p.x, c);
              var vv := AutoVelocity(c.vert, s.p.v.vel, ev.time, last, ev.y - s.p.y, c);
              var co := Coalesce(c, hasChild, Pan(s.p.h.(vel := hv), s.p.v.(vel := vv), s.p.x, s.p.y),
                                 s.motion, s.ex, s.ey, r.1, r.2, pressed);
              && r.1 == (if c.horiz then dx else 0.0) && r.2 == (if c.vert then dy else 0.0)
              && r.0.ex == s.ex && r.0.ey == s.ey
              && r.0.p.h == co.0.h && r.0.p.v == co.0.v && r.0.motion == co.1
              && r.0.p.x == (if c.horiz then ev.x else s.p.x) && r.0.p.y == (if c.vert then ev.y else s.p.y)
  {
    match c.mode
    case Push =>
      var co := Coalesce(c, hasChild, s.p, s.motion, s.ex, s.ey, dx, dy, pressed);
      (Kinetic(co.0.(x := ev.x, y := ev.y), s.ex, s.ey, co.1), dx, dy)
    case Accel =>
      (Kinetic(s.p.(h := s.p.h.(vel := AccelVelocity(dx, width, c.vmin, c.vmax)),
                    v := s.p.v.(vel := AccelVelocity(dy, height, c.vmin, c.vmax))), ev.x, ev.y, s.motion), dx, dy)
    case Auto =>
      var hv := AutoVelocity(c.horiz, s.p.h.vel, ev.time, last, ev.x - s.p.x, c);
      var vv := AutoVelocity(c.vert, s.p.v.vel, ev.time, last, ev.y - s.p.y, c);
      var rx := if c.horiz then dx else 0.0;
      var ry := if c.vert then dy else 0.0;
      var co := Coalesce(c, hasChild, Pan(s.p.h.(vel := hv), s.p.v.(vel := vv), s.p.x, s.p.y),
                         s.motion, s.ex, s.ey, rx, ry, pressed);
      (Kinetic(co.0.(x := if c.horiz then ev.x else s.p.x, y := if c.vert then ev.y else s.p.y), s.ex, s.ey, co.1),
       rx, ry)
  }

  /** The release's flush of the coalescing timer: a pending motion is
      scrolled at once, and the timer and the pending motion are
      cleared. */
  function Flush(c: Config, hasChild: bool, s: Kinetic, pressed: bool): (r: Kinetic)
    requires PanValid(c, s.p)
    ensures PanValid(c, r.p) && r.ex == s.ex && r.ey == s.ey && !r.motion.timer
    ensures !s.motion.timer ==> r == s
    ensures s.motion.timer ==> r.motion == Motion(0.0, 0.0, false)
    ensures s.motion.timer && (s.motion.dx != 0.0 || s.motion.dy != 0.0) ==>
              r.p == AreaScroll(c, hasChild, s.p, s.ex, s.ey, s.motion.dx, s.motion.dy, pressed)
    ensures s.motion.timer && s.motion.dx == 0.0 && s.motion.dy == 0.0 ==> r.p == s.p
  {
    if !s.motion.timer then s
    else if s.motion.dx != 0.0 || s.motion.dy != 0.0 then
      Kinetic(AreaScroll(c, hasChild, s.p, s.ex, s.ey, s.motion.dx, s.motion.dy, pressed), s.ex, s.ey,
              Motion(0.0, 0.0, false))
    else s.(motion := Motion(0.0, 0.0, false))
  }

  /** No motion of a burst is lost at a release: after a burst that
      started with the timer off, the flush scrolls by the sum of
      everything the timer held back. */
  lemma BurstThenFlush(c: Config, hasChild: bool, p: Pan, m: Motion, ex: real, ey: real,
                       dxs: seq<real>, dys: seq<real>, pressed: bool)
    requires PanValid(c, p) && |dxs| == |dys| && |dxs| > 0 && !m.timer
    requires Sum(dxs[1..]) != 0.0 || Sum(dys[1..]) != 0.0
    ensures var b := Burst(c, hasChild, p, m, ex, ey, dxs, dys, pressed);
            var first := AreaScroll(c, hasChild, p, ex, ey, dxs[0], dys[0], pressed);
            Flush(c, hasChild, Kinetic(b.0, ex, ey, b.1), pressed).p
            == AreaScroll(c, hasChild, first, ex, ey, Sum(dxs[1..]), Sum(dys[1..]), pressed)
  {
    BurstFirstImmediate(c, hasChild, p, m, ex, ey, dxs, dys, pressed);
  }

  /** The pan part of a release after a motion: handle_move on the drag,
      the flush of the coalescing timer, then the cursor-stopped rule on
      the drag handle_move leaves and the time since the last event. */
  function ReleaseMoveStep(c: Config, hasChild: bool, s: Kinetic, ev: Event, last: Time, dx: real, dy: real,
                           width: int, height: int, pressed: bool): (r: Kinetic)
    requires PanValid(c, s.p)
    requires c.mode == Accel ==> width > 0 && height > 0
    ensures PanValid(c, r.p) && !r.motion.timer
    ensures s.motion.timer || c.mode != Accel ==> r.motion == Motion(0.0, 0.0, false)
    ensures var m := MoveStep(c, hasChild, s, ev, last, dx, dy, width, height, pressed);
            var f := Flush(c, hasChild, m.0, pressed);
            var delta := TimeDiff(ev.time, last);
            && r.p.h.vel == (if CursorStopped(m.1, delta) then 0.0 else f.p.h.vel)
            && r.p.v.vel == (if CursorStopped(m.2, delta) then 0.0 else f.p.v.vel)
            && r == f.(p := f.p.(h := f.p.h.(vel := r.p.h.vel), v := f.p.v.(vel := r.p.v.vel)))
  {
    var m := MoveStep(c, hasChild, s, ev, last, dx, dy, width, height, pressed);
    var f := Flush(c, hasChild, m.0, pressed);
    var delta := TimeDiff(ev.time, last);
    var hv := if CursorStopped(m.1, delta) then 0.0 else f.p.h.vel;
    var vv := if CursorStopped(m.2, delta) then 0.0 else f.p.v.vel;
    f.(p := f.p.(h := f.p.h.(vel := hv), v := f.p.v.(vel := vv)))
  }

  /**
   * What the drag bookkeeping of the motion handler does, from the kinetic
   * state `s`, the bookkeeping `t`, the idle flag `idle` and the capture
   * `g` to `s1`, `t1`, `idle1`, `g1` with the signals `sigs`: the motion
   * right after the press starts the first drag; check_move runs on the
   * drag since the last event and, when it fires, zeroes that drag, emits
   * its signals, decides whether this is a pan and in ACCEL mode schedules
   * the inertial timer; a pan moves by MoveStep; while the drag is not a
   * pan, crossing the captured child's edge sends it a crossing; the
   * event's time and type are recorded.
   */
  predicate MotionDragDone(c: Config, hasChild: bool, pr: Press, ev: Event, width: int, height: int, veto: bool,
                           s: Kinetic, t: Track, idle: bool, g: Grab,
                           s1: Kinetic, t1: Track, idle1: bool, g1: Grab, sigs: seq<Signal>)
    requires PanValid(c, s.p)
    requires c.mode == Accel ==> width > 0 && height > 0
  {
    var first := t.lastType == 1 || t.firstDrag;
    var starts := DragStarts(first, t.moved, ev.x - s.p.x, ev.y - s.p.y, c.panningThreshold);
    var moved := PanAfterCheck(c, s, t, pr, ev, veto, first);
    && t1 == t.(lastTime := ev.time, lastType := 2, moved := moved, firstDrag := first && !starts)
    && (moved ==> s1 == MoveStep(c, hasChild, s, ev, t.lastTime, HandedDrag(t.moved, ev.x - s.p.x),
                                 HandedDrag(t.moved, ev.y - s.p.y), width, height, t.pressed).0)
    && (!moved ==> s1 == s)
    && idle1 == (idle || (starts && c.mode == Accel))
    && (!moved && g.child.Some? ==>
          g1 == g.(lastIn := InChild(g.cx, g.cy, pr.ix, pr.iy, ev.x, ev.y, g.width, g.height)))
    && (moved || g.child.None? ==> g1 == g)
    && sigs == (if starts then CheckSignals(pr, ev, PanTest(c, s.p, pr, ev), g.child) else [])
               + (if !moved && g.child.Some? && g1.lastIn != g.lastIn then [Crossing(g.child.value, g1.lastIn)] else [])
  }

  /** What the check half of the drag bookkeeping does, from the
      kinetic state `s`, the bookkeeping `t` and the idle flag `idle`
      with the captured child `child`, to `t1` and `idle1`, handing the
      drag (dx, dy) on, with the signals `sigs`; `first` is the
      first-drag flag the check sees. */
  predicate CheckDone(c: Config, pr: Press, ev: Event, veto: bool, first: bool, s: Kinetic, t: Track, idle: bool,
                      child: Option<seq<nat>>, t1: Track, idle1: bool, dx: real, dy: real, sigs: seq<Signal>)
  {
    var starts := DragStarts(first, t.moved, ev.x - s.p.x, ev.y - s.p.y, c.panningThreshold);
    && t1 == t.(moved := PanAfterCheck(c, s, t, pr, ev, veto, first), firstDrag := first && !starts)
    && dx == (if starts then 0.0 else ev.x - s.p.x) && dy == (if starts then 0.0 else ev.y - s.p.y)
    && idle1 == (idle || (starts && c.mode == Accel))
    && sigs == (if starts then CheckSignals(pr, ev, PanTest(c, s.p, pr, ev), child) else [])
  }

  /** What the follow half of the drag bookkeeping does with the drag
      (dx, dy), from `s`, `t`, `g` to `s1`, `t1`, `g1`, with the signals
      `sigs`. */
  predicate FollowDone(c: Config, hasChild: bool, pr: Press, ev: Event, width: int, height: int, dx: real, dy: real,
                       s: Kinetic, t: Track, g: Grab, s1: Kinetic, t1: Track, g1: Grab, sigs: seq<Signal>)
    requires PanValid(c, s.p)
    requires c.mode == Accel ==> width > 0 && height > 0
  {
    && t1 == t.(lastTime := ev.time, lastType := 2)
    && (t.moved ==> s1 == MoveStep(c, hasChild, s, ev, t.lastTime, dx, dy, width, height, t.pressed).0)
    && (!t.moved ==> s1 == s)
    && (!t.moved && g.child.Some? ==>
          g1 == g.(lastIn := InChild(g.cx, g.cy, pr.ix, pr.iy, ev.x, ev.y, g.width, g.height)))
    && (t.moved || g.child.None? ==> g1 == g)
    && sigs == (if !t.moved && g.child.Some? && g1.lastIn != g.lastIn then [Crossing(g.child.value, g1.lastIn)] else [])
  }

  /** The two halves make up MotionDragDone. */
  lemma MotionDragComposes(c: Config, hasChild: bool, pr: Press, ev: Event, width: int, height: int, veto: bool,
                           s0: Kinetic, t0: Track, idle0: bool, g0: Grab,
                           t1: Track, idle1: bool, dx: real, dy: real, cs: seq<Signal>,
                           s2: Kinetic, t2: Track, g2: Grab, fs: seq<Signal>)
    requires PanValid(c, s0.p)
    requires c.mode == Accel ==> width > 0 && height > 0
    requires CheckDone(c, pr, ev, veto, t0.lastType == 1 || t0.firstDrag, s0, t0, idle0, g0.child, t1, idle1, dx, dy, cs)
    requires FollowDone(c, hasChild, pr, ev, width, height, dx, dy, s0, t1, g0, s2, t2, g2, fs)
    ensures MotionDragDone(c, hasChild, pr, ev, width, height, veto, s0, t0, idle0, g0, s2, t2, idle1, g2, cs + fs)
  {
  }

  /** What ReleaseDrag does, from the kinetic state `s`, the bookkeeping
      `t` and the idle flag `idle`, with the captured child `child`, to
      `s1`, `t1` and `idle1`, with the signals `sigs`: check_move runs
      on the drag while it is not yet a pan, and the kinetic state and
      whether the drag is a pan are those of ReleaseDragStep. */
  predicate ReleaseDragDone(c: Config, hasChild: bool, pr: Press, ev: Event, width: int, height: int, veto: bool,
                            s: Kinetic, t: Track, idle: bool, child: Option<seq<nat>>,
                            s1: Kinetic, t1: Track, idle1: bool, sigs: seq<Signal>)
    requires PanValid(c, s.p)
    requires c.mode == Accel ==> width > 0 && height > 0
  {
    var d := ReleaseDragStep(c, hasChild, s, t, pr, ev, width, height, veto);
    var starts := DragStarts(t.firstDrag, t.moved, ev.x - s.p.x, ev.y - s.p.y, c.panningThreshold);
    && s1 == d.0
    && t1 == t.(moved := d.1, firstDrag := t.firstDrag && !starts)
    && idle1 == (idle || (starts && c.mode == Accel))
    && sigs == (if starts then CheckSignals(pr, ev, PanTest(c, s.p, pr, ev), child) else [])
  }

  /** A check at a release that makes the drag a pan, followed by the
      pan part ReleaseMoveStep on the drag it hands on, makes up
      ReleaseDragDone. */
  lemma ReleaseDragPanned(c: Config, hasChild: bool, pr: Press, ev: Event, width: int, height: int, veto: bool,
                          s: Kinetic, t: Track, idle: bool, child: Option<seq<nat>>,
                          t1: Track, idle1: bool, dx: real, dy: real, cs: seq<Signal>, s1: Kinetic)
    requires PanValid(c, s.p)
    requires c.mode == Accel ==> width > 0 && height > 0
    requires CheckDone(c, pr, ev, veto, t.firstDrag, s, t, idle, child, t1, idle1, dx, dy, cs)
    requires t1.moved
    requires s1 == ReleaseMoveStep(c, hasChild, s, ev, t1.lastTime, dx, dy, width, height, t1.pressed)
    ensures ReleaseDragDone(c, hasChild, pr, ev, width, height, veto, s, t, idle, child, s1, t1, idle1, cs)
  {
    ReleaseDragPans(c, hasChild, s, t, pr, ev, width, height, veto, s1);
  }

  /** A check at a release that leaves the drag short of a pan makes up
      ReleaseDragDone with the kinetic state unchanged. */
  lemma ReleaseDragHeld(c: Config, hasChild: bool, pr: Press, ev: Event, width: int, height: int, veto: bool,
                        s: Kinetic, t: Track, idle: bool, child: Option<seq<nat>>,
                        t1: Track, idle1: bool, dx: real, dy: real, cs: seq<Signal>)
    requires PanValid(c, s.p)
    requires c.mode == Accel ==> width > 0 && height > 0
    requires CheckDone(c, pr, ev, veto, t.firstDrag, s, t, idle, child, t1, idle1, dx, dy, cs)
    requires !t1.moved
    ensures ReleaseDragDone(c, hasChild, pr, ev, width, height, veto, s, t, idle, child, s, t1, idle1, cs)
  {
  }

  /** What the kinetic part of a release does, from the kinetic state
      `s`, the bookkeeping `t`, the idle flag `idle` and the fade `f` to
      `s1`, `t1`, `idle1` and `f1`, with the signals `sigs`: the pan is
      thrown as ReleaseThrow says, the button is up, an area that goes
      on moving is scheduled and shows its indicators at full opacity,
      and the fade restarts, uninterrupted, with its hold. */
  predicate KineticsDone(c: Config, pr: Press, ev: Event, s: Kinetic, t: Track, idle: bool, f: Fade,
                         s1: Kinetic, t1: Track, idle1: bool, f1: Fade, sigs: seq<Signal>)
  {
    var r := ReleaseThrow(c, s.p.h, s.p.v, pr, TimeDiff(ev.time, t.lastPressTime));
    && s1 == s.(p := s.p.(h := r.h, v := r.v))
    && t1 == t.(pressed := false)
    && idle1 == (idle || r.go)
    && f1 == f.(alpha := if r.go then 1.0 else f.alpha, fadeIn := false, timer := true, interrupt := false,
                delayCounter := c.scrollbarFadeDelay)
    && sigs == ThrowSignals(r.go, t.moved)
  }

  /** The motion forwarded to the captured child `g`, in its
      coordinates, when the event reached the area's own event window. */
  function MotionForward(g: Grab, pr: Press, ev: Event): seq<Signal>
  {
    if g.child.Some? && ev.onEventWindow
    then [ChildMotion(g.child.value, g.cx as real + (ev.x - pr.ix as real), g.cy as real + (ev.y - pr.iy as real))]
    else []
  }

  /** What a release that ends a drag does up to the child events, from
      the kinetic state `s`, the bookkeeping `t`, the idle flag `idle`
      and the scroll-bar fade `f` to `s1`, `t1`, `idle1` and `f1`, with
      the signals `sigs`: the drag is checked and handed on as in
      ReleaseDragStep, then the pan is thrown as in ReleaseThrow. */
  predicate ThrowDone(c: Config, hasChild: bool, pr: Press, ev: Event, width: int, height: int, veto: bool,
                     s: Kinetic, t: Track, idle: bool, f: Fade, s1: Kinetic, t1: Track, idle1: bool, f1: Fade,
                     child: Option<seq<nat>>, sigs: seq<Signal>)
    requires PanValid(c, s.p)
    requires c.mode == Accel ==> width > 0 && height > 0
  {
    var d := ReleaseDragStep(c, hasChild, s, t, pr, ev, width, height, veto);
    var starts := !t.moved && DragStarts(t.firstDrag, false, ev.x - s.p.x, ev.y - s.p.y, c.panningThreshold);
    var r := ReleaseThrow(c, d.0.p.h, d.0.p.v, pr, TimeDiff(ev.time, t.lastPressTime));
    && f1 == f.(alpha := if r.go then 1.0 else f.alpha, fadeIn := false, timer := true, interrupt := false,
                delayCounter := c.scrollbarFadeDelay)
    && s1 == d.0.(p := d.0.p.(h := r.h, v := r.v))
    && t1 == t.(pressed := false, moved := d.1, firstDrag := t.firstDrag && !starts)
    && idle1 == (idle || (starts && c.mode == Accel) || r.go)
    && sigs == (if starts then CheckSignals(pr, ev, PanTest(c, s.p, pr, ev), child) else []) + ThrowSignals(r.go, d.1)
  }

  /** ReleaseDrag followed by the kinetic part makes up ThrowDone. */
  lemma ThrowComposes(c: Config, hasChild: bool, pr: Press, ev: Event, width: int, height: int, veto: bool,
                      s0: Kinetic, t0: Track, idle0: bool, f0: Fade, child: Option<seq<nat>>,
                      s1: Kinetic, t1: Track, idle1: bool, cs: seq<Signal>,
                      s2: Kinetic, t2: Track, idle2: bool, f2: Fade, ks: seq<Signal>)
    requires PanValid(c, s0.p)
    requires c.mode == Accel ==> width > 0 && height > 0
    requires ReleaseDragDone(c, hasChild, pr, ev, width, height, veto, s0, t0, idle0, child, s1, t1, idle1, cs)
    requires KineticsDone(c, pr, ev, s1, t1, idle1, f0, s2, t2, idle2, f2, ks)
    ensures ThrowDone(c, hasChild, pr, ev, width, height, veto, s0, t0, idle0, f0, s2, t2, idle2, f2, child, cs + ks)
  {
  }

  /** What a release outside a selection drag does up to the child
      events: ThrowDone after a motion, KineticsDone otherwise. */
  predicate ReleaseUpDone(c: Config, hasChild: bool, pr: Press, ev: Event, width: int, height: int, veto: bool,
                          s: Kinetic, t: Track, idle: bool, f: Fade, child: Option<seq<nat>>,
                          s1: Kinetic, t1: Track, idle1: bool, f1: Fade, sigs: seq<Signal>)
    requires PanValid(c, s.p)
    requires c.mode == Accel ==> width > 0 && height > 0
  {
    if t.lastType == 2 then ThrowDone(c, hasChild, pr, ev, width, height, veto, s, t, idle, f, s1, t1, idle1, f1, child, sigs)
    else KineticsDone(c, pr, ev, s, t, idle, f, s1, t1, idle1, f1, sigs)
  }

  /** The throw after a drag leaves the button up and the rest of the
      bookkeeping but the drag as it was, and restarts the fade,
      uninterrupted, with its hold, the indicators at full opacity or as
      they were; an area already scheduled stays scheduled. */
  lemma ThrowFacts(c: Config, hasChild: bool, pr: Press, ev: Event, width: int, height: int, veto: bool,
                   s: Kinetic, t: Track, idle: bool, f: Fade, child: Option<seq<nat>>,
                   s1: Kinetic, t1: Track, idle1: bool, f1: Fade, sigs: seq<Signal>)
    requires PanValid(c, s.p)
    requires c.mode == Accel ==> width > 0 && height > 0
    requires ThrowDone(c, hasChild, pr, ev, width, height, veto, s, t, idle, f, s1, t1, idle1, f1, child, sigs)
    ensures t1 == t.(pressed := false, moved := t1.moved, firstDrag := t1.firstDrag)
    ensures f1 == f.(alpha := f1.alpha, fadeIn := false, timer := true, interrupt := false,
                     delayCounter := c.scrollbarFadeDelay)
    ensures f1.alpha == 1.0 || f1.alpha == f.alpha
    ensures idle ==> idle1
  {
  }

  /** The same for the kinetic part alone, which also keeps the drag. */
  lemma KineticsFacts(c: Config, pr: Press, ev: Event, s: Kinetic, t: Track, idle: bool, f: Fade,
                      s1: Kinetic, t1: Track, idle1: bool, f1: Fade, sigs: seq<Signal>)
    requires KineticsDone(c, pr, ev, s, t, idle, f, s1, t1, idle1, f1, sigs)
    ensures t1 == t.(pressed := false)
    ensures f1 == f.(alpha := f1.alpha, fadeIn := false, timer := true, interrupt := false,
                     delayCounter := c.scrollbarFadeDelay)
    ensures f1.alpha == 1.0 || f1.alpha == f.alpha
    ensures idle ==> idle1
  {
  }

  /** Either way, a release outside a selection drag leaves the button
      up and the rest of the bookkeeping but the drag as it was, and
      restarts the fade with its hold. */
  lemma ReleaseUpFacts(c: Config, hasChild: bool, pr: Press, ev: Event, width: int, height: int, veto: bool,
                       s: Kinetic, t: Track, idle: bool, f: Fade, child: Option<seq<nat>>,
                       s1: Kinetic, t1: Track, idle1: bool, f1: Fade, sigs: seq<Signal>)
    requires PanValid(c, s.p)
    requires c.mode == Accel ==> width > 0 && height > 0
    requires ReleaseUpDone(c, hasChild, pr, ev, width, height, veto, s, t, idle, f, child, s1, t1, idle1, f1, sigs)
    ensures t1 == t.(pressed := false, moved := t1.moved, firstDrag := t1.firstDrag)
    ensures f1 == f.(alpha := f1.alpha, fadeIn := false, timer := true, interrupt := false,
                     delayCounter := c.scrollbarFadeDelay)
    ensures f1.alpha == 1.0 || f1.alpha == f.alpha
    ensures idle ==> idle1
  {
    if t.lastType == 2 {
      ThrowFacts(c, hasChild, pr, ev, width, height, veto, s, t, idle, f, child, s1, t1, idle1, f1, sigs);
    } else {
      KineticsFacts(c, pr, ev, s, t, idle, f, s1, t1, idle1, f1, sigs);
    }
  }

  /** A release on a drag that is a pan ends in ReleaseMoveStep. */
  lemma ReleaseDragPans(c: Config, hasChild: bool, s: Kinetic, t: Track, pr: Press, ev: Event,
                        width: int, height: int, veto: bool, k: Kinetic)
    requires PanValid(c, s.p)
    requires c.mode == Accel ==> width > 0 && height > 0
    requires PanAfterCheck(c, s, t, pr, ev, veto, t.firstDrag)
    requires k == ReleaseMoveStep(c, hasChild, s, ev, t.lastTime, HandedDrag(t.moved, ev.x - s.p.x),
                                  HandedDrag(t.moved, ev.y - s.p.y), width, height, t.pressed)
    ensures ReleaseDragStep(c, hasChild, s, t, pr, ev, width, height, veto) == (k, true)
  {
  }

  /** check_move's axis test on the position state `p`: whether a drag
      from the press to the event is a pan. */
  function PanTest(c: Config, p: Pan, pr: Press, ev: Event): (r: bool)
    ensures !(Scrollable(p.v.adj) && c.vert) && !(Scrollable(p.h.adj) && c.horiz) ==> !r
  {
    var dv := Abs(pr.iy as real - ev.y);
    var dh := Abs(pr.ix as real - ev.x);
    PansAlong(dv >= dh, Scrollable(p.v.adj) && c.vert, Scrollable(p.h.adj) && c.horiz, dv, dh, c.directionErrorMargin)
  }

  /** What check_move emits when it fires, in order: the movement signal,
      then for a pan a leave to the captured child and PANNING_STARTED. */
  function CheckSignals(pr: Press, ev: Event, pan: bool, child: Option<seq<nat>>): (r: seq<Signal>)
    ensures |r| >= 1 && r[0] == MovementSignal(pr.ix, pr.iy, ev.x, ev.y)
    ensures |r| == 1 + (if pan then 1 else 0) + (if pan && child.Some? then 1 else 0)
    ensures PanningStarted in r <==> pan
    ensures pan ==> r[|r| - 1] == PanningStarted
    ensures pan && child.Some? ==> r[1] == Crossing(child.value, false)
  {
    [MovementSignal(pr.ix, pr.iy, ev.x, ev.y)]
    + (if pan && child.Some? then [Crossing(child.value, false)] else [])
    + (if pan then [PanningStarted] else [])
  }

  /** Whether the drag is a pan once check_move has run on the event,
      `first` being the first-drag flag it sees: it already was, or
      check_move fires, the axis test passes and PANNING_STARTED is not
      vetoed. */
  function PanAfterCheck(c: Config, s: Kinetic, t: Track, pr: Press, ev: Event, veto: bool, first: bool): bool
  {
    t.moved || (DragStarts(first, t.moved, ev.x - s.p.x, ev.y - s.p.y, c.panningThreshold)
                && PanTest(c, s.p, pr, ev) && !veto)
  }

  /** The drag handle_move sees after check_move: the whole drag since
      the last event for a drag that already was a pan, zero for one that
      check_move has just turned into a pan. */
  function HandedDrag(moved: bool, d: real): real
  {
    if moved then d else 0.0
  }

  /**
   * A release right after a motion, on the kinetic state `s` and the
   * bookkeeping `t`: check_move runs on the drag since the last event,
   * and a pan ends with ReleaseMoveStep. Yields the new kinetic state and
   * whether the drag is a pan.
   */
  function ReleaseDragStep(c: Config, hasChild: bool, s: Kinetic, t: Track, pr: Press, ev: Event,
                           width: int, height: int, veto: bool): (r: (Kinetic, bool))
    requires PanValid(c, s.p)
    requires c.mode == Accel ==> width > 0 && height > 0
    ensures PanValid(c, r.0.p)
    ensures r.1 <==> PanAfterCheck(c, s, t, pr, ev, veto, t.firstDrag)
    ensures !r.1 ==> r.0 == s
    ensures r.1 ==> !r.0.motion.timer
  {
    var moved := PanAfterCheck(c, s, t, pr, ev, veto, t.firstDrag);
    if moved then
      (ReleaseMoveStep(c, hasChild, s, ev, t.lastTime, HandedDrag(t.moved, ev.x - s.p.x),
                       HandedDrag(t.moved, ev.y - s.p.y), width, height, t.pressed), true)
    else (s, false)
  }

  /**
   * HildonPannableAreaPrivate and the handlers that update it. The
   * structure's fields are kept in records by the part of the area they
   * belong to (Track, Press, Grab, Motion, Fade, Indicators, Animation);
   * each axis's fields are an Axis. The GtkBin child is `hasChild`; its
   * window tree comes with each button event, and the captured child
   * window is kept as its path in that tree. idle, fade.timer,
   * motion.timer and anim.ticking say whether the inertial timer, the
   * fade timer, the coalescing timer and the frame clock callback are
   * scheduled.
   */
  class PannableArea {
    const cfg: Config
    const hasChild: bool

    var h: Axis
    var v: Axis
    var x: real
    var y: real
    var ex: real
    var ey: real
    var track: Track
    var press: Press
    var grab: Grab
    var idle: bool
    var motion: Motion
    var fade: Fade
    var ind: Indicators
    var anim: Animation

    /** The invariant, on the fields it constrains. */
    predicate Valid()
      reads this`h, this`v, this`x, this`y, this`fade, this`anim
    {
      AreaValid(cfg, Pan(h, v, x, y), fade.alpha, anim)
    }

    function PanState(): Pan
      reads this`h, this`v, this`x, this`y
    {
      Pan(h, v, x, y)
    }

    function KineticState(): Kinetic
      reads this`h, this`v, this`x, this`y, this`ex, this`ey, this`motion
    {
      Kinetic(Pan(h, v, x, y), ex, ey, motion)
    }

    /** The zero-filled private structure of a new area over the given
        adjustments, with no snap target. */
    constructor (cfg: Config, hasChild: bool, hadj: Adjustment, vadj: Adjustment)
      requires InBounds(hadj) && InBounds(vadj)
      ensures Valid()
      ensures this.cfg == cfg && this.hasChild == hasChild
      ensures h == Axis(hadj, 0.0, 0, 0, -1.0) && v == Axis(vadj, 0.0, 0, 0, -1.0)
      ensures x == 0.0 && y == 0.0 && ex == 0.0 && ey == 0.0
      ensures track == Track(false, 0, 0, 0, false, false, false) && press == Press(0, 0, 0.0, 0.0)
      ensures grab == Grab(None, 0, 0, 0, 0, false) && !idle && motion == Motion(0.0, 0.0, false)
      ensures fade == Fade(0.0, false, false, false, 0) && !anim.ticking
    {
      this.cfg := cfg;
      this.hasChild := hasChild;
      h := Axis(hadj, 0.0, 0, 0, -1.0);
      v := Axis(vadj, 0.0, 0, 0, -1.0);
      x, y, ex, ey := 0.0, 0.0, 0.0, 0.0;
      track := Track(false, 0, 0, 0, false, false, false);
      press := Press(0, 0, 0.0, 0.0);
      grab := Grab(None, 0, 0, 0, 0, false);
      idle := false;
      motion := Motion(0.0, 0.0, false);
      fade := Fade(0.0, false, false, false, 0);
      ind := Indicators(false, false, Rect(0, 0, 0, 0), Rect(0, 0, 0, 0));
      anim := Animation(0.0, 0.0, 0.0, 0.0, 0, 0, false);
    }

    /** hildon_pannable_area_remove_timeouts: all three timers stop; a
        running inertial timer reports the end of the pan. */
    method RemoveTimeouts() returns (sigs: seq<Signal>)
      modifies this`idle, this`fade, this`motion
      ensures sigs == if old(idle) then [PanningFinished] else []
      ensures !idle && fade == old(fade).(timer := false) && motion == old(motion).(timer := false)
    {
      sigs := [];
      if idle {
        sigs := [PanningFinished];
        idle := false;
      }
      fade := fade.(timer := false);
      motion := motion.(timer := false);
    }

    /** hildon_pannable_area_launch_fade_timeout: set the opacity, end a
        fade-in, and schedule the fade timer only when none is scheduled. */
    method LaunchFadeTimeout(a: real) returns (scheduled: bool)
      modifies this`fade
      ensures fade == old(fade).(alpha := a, fadeIn := false, timer := true)
      ensures scheduled <==> !old(fade.timer)
    {
      scheduled := !fade.timer;
      fade := fade.(alpha := a, fadeIn := false, timer := true);
    }

    /**
     * hildon_pannable_area_scroll_indicator_fade, one tick of the fade
     * timer; `cont` is the callback's result (FALSE removes the timer).
     * A moving area with the finger up keeps the indicators; an
     * interrupted fade or a fade-in brightens by 0.2 up to full opacity;
     * a full indicator holds while the delay counter runs down; then it
     * fades by 0.2 down to nothing.
     */
    method ScrollIndicatorFade() returns (cont: bool)
      requires Valid()
      modifies this`fade
      ensures Valid()
      ensures var f := old(fade);
              var moving := (Abs(v.vel) > cfg.vmin || Abs(h.vel) > cfg.vmin) && !track.pressed;
              && (moving ==> cont && fade == f)
              && (!moving && (f.interrupt || f.fadeIn) && f.alpha > 0.9 ==>
                    !cont && fade == f.(alpha := 1.0, fadeIn := false, timer := f.fadeIn))
              && (!moving && (f.interrupt || f.fadeIn) && f.alpha <= 0.9 ==>
                    cont && fade == f.(alpha := f.alpha + 0.2))
              && (!moving && !f.interrupt && !f.fadeIn && f.alpha > 0.9 && f.delayCounter > 0 ==>
                    cont && fade == f.(delayCounter := f.delayCounter - 1))
              && (!moving && !f.interrupt && !f.fadeIn && !(f.alpha > 0.9 && f.delayCounter > 0) ==>
                    if f.alpha < 0.1 then !cont && fade == f.(alpha := 0.0, timer := false)
                    else cont && fade == f.(alpha := f.alpha - 0.2))
      ensures !cont ==> fade.alpha == 1.0 || fade.alpha == 0.0
    {
      if (Abs(v.vel) > cfg.vmin || Abs(h.vel) > cfg.vmin) && !track.pressed {
        return true;
      }
      if fade.interrupt || fade.fadeIn {
        if fade.alpha > 0.9 {
          fade := fade.(alpha := 1.0, timer := false);
          if fade.fadeIn {
            var scheduled := LaunchFadeTimeout(1.0);
          }
          return false;
        } else {
          fade := fade.(alpha := fade.alpha + 0.2);
          return true;
        }
      }
      if fade.alpha > 0.9 && fade.delayCounter > 0 {
        fade := fade.(delayCounter := fade.delayCounter - 1);
        return true;
      }
      if fade.alpha < 0.1 {
        fade := fade.(alpha := 0.0, timer := false);
        return false;
      } else {
        fade := fade.(alpha := fade.alpha - 0.2);
        return true;
      }
    }

    /**
     * hildon_pannable_area_check_scrollbars, with the indicator rectangles
     * taken from the widget's allocation (width, height); the result says
     * whether either indicator appeared or disappeared.
     */
    method CheckScrollbars(width: int, height: int) returns (changed: bool)
      modifies this`ind
      ensures ind.hVisible == IndicatorVisible(hasChild, cfg.hpolicy, h.adj)
      ensures ind.vVisible == IndicatorVisible(hasChild, cfg.vpolicy, v.adj)
      ensures (ind.vRect, ind.hRect)
              == IndicatorRects(width, height, cfg.indicatorWidth, ind.vVisible, ind.hVisible,
                                old(ind.vRect), old(ind.hRect))
      ensures changed <==> ind.hVisible != old(ind.hVisible) || ind.vVisible != old(ind.vVisible)
    {
      var hVisible := IndicatorVisible(hasChild, cfg.hpolicy, h.adj);
      var vVisible := IndicatorVisible(hasChild, cfg.vpolicy, v.adj);
      changed := hVisible != ind.hVisible || vVisible != ind.vVisible;
      var rects := IndicatorRects(width, height, cfg.indicatorWidth, vVisible, hVisible, ind.vRect, ind.hRect);
      ind := Indicators(hVisible, vVisible, rects.1, rects.0);
    }

    /** hildon_pannable_area_scroll by (dx, dy) pixels. */
    method Scroll(dx: real, dy: real)
      requires Valid()
      modifies this`h, this`v, this`x, this`y
      ensures Valid()
      ensures PanState() == AreaScroll(cfg, hasChild, old(PanState()), ex, ey, dx, dy, track.pressed)
    {
      if !hasChild {
        return;
      }
      var sy := Drive(v, dy, cfg.vovershootMax, cfg.vmaxOvershooting, cfg.bounceSteps, track.pressed);
      var sx := Drive(h, dx, cfg.hovershootMax, cfg.vmaxOvershooting, cfg.bounceSteps, track.pressed);
      v := sy.axis;
      h := sx.axis;
      if cfg.mode == Accel {
        if !sx.ok {
          x := ex;
        }
        if !sy.ok {
          y := ey;
        }
      }
    }

    /**
     * hildon_pannable_area_timeout, one tick of the inertial timer; `cont`
     * is the callback's result. A disabled area or PUSH mode stops at once;
     * otherwise the area scrolls by its velocity and then, with the finger
     * up and no overshoot, decelerates (towards a snap target only above
     * 1.5) and stops once both speeds are below 1; with the finger down in
     * AUTO mode the timer stops silently.
     */
    method Timeout() returns (cont: bool, sigs: seq<Signal>)
      requires Valid()
      modifies this`h, this`v, this`x, this`y, this`idle
      ensures Valid()
      ensures !cfg.enabled || cfg.mode == Push ==>
                !cont && sigs == [PanningFinished] && !idle && PanState() == old(PanState())
      ensures cfg.enabled && cfg.mode != Push ==>
                var s := AreaScroll(cfg, hasChild, old(PanState()), ex, ey, old(h.vel), old(v.vel), track.pressed);
                && x == s.x && y == s.y && h == s.h.(vel := h.vel) && v == s.v.(vel := v.vel)
                && (!track.pressed && s.h.overshotDist == 0 && s.v.overshotDist == 0
                    && (s.h.scrollTo != -1.0 || s.v.scrollTo != -1.0) ==>
                      cont && sigs == [] && idle == old(idle)
                      && h.vel == TargetDecel(s.h.vel, cfg.decel) && v.vel == TargetDecel(s.v.vel, cfg.decel))
                && (!track.pressed && s.h.overshotDist == 0 && s.v.overshotDist == 0
                    && s.h.scrollTo == -1.0 && s.v.scrollTo == -1.0 ==>
                      var hv := FreeDecel(s.h.vel, cfg.decel, cfg.lowFrictionMode, cfg.horiz, cfg.vmax);
                      var vv := FreeDecel(s.v.vel, cfg.decel, cfg.lowFrictionMode, cfg.vert, cfg.vmax);
                      if Abs(hv) < 1.0 && Abs(vv) < 1.0 then
                        !cont && sigs == [PanningFinished] && !idle && h.vel == 0.0 && v.vel == 0.0
                      else
                        cont && sigs == [] && idle == old(idle) && h.vel == hv && v.vel == vv)
                && (!track.pressed && (s.h.overshotDist != 0 || s.v.overshotDist != 0) ==>
                      cont && sigs == [] && idle == old(idle) && h == s.h && v == s.v)
                && (track.pressed ==> h == s.h && v == s.v && sigs == []
                                      && (if cfg.mode == Auto then !cont && !idle else cont && idle == old(idle)))
    {
      if !cfg.enabled || cfg.mode == Push {
        idle := false;
        return false, [PanningFinished];
      }
      Scroll(h.vel, v.vel);
      cont, sigs := Settle();
    }

    /** The part of the timeout after the scroll: deceleration and the
        decision to stop. */
    method Settle() returns (cont: bool, sigs: seq<Signal>)
      modifies this`h, this`v, this`idle
      ensures h == old(h).(vel := h.vel) && v == old(v).(vel := v.vel)
      ensures !track.pressed && old(h.overshotDist) == 0 && old(v.overshotDist) == 0
              && (old(h.scrollTo) != -1.0 || old(v.scrollTo) != -1.0) ==>
                cont && sigs == [] && idle == old(idle)
                && h.vel == TargetDecel(old(h.vel), cfg.decel) && v.vel == TargetDecel(old(v.vel), cfg.decel)
      ensures !track.pressed && old(h.overshotDist) == 0 && old(v.overshotDist) == 0
              && old(h.scrollTo) == -1.0 && old(v.scrollTo) == -1.0 ==>
                var hv := FreeDecel(old(h.vel), cfg.decel, cfg.lowFrictionMode, cfg.horiz, cfg.vmax);
                var vv := FreeDecel(old(v.vel), cfg.decel, cfg.lowFrictionMode, cfg.vert, cfg.vmax);
                if Abs(hv) < 1.0 && Abs(vv) < 1.0 then
                  !cont && sigs == [PanningFinished] && !idle && h.vel == 0.0 && v.vel == 0.0
                else
                  cont && sigs == [] && idle == old(idle) && h.vel == hv && v.vel == vv
      ensures !track.pressed && (old(h.overshotDist) != 0 || old(v.overshotDist) != 0) ==>
                cont && sigs == [] && unchanged(this`h, this`v, this`idle)
      ensures track.pressed ==> unchanged(this`h, this`v) && sigs == []
                                && (if cfg.mode == Auto then !cont && !idle else cont && idle == old(idle))
    {
      cont, sigs := true, [];
      if !track.pressed {
        if v.overshotDist == 0 && h.overshotDist == 0 {
          if h.scrollTo != -1.0 || v.scrollTo != -1.0 {
            h := h.(vel := TargetDecel(h.vel, cfg.decel));
            v := v.(vel := TargetDecel(v.vel, cfg.decel));
          } else {
            var hv := FreeDecel(h.vel, cfg.decel, cfg.lowFrictionMode, cfg.horiz, cfg.vmax);
            var vv := FreeDecel(v.vel, cfg.decel, cfg.lowFrictionMode, cfg.vert, cfg.vmax);
            if Abs(hv) < 1.0 && Abs(vv) < 1.0 {
              h := h.(vel := 0.0);
              v := v.(vel := 0.0);
              idle := false;
              return false, [PanningFinished];
            }
            h := h.(vel := hv);
            v := v.(vel := vv);
          }
        }
      } else if cfg.mode == Auto {
        idle := false;
        return false, [];
      }
    }

    /** hildon_pannable_area_motion_event_scroll_timeout: apply the pending
        motion, if any, and stop the coalescing timer (the pending motion
        itself is left as it is). */
    method MotionEventScrollTimeout()
      requires Valid()
      modifies this`h, this`v, this`x, this`y, this`motion
      ensures Valid()
      ensures motion == old(motion).(timer := false)
      ensures motion.dx != 0.0 || motion.dy != 0.0 ==>
                PanState() == AreaScroll(cfg, hasChild, old(PanState()), ex, ey, motion.dx, motion.dy, track.pressed)
      ensures motion.dx == 0.0 && motion.dy == 0.0 ==> PanState() == old(PanState())
    {
      if motion.dx != 0.0 || motion.dy != 0.0 {
        Scroll(motion.dx, motion.dy);
      }
      motion := motion.(timer := false);
    }

    /** hildon_pannable_area_motion_event_scroll. */
    method MotionEventScroll(dx: real, dy: real)
      requires Valid()
      modifies this`h, this`v, this`x, this`y, this`motion
      ensures Valid()
      ensures (PanState(), motion)
              == Coalesce(cfg, hasChild, old(PanState()), old(motion), ex, ey, dx, dy, track.pressed)
    {
      if motion.timer {
        motion := motion.(dx := motion.dx + dx, dy := motion.dy + dy);
      } else {
        Scroll(dx, dy);
        motion := Motion(0.0, 0.0, true);
      }
    }

    /**
     * hildon_pannable_area_check_move for a drag of (dx, dy) since the last
     * event; `veto` is what the PANNING_STARTED handlers return. Fires only
     * on the first drag past the threshold: it zeroes the drag, emits the
     * movement signal, decides by the axis test whether this is a pan, and
     * if so sends the child a leave and emits PANNING_STARTED, whose
     * handlers may veto it; in ACCEL mode it schedules the inertial timer.
     */
    method CheckMove(ev: Event, dx: real, dy: real, veto: bool) returns (rx: real, ry: real, sigs: seq<Signal>)
      modifies this`track, this`idle
      ensures !DragStarts(old(track.firstDrag), old(track.moved), dx, dy, cfg.panningThreshold) ==>
                rx == dx && ry == dy && sigs == [] && unchanged(this`track, this`idle)
      ensures DragStarts(old(track.firstDrag), old(track.moved), dx, dy, cfg.panningThreshold) ==>
                var pan := PanTest(cfg, PanState(), press, ev);
                && rx == 0.0 && ry == 0.0
                && track == old(track).(moved := pan && !veto, firstDrag := false)
                && sigs == CheckSignals(press, ev, pan, grab.child)
                && idle == (old(idle) || cfg.mode == Accel)
    {
      rx, ry, sigs := dx, dy, [];
      if track.firstDrag && !track.moved
         && (Abs(dx) > cfg.panningThreshold as real || Abs(dy) > cfg.panningThreshold as real)
      {
        var moved := true;
        rx, ry := 0.0, 0.0;
        var dv := Abs(press.iy as real - ev.y);
        var dh := Abs(press.ix as real - ev.x);
        sigs := [MovementSignal(press.ix, press.iy, ev.x, ev.y)];
        if dv >= dh {
          if !(Scrollable(v.adj) && cfg.vert) {
            if !(Scrollable(h.adj) && cfg.horiz) || dv - dh >= cfg.directionErrorMargin as real {
              moved := false;
            }
          }
        } else {
          if !(Scrollable(h.adj) && cfg.horiz) {
            if !(Scrollable(v.adj) && cfg.vert) || dh - dv >= cfg.directionErrorMargin as real {
              moved := false;
            }
          }
        }
        if moved && grab.child.Some? {
          sigs := sigs + [Crossing(grab.child.value, false)];
        }
        if moved {
          sigs := sigs + [PanningStarted];
          moved := !veto;
        }
        track := track.(moved := moved, firstDrag := false);
        if cfg.mode != Push && cfg.mode != Auto {
          idle := true;
        }
      }
    }

    /**
     * hildon_pannable_area_handle_move for a drag of (dx, dy): PUSH
     * scrolls by the drag (through the coalescing timer) and moves the
     * drag origin to the cursor; ACCEL sets the velocities from the share
     * of the allocation (width, height) dragged; AUTO filters the drag
     * into the velocity of each enabled axis, stops a disabled one, scrolls
     * by the drag of the enabled axes and moves their origin. Returns the
     * drag as it leaves it.
     */
    method HandleMove(ev: Event, dx: real, dy: real, width: int, height: int) returns (rx: real, ry: real)
      requires Valid()
      requires cfg.mode == Accel ==> width > 0 && height > 0
      modifies this`h, this`v, this`x, this`y, this`ex, this`ey, this`motion
      ensures Valid()
      ensures (KineticState(), rx, ry)
              == MoveStep(cfg, hasChild, old(KineticState()), ev, track.lastTime, dx, dy, width, height, track.pressed)
    {
      match cfg.mode
      case Push =>
        rx, ry := dx, dy;
        MotionEventScroll(dx, dy);
        x, y := ev.x, ev.y;
      case Accel =>
        rx, ry := dx, dy;
        ex, ey := ev.x, ev.y;
        h := h.(vel := AccelVelocity(dx, width, cfg.vmin, cfg.vmax));
        v := v.(vel := AccelVelocity(dy, height, cfg.vmin, cfg.vmax));
      case Auto =>
        rx, ry := AutoMove(ev, dx, dy);
    }

    /** The AUTO branch of handle_move. */
    method AutoMove(ev: Event, dx: real, dy: real) returns (rx: real, ry: real)
      requires Valid()
      modifies this`h, this`v, this`x, this`y, this`motion
      ensures Valid()
      ensures var hv := AutoVelocity(cfg.horiz, old(h.vel), ev.time, track.lastTime, ev.x - old(x), cfg);
              var vv := AutoVelocity(cfg.vert, old(v.vel), ev.time, track.lastTime, ev.y - old(y), cfg);
              var c := Coalesce(cfg, hasChild, Pan(old(h).(vel := hv), old(v).(vel := vv), old(x), old(y)),
                                old(motion), ex, ey, rx, ry, track.pressed);
              && rx == (if cfg.horiz then dx else 0.0) && ry == (if cfg.vert then dy else 0.0)
              && h == c.0.h && v == c.0.v && motion == c.1
              && x == (if cfg.horiz then ev.x else c.0.x) && y == (if cfg.vert then ev.y else c.0.y)
    {
      var hv := AutoVelocity(cfg.horiz, h.vel, ev.time, track.lastTime, ev.x - x, cfg);
      var vv := AutoVelocity(cfg.vert, v.vel, ev.time, track.lastTime, ev.y - y, cfg);
      rx := if cfg.horiz then dx else 0.0;
      ry := if cfg.vert then dy else 0.0;
      v := v.(vel := vv);
      h := h.(vel := hv);
      MotionEventScroll(rx, ry);
      if cfg.horiz {
        x := ev.x;
      }
      if cfg.vert {
        y := ev.y;
      }
    }

    /** The enter/leave tracking of the motion handler: a synthetic
        crossing only when the cursor crosses the captured child's edge,
        and last_in follows it. */
    method TrackCrossing(ev: Event) returns (sigs: seq<Signal>)
      requires grab.child.Some?
      modifies this`grab
      ensures grab == old(grab).(lastIn := InChild(grab.cx, grab.cy, press.ix, press.iy, ev.x, ev.y,
                                                   grab.width, grab.height))
      ensures sigs == if grab.lastIn != old(grab.lastIn) then [Crossing(grab.child.value, grab.lastIn)] else []
    {
      var posX := Trunc(grab.cx as real + (ev.x - press.ix as real));
      var posY := Trunc(grab.cy as real + (ev.y - press.iy as real));
      var inside := 0 <= posX && grab.width >= posX && 0 <= posY && grab.height >= posY;
      sigs := [];
      if (!grab.lastIn && inside) || (grab.lastIn && !inside) {
        sigs := [Crossing(grab.child.value, inside)];
        grab := grab.(lastIn := inside);
      }
    }

    /**
     * hildon_pannable_area_motion_notify_cb. Ignored without a child, when
     * disabled, with no button down, and for a repeat of the last motion's
     * time. Outside a selection drag it runs TrackDrag; the motion is then
     * forwarded to the captured child, in its coordinates, when it reached
     * the area's own event window.
     */
    method MotionNotify(ev: Event, width: int, height: int, veto: bool)
      returns (sigs: seq<Signal>, ghost dragSigs: seq<Signal>)
      requires Valid()
      requires cfg.mode == Accel ==> width > 0 && height > 0
      modifies this`h, this`v, this`x, this`y, this`ex, this`ey, this`motion, this`track, this`idle, this`grab
      ensures Valid()
      ensures MotionIgnored(ev, old(track)) ==> sigs == [] && unchanged(this)
      ensures !MotionIgnored(ev, old(track)) && old(track.selection) ==>
                sigs == MotionForward(grab, press, ev) && unchanged(this)
      ensures !MotionIgnored(ev, old(track)) && !old(track.selection) ==>
                && MotionDragDone(cfg, hasChild, press, ev, width, height, veto,
                                  old(KineticState()), old(track), old(idle), old(grab),
                                  KineticState(), track, idle, grab, dragSigs)
                && sigs == dragSigs + MotionForward(grab, press, ev)
    {
      sigs, dragSigs := [], [];
      if MotionIgnored(ev, track) {
        return;
      }
      if !track.selection {
        sigs := TrackDrag(ev, width, height, veto);
        dragSigs := sigs;
      }
      if grab.child.Some? && ev.onEventWindow {
        sigs := sigs + [ChildMotion(grab.child.value, grab.cx as real + (ev.x - press.ix as real),
                                    grab.cy as real + (ev.y - press.iy as real))];
      }
    }

    /** The motion handler's early return: no child, disabled, no button
        down, or a repeat of the last motion's time. */
    predicate MotionIgnored(ev: Event, t: Track)
    {
      !hasChild || !cfg.enabled || !t.pressed || (ev.time == t.lastTime && t.lastType == 2)
    }

    method TrackDrag(ev: Event, width: int, height: int, veto: bool) returns (sigs: seq<Signal>)
      requires Valid()
      requires cfg.mode == Accel ==> width > 0 && height > 0
      modifies this`h, this`v, this`x, this`y, this`ex, this`ey, this`motion, this`track, this`idle, this`grab
      ensures Valid()
      ensures MotionDragDone(cfg, hasChild, press, ev, width, height, veto,
                             old(KineticState()), old(track), old(idle), old(grab),
                             KineticState(), track, idle, grab, sigs)
    {
      ghost var s0, t0, i0, g0 := KineticState(), track, idle, grab;
      var dx, dy, checkSigs := StartDrag(ev, veto);
      ghost var t1, i1 := track, idle;
      var followSigs := FollowDrag(ev, dx, dy, width, height);
      sigs := checkSigs + followSigs;
      MotionDragComposes(cfg, hasChild, press, ev, width, height, veto, s0, t0, i0, g0, t1, i1, dx, dy, checkSigs,
                         KineticState(), track, grab, followSigs);
    }

    /** The first half of the drag bookkeeping: a motion right after the
        press starts the first drag, and check_move runs on the drag while
        it is not yet a pan. Returns the drag left for handle_move. */
    method StartDrag(ev: Event, veto: bool) returns (dx: real, dy: real, sigs: seq<Signal>)
      modifies this`track, this`idle
      ensures CheckDone(cfg, press, ev, veto, old(track.lastType) == 1 || old(track.firstDrag), KineticState(), old(track),
                        old(idle), grab.child, track, idle, dx, dy, sigs)
    {
      if track.lastType == 1 {
        track := track.(firstDrag := true);
      }
      dx, dy, sigs := ev.x - x, ev.y - y, [];
      if !track.moved {
        dx, dy, sigs := CheckMove(ev, dx, dy, veto);
      }
    }

    /** Once the drag is a pan it moves the area; until then the child's
        edge is tracked; then the event's time and type are recorded. */
    method FollowDrag(ev: Event, dx: real, dy: real, width: int, height: int) returns (sigs: seq<Signal>)
      requires Valid()
      requires cfg.mode == Accel ==> width > 0 && height > 0
      modifies this`h, this`v, this`x, this`y, this`ex, this`ey, this`motion, this`grab, this`track
      ensures Valid()
      ensures FollowDone(cfg, hasChild, press, ev, width, height, dx, dy, old(KineticState()), old(track), old(grab),
                         KineticState(), track, grab, sigs)
    {
      sigs := [];
      if track.moved {
        var rx, ry := HandleMove(ev, dx, dy, width, height);
      } else if grab.child.Some? {
        sigs := TrackCrossing(ev);
      }
      track := track.(lastTime := ev.time, lastType := 2);
    }

    /** hildon_pannable_leave_notify_event: a captured child the cursor
        was in gets a synthetic leave. */
    method LeaveNotify() returns (sigs: seq<Signal>)
      modifies this`grab
      ensures grab.child.Some? && old(grab.lastIn) ==>
                grab == old(grab).(lastIn := false) && sigs == [Crossing(grab.child.value, false)]
      ensures !(grab.child.Some? && old(grab.lastIn)) ==> grab == old(grab) && sigs == []
    {
      sigs := [];
      if grab.child.Some? && grab.lastIn {
        grab := grab.(lastIn := false);
        sigs := [Crossing(grab.child.value, false)];
      }
    }

    /** The press handler's guard: disabled, another button, the start of
        a selection drag or any repeat of the last press's time, no child. */
    predicate PressIgnored(ev: Event, t: Track)
    {
      || !cfg.enabled || ev.button != 1 || (ev.shift && ev.time == t.lastTime && t.lastType == 1)
      || (ev.time == t.lastTime && t.lastType == 1) || !hasChild
    }

    /**
     * hildon_pannable_area_button_press_cb on the child's window tree
     * `tree`. The press first records whether it starts a selection drag
     * (a shift-press repeating the last press's time). It is ignored when
     * the area is disabled, for another button, for any repeat of the
     * last press's time, and without a child. Otherwise it restarts the
     * fade at the current opacity, records the press, sends a leave to a
     * child still captured from a press without release, stops the area
     * (ending a running pan and dropping the snap targets), and captures
     * the window under the cursor unless the area was still moving fast,
     * sending it an enter and, for an event delivered to the area's own
     * window, the press in its coordinates.
     */
    method ButtonPress(ev: Event, tree: Win) returns (sigs: seq<Signal>)
      requires Valid()
      modifies this`track, this`fade, this`press, this`grab, this`h, this`v, this`x, this`y, this`idle
      ensures Valid()
      ensures var selection := ev.shift && ev.time == old(track.lastTime) && old(track.lastType) == 1;
              PressIgnored(ev, old(track)) ==>
                && sigs == [] && track == old(track).(selection := selection)
                && unchanged(this`fade, this`press, this`grab, this`h, this`v, this`x, this`y, this`idle)
      ensures var hit := PressHit(cfg, old(h.vel), old(v.vel), tree, ev.x, ev.y);
              !PressIgnored(ev, old(track)) ==>
                && track == old(track).(pressed := true, lastTime := ev.time, lastPressTime := ev.time,
                                        lastType := 1, selection := false)
                && fade == old(fade).(fadeIn := false, timer := true, interrupt := true)
                && press == Press(Trunc(ev.x), Trunc(ev.y), old(h.vel), old(v.vel))
                && h == old(h).(vel := 0.0, scrollTo := -1.0) && v == old(v).(vel := 0.0, scrollTo := -1.0)
                && x == ev.x && y == ev.y && !idle
                && grab == (if hit.Some? then
                              Grab(Some(hit.value.path), Target(tree, hit.value.path).width,
                                   Target(tree, hit.value.path).height,
                                   if ev.onEventWindow then hit.value.tx else old(grab.cx),
                                   if ev.onEventWindow then hit.value.ty else old(grab.cy), true)
                            else old(grab).(child := None))
                && sigs == (if old(track.pressed) && old(grab.child).Some? then [Crossing(old(grab.child).value, false)] else [])
                           + CaptureSignals(old(idle), hit, ev.onEventWindow)
    {
      sigs := [];
      if PressIgnored(ev, track) {
        track := track.(selection := ev.shift && ev.time == track.lastTime && track.lastType == 1);
        return;
      }
      var hit := PressHit(cfg, h.vel, v.vel, tree, ev.x, ev.y);
      sigs := (if track.pressed && grab.child.Some? then [Crossing(grab.child.value, false)] else [])
              + CaptureSignals(idle, hit, ev.onEventWindow);
      PressRecord(ev);
      PressStop(ev);
      PressCapture(tree, hit, ev.onEventWindow);
    }

    /** What a press records: the button is down, the press is the last
        event, the position and the speeds it caught, and the fade
        restarts at the current opacity, interrupted. */
    method PressRecord(ev: Event)
      modifies this`track, this`fade, this`press
      ensures track == old(track).(pressed := true, lastTime := ev.time, lastPressTime := ev.time,
                                   lastType := 1, selection := false)
      ensures fade == old(fade).(fadeIn := false, timer := true, interrupt := true)
      ensures press == Press(Trunc(ev.x), Trunc(ev.y), h.vel, v.vel)
    {
      fade := fade.(fadeIn := false, timer := true, interrupt := true);
      track := track.(pressed := true, lastTime := ev.time, lastPressTime := ev.time, lastType := 1, selection := false);
      press := Press(Trunc(ev.x), Trunc(ev.y), h.vel, v.vel);
    }

    /** A press stops the area: no speed, no snap target, no inertial
        timer, and the drag starts at the cursor. */
    method PressStop(ev: Event)
      requires Valid()
      modifies this`h, this`v, this`x, this`y, this`idle
      ensures Valid()
      ensures h == old(h).(vel := 0.0, scrollTo := -1.0) && v == old(v).(vel := 0.0, scrollTo := -1.0)
      ensures x == ev.x && y == ev.y && !idle
    {
      StopKeepsValid(cfg, PanState(), ev.x, ev.y, fade.alpha, anim);
      h, v, x, y, idle := h.(vel := 0.0, scrollTo := -1.0), v.(vel := 0.0, scrollTo := -1.0), ev.x, ev.y, false;
    }

    /** The capture part of a press: the window hit, if any, becomes the
        captured child, with its size, the cursor inside it and, for an
        event on the area's own window, the press position in its
        coordinates; without a hit nothing is captured. */
    method PressCapture(tree: Win, hit: Option<Hit>, onEventWindow: bool)
      modifies this`grab
      ensures grab == (if hit.Some? then
                         Grab(Some(hit.value.path), Target(tree, hit.value.path).width,
                              Target(tree, hit.value.path).height,
                              if onEventWindow then hit.value.tx else old(grab.cx),
                              if onEventWindow then hit.value.ty else old(grab.cy), true)
                       else old(grab).(child := None))
    {
      if hit.Some? {
        var w := Target(tree, hit.value.path);
        grab := Grab(Some(hit.value.path), w.width, w.height,
                     if onEventWindow then hit.value.tx else grab.cx,
                     if onEventWindow then hit.value.ty else grab.cy, true);
      } else {
        grab := grab.(child := None);
      }
    }

    /** The release handler's guard: a repeat of the last release's time,
        no child, no button down, disabled, another button. */
    predicate ReleaseIgnored(ev: Event, t: Track)
    {
      || (ev.time == t.lastTime && t.lastType == 3) || !hasChild || !t.pressed
      || !cfg.enabled || ev.button != 1
    }

    /**
     * hildon_pannable_area_button_release_cb on the child's window tree
     * `tree`, with the allocation (width, height) and the PANNING_STARTED
     * handlers' answer `veto`. Outside a selection drag, a release after
     * a motion finishes the drag as the motion handler would and stops an
     * axis whose cursor stood still; then the kinetic part throws the
     * area, and the fade restarts with its hold. In every case the
     * release is recorded, the drag ends and the captured child gets its
     * synthetic events.
     */
    method ButtonRelease(ev: Event, tree: Win, width: int, height: int, veto: bool)
      returns (sigs: seq<Signal>, ghost upTrack: Track, ghost upSigs: seq<Signal>)
      requires Valid()
      requires cfg.mode == Accel ==> width > 0 && height > 0
      modifies this`h, this`v, this`x, this`y, this`ex, this`ey, this`motion, this`track, this`idle, this`fade
      ensures Valid()
      ensures ReleaseIgnored(ev, old(track)) ==> sigs == [] && unchanged(this)
      ensures !ReleaseIgnored(ev, old(track)) && old(track.selection) ==>
                && track == old(track).(lastTime := ev.time, lastType := 3, moved := false)
                && unchanged(this`h, this`v, this`x, this`y, this`ex, this`ey, this`motion, this`idle, this`fade)
                && sigs == ChildSignals(grab.child, tree, ev, old(track.moved))
      ensures !ReleaseIgnored(ev, old(track)) && !old(track.selection) ==>
                && ReleaseUpDone(cfg, hasChild, press, ev, width, height, veto, old(KineticState()), old(track),
                                 old(idle), old(fade), grab.child, KineticState(), upTrack, idle, fade, upSigs)
                && track == upTrack.(lastTime := ev.time, lastType := 3, moved := false)
                && sigs == upSigs + ChildSignals(grab.child, tree, ev, upTrack.moved)
    {
      sigs, upTrack, upSigs := [], track, [];
      if ReleaseIgnored(ev, track) {
        return;
      }
      if !track.selection {
        sigs := ReleaseUp(ev, width, height, veto);
        upTrack, upSigs := track, sigs;
      }
      var childSigs := ReleaseChild(ev, tree);
      sigs := sigs + childSigs;
    }

    /** The release outside a selection drag: a release after a motion
        finishes the drag, then the kinetic part throws the area. */
    method ReleaseUp(ev: Event, width: int, height: int, veto: bool) returns (sigs: seq<Signal>)
      requires Valid()
      requires cfg.mode == Accel ==> width > 0 && height > 0
      modifies this`h, this`v, this`x, this`y, this`ex, this`ey, this`motion, this`track, this`idle, this`fade
      ensures Valid()
      ensures ReleaseUpDone(cfg, hasChild, press, ev, width, height, veto, old(KineticState()), old(track), old(idle),
                            old(fade), grab.child, KineticState(), track, idle, fade, sigs)
    {
      if track.lastType == 2 {
        sigs := ReleaseAfterMotion(ev, width, height, veto);
      } else {
        sigs := ReleaseKinetics(ev);
      }
    }

    /** A release right after a motion: the drag is finished, then the
        kinetic part throws the area from where the drag left it. */
    method ReleaseAfterMotion(ev: Event, width: int, height: int, veto: bool) returns (sigs: seq<Signal>)
      requires Valid()
      requires cfg.mode == Accel ==> width > 0 && height > 0
      modifies this`h, this`v, this`x, this`y, this`ex, this`ey, this`motion, this`track, this`idle, this`fade
      ensures Valid()
      ensures ThrowDone(cfg, hasChild, press, ev, width, height, veto, old(KineticState()), old(track), old(idle), old(fade),
                        KineticState(), track, idle, fade, grab.child, sigs)
    {
      ghost var s0, t0, i0, f0 := KineticState(), track, idle, fade;
      sigs := ReleaseDrag(ev, width, height, veto);
      ghost var s1, t1, i1 := KineticState(), track, idle;
      var throwSigs := ReleaseKinetics(ev);
      ThrowComposes(cfg, hasChild, press, ev, width, height, veto, s0, t0, i0, f0, grab.child, s1, t1, i1, sigs,
                    KineticState(), track, idle, fade, throwSigs);
      sigs := sigs + throwSigs;
    }

    /**
     * A release right after a motion: check_move runs on the drag since
     * the last event, and if the drag is a pan the rest of it is handled
     * by ReleaseMove; the kinetic state and whether the drag is a pan are
     * those of ReleaseDragStep.
     */
    method ReleaseDrag(ev: Event, width: int, height: int, veto: bool) returns (sigs: seq<Signal>)
      requires Valid()
      requires cfg.mode == Accel ==> width > 0 && height > 0
      modifies this`h, this`v, this`x, this`y, this`ex, this`ey, this`motion, this`track, this`idle
      ensures Valid()
      ensures ReleaseDragDone(cfg, hasChild, press, ev, width, height, veto, old(KineticState()), old(track), old(idle),
                              grab.child, KineticState(), track, idle, sigs)
    {
      ghost var s0, t0, i0 := KineticState(), track, idle;
      var dx, dy;
      dx, dy, sigs := ReleaseCheck(ev, veto);
      ReleaseFinish(ev, dx, dy, width, height, veto, s0, t0, i0, sigs);
    }

    /** The pan part of ReleaseDrag, once check_move has run on the
        kinetic state `s0`, the bookkeeping `t0` and the idle flag `i0`,
        handing on the drag (dx, dy) with the signals `cs`. */
    method ReleaseFinish(ev: Event, dx: real, dy: real, width: int, height: int, veto: bool,
                         ghost s0: Kinetic, ghost t0: Track, ghost i0: bool, ghost cs: seq<Signal>)
      requires Valid()
      requires cfg.mode == Accel ==> width > 0 && height > 0
      requires s0 == KineticState()
      requires CheckDone(cfg, press, ev, veto, t0.firstDrag, s0, t0, i0, grab.child, track, idle, dx, dy, cs)
      modifies this`h, this`v, this`x, this`y, this`ex, this`ey, this`motion
      ensures Valid()
      ensures ReleaseDragDone(cfg, hasChild, press, ev, width, height, veto, s0, t0, i0, grab.child,
                              KineticState(), track, idle, cs)
    {
      if track.moved {
        var rx, ry := ReleaseMove(ev, dx, dy, width, height);
        ReleaseDragPanned(cfg, hasChild, press, ev, width, height, veto, s0, t0, i0, grab.child,
                          track, idle, dx, dy, cs, KineticState());
      } else {
        ReleaseDragHeld(cfg, hasChild, press, ev, width, height, veto, s0, t0, i0, grab.child, track, idle, dx, dy, cs);
      }
    }

    /** check_move on the drag since the last event at a release, while
        the drag is not yet a pan. Returns the drag left for handle_move. */
    method ReleaseCheck(ev: Event, veto: bool) returns (dx: real, dy: real, sigs: seq<Signal>)
      modifies this`track, this`idle
      ensures CheckDone(cfg, press, ev, veto, old(track.firstDrag), KineticState(), old(track), old(idle), grab.child,
                        track, idle, dx, dy, sigs)
    {
      dx, dy, sigs := ev.x - x, ev.y - y, [];
      if !track.moved {
        dx, dy, sigs := CheckMove(ev, dx, dy, veto);
      }
    }

    /**
     * The pan part of a release after a motion: handle_move on the drag
     * (dx, dy), a pending coalesced motion applied at once and cleared,
     * and the cursor-stopped rule on the drag handle_move leaves (rx, ry)
     * and the time since the last event. Returns that drag.
     */
    method ReleaseMove(ev: Event, dx: real, dy: real, width: int, height: int) returns (rx: real, ry: real)
      requires Valid()
      requires cfg.mode == Accel ==> width > 0 && height > 0
      modifies this`h, this`v, this`x, this`y, this`ex, this`ey, this`motion
      ensures Valid()
      ensures rx == (if cfg.mode == Auto && !cfg.horiz then 0.0 else dx)
      ensures ry == (if cfg.mode == Auto && !cfg.vert then 0.0 else dy)
      ensures KineticState()
              == ReleaseMoveStep(cfg, hasChild, old(KineticState()), ev, track.lastTime, dx, dy, width, height, track.pressed)
    {
      var delta := TimeDiff(ev.time, track.lastTime);
      rx, ry := HandleMove(ev, dx, dy, width, height);
      FlushMotion();
      StopStill(rx, ry, delta);
    }

    /** A pending coalesced motion is applied at once and cleared, and the
        coalescing timer stops. */
    method FlushMotion()
      requires Valid()
      modifies this`h, this`v, this`x, this`y, this`motion
      ensures Valid()
      ensures KineticState() == Flush(cfg, hasChild, old(KineticState()), track.pressed)
    {
      if motion.timer {
        MotionEventScrollTimeout();
        motion := Motion(0.0, 0.0, false);
      }
    }

    /** An axis whose cursor stood still before the release, (rx, ry)
        being the drags and `delta` the time since the last event, stops. */
    method StopStill(rx: real, ry: real, delta: nat)
      requires Valid()
      modifies this`h, this`v
      ensures Valid()
      ensures h == old(h).(vel := if CursorStopped(rx, delta) then 0.0 else old(h.vel))
      ensures v == old(v).(vel := if CursorStopped(ry, delta) then 0.0 else old(v.vel))
    {
      var hv := if CursorStopped(rx, delta) then 0.0 else h.vel;
      var vv := if CursorStopped(ry, delta) then 0.0 else v.vel;
      VelKeepsValid(cfg, PanState(), fade.alpha, anim, hv, vv);
      h, v := h.(vel := hv), v.(vel := vv);
    }

    /**
     * The kinetic part of a release outside a selection drag: the throw
     * of ReleaseThrow; the button is up; an area that goes on moving shows
     * its indicators at full opacity and has the inertial timer scheduled;
     * the fade restarts, uninterrupted, with its hold.
     */
    method ReleaseKinetics(ev: Event) returns (sigs: seq<Signal>)
      requires Valid()
      modifies this`h, this`v, this`track, this`idle, this`fade
      ensures Valid()
      ensures KineticsDone(cfg, press, ev, old(KineticState()), old(track), old(idle), old(fade),
                           KineticState(), track, idle, fade, sigs)
    {
      var r := ReleaseThrow(cfg, h, v, press, TimeDiff(ev.time, track.lastPressTime));
      h, v := r.h, r.v;
      track := track.(pressed := false);
      sigs := ThrowSignals(r.go, track.moved);
      var alpha := fade.alpha;
      if r.go {
        alpha := 1.0;
        idle := true;
      }
      fade := fade.(interrupt := false, delayCounter := cfg.scrollbarFadeDelay);
      var scheduled := LaunchFadeTimeout(alpha);
    }

    /** The end of every release: it is recorded, the drag ends, and the
        captured child gets its synthetic events. */
    method ReleaseChild(ev: Event, tree: Win) returns (sigs: seq<Signal>)
      modifies this`track
      ensures track == old(track).(lastTime := ev.time, lastType := 3, moved := false)
      ensures sigs == ChildSignals(grab.child, tree, ev, old(track.moved))
    {
      sigs := ChildSignals(grab.child, tree, ev, track.moved);
      track := track.(lastTime := ev.time, lastType := 3, moved := false);
    }

    /**
     * hildon_pannable_area_scroll_cb for a wheel event in direction `dir`,
     * `step` being the wheel delta pow(page_size, 2/3). A disabled area
     * or one without a child ignores it. Otherwise the indicators show at
     * full opacity with a longer hold; a running inertial scroll stops
     * (speeds, bounces and, when either is positive, overshoots cleared)
     * and reports its end; the vertical adjustment takes up and down, the
     * horizontal one anything else, moved by the step and clamped.
     */
    method ScrollEvent(dir: ScrollDirection, step: real) returns (sigs: seq<Signal>)
      requires Valid()
      modifies this`h, this`v, this`idle, this`fade
      ensures Valid()
      ensures !cfg.enabled || !hasChild ==> sigs == [] && unchanged(this)
      ensures cfg.enabled && hasChild ==>
                var positive := old(h.overshotDist) > 0 || old(v.overshotDist) > 0;
                var h1 := if old(idle) then WheelStop(old(h), positive) else old(h);
                var v1 := if old(idle) then WheelStop(old(v), positive) else old(v);
                && fade == old(fade).(alpha := 1.0, fadeIn := false, timer := true, interrupt := false,
                                      delayCounter := cfg.scrollbarFadeDelay + 20)
                && !idle && sigs == (if old(idle) then [PanningFinished] else [])
                && (dir == ScrollUp || dir == ScrollDown ==>
                      h == h1 && v == v1.(adj := v1.adj.(value := WheelTarget(v1.adj, WheelDelta(dir, step)))))
                && (!(dir == ScrollUp || dir == ScrollDown) ==>
                      v == v1 && h == h1.(adj := h1.adj.(value := WheelTarget(h1.adj, WheelDelta(dir, step)))))
    {
      sigs := [];
      if !cfg.enabled || !hasChild {
        return;
      }
      fade := fade.(interrupt := false, delayCounter := cfg.scrollbarFadeDelay + 20);
      var scheduled := LaunchFadeTimeout(1.0);
      if idle {
        WheelHalt();
        sigs := [PanningFinished];
      }
      WheelScroll(dir, step);
    }

    /** The wheel stops a running inertial scroll and its timer. */
    method WheelHalt()
      requires Valid()
      modifies this`h, this`v, this`idle
      ensures Valid()
      ensures var positive := old(h.overshotDist) > 0 || old(v.overshotDist) > 0;
              h == WheelStop(old(h), positive) && v == WheelStop(old(v), positive) && !idle
    {
      var positive := h.overshotDist > 0 || v.overshotDist > 0;
      h, v, idle := WheelStop(h, positive), WheelStop(v, positive), false;
    }

    /** The wheel step itself: up and down move the vertical adjustment,
        anything else the horizontal one, by the step and clamped. */
    method WheelScroll(dir: ScrollDirection, step: real)
      requires Valid()
      modifies this`h, this`v
      ensures Valid()
      ensures dir == ScrollUp || dir == ScrollDown ==>
                h == old(h) && v == old(v).(adj := old(v.adj).(value := WheelTarget(old(v.adj), WheelDelta(dir, step))))
      ensures !(dir == ScrollUp || dir == ScrollDown) ==>
                v == old(v) && h == old(h).(adj := old(h.adj).(value := WheelTarget(old(h.adj), WheelDelta(dir, step))))
    {
      var delta := WheelDelta(dir, step);
      if dir == ScrollUp || dir == ScrollDown {
        ValueKeepsValid(cfg, PanState(), fade.alpha, anim, h.adj.value, WheelTarget(v.adj, delta));
        v := v.(adj := v.adj.(value := WheelTarget(v.adj, delta)));
      } else {
        ValueKeepsValid(cfg, PanState(), fade.alpha, anim, WheelTarget(h.adj, delta), v.adj.value);
        h := h.(adj := h.adj.(value := WheelTarget(h.adj, delta)));
      }
    }

    /**
     * hildon_pannable_area_on_frame_clock_update for the frame at `now`
     * (the callback runs only while connected): before the end time each
     * adjustment takes the eased share of the way from its source to its
     * target; from the end time on it takes the target itself and
     * updating stops.
     */
    method FrameUpdate(now: int)
      requires Valid() && anim.ticking
      modifies this`h, this`v, this`anim
      ensures Valid()
      ensures var a := old(anim);
              now < a.endTime ==>
                var t := FrameShare(now, a.startTime, a.endTime);
                && anim == a
                && h == old(h).(adj := old(h.adj).(value := FrameValue(old(h.adj), a.hsource, a.htarget, t)))
                && v == old(v).(adj := old(v.adj).(value := FrameValue(old(v.adj), a.vsource, a.vtarget, t)))
      ensures var a := old(anim);
              a.startTime <= now < a.endTime ==>
                && Min(a.hsource, a.htarget) <= h.adj.value <= Max(a.hsource, a.htarget)
                && Min(a.vsource, a.vtarget) <= v.adj.value <= Max(a.vsource, a.vtarget)
      ensures var a := old(anim);
              now >= a.endTime ==>
                && anim == a.(ticking := false)
                && h == old(h).(adj := old(h.adj).(value := a.htarget))
                && v == old(v).(adj := old(v.adj).(value := a.vtarget))
    {
      if now < anim.endTime {
        var t := FrameShare(now, anim.startTime, anim.endTime);
        var hv := FrameValue(h.adj, anim.hsource, anim.htarget, t);
        var vv := FrameValue(v.adj, anim.vsource, anim.vtarget, t);
        ValueKeepsValid(cfg, PanState(), fade.alpha, anim, hv, vv);
        h, v := h.(adj := h.adj.(value := hv)), v.(adj := v.adj.(value := vv));
      } else {
        ValueKeepsValid(cfg, PanState(), fade.alpha, anim, anim.htarget, anim.vtarget);
        h, v := h.(adj := h.adj.(value := anim.htarget)), v.(adj := v.adj.(value := anim.vtarget));
        anim := anim.(ticking := false);
      }
    }

    /**
     * hildon_pannable_area_set_value_internal for the requests (hreq,
     * vreq); `hasClock` says whether the widget has a frame clock and
     * `frameTime` is the clock's frame time.
     */
    method SetValueInternal(hreq: real, vreq: real, animate: bool, hasClock: bool, frameTime: int)
      requires Valid()
      modifies this`h, this`v, this`anim
      ensures Valid()
      ensures var r := Reposition(old(h.adj), old(v.adj), old(anim), hreq, vreq, animate, hasClock, frameTime);
              h == old(h).(adj := r.0) && v == old(v).(adj := r.1) && anim == r.2
    {
      var hv := SetValueTarget(hreq, h.adj);
      var vv := SetValueTarget(vreq, v.adj);
      if animate && hasClock {
        if anim.ticking && anim.htarget == hv && anim.vtarget == vv {
          return;
        }
        anim := Animation(h.adj.value, hv, v.adj.value, vv, frameTime, frameTime + 1000 * Duration, true);
      } else {
        anim := anim.(ticking := false);
        h, v := h.(adj := AdjustmentSet(h.adj, hv)), v.(adj := AdjustmentSet(v.adj, vv));
      }
    }

    /**
     * hildon_pannable_area_scroll_to for the point (px, py). A widget that
     * is not realized fails the precondition check and nothing happens; so
     * with no scrollable axis, or when both coordinates are -1. Otherwise
     * each coordinate is centred in its page and clamped (CenterTarget, -1
     * included) and set_value_internal animates to the pair.
     */
    method ScrollTo(px: int, py: int, realized: bool, hasClock: bool, frameTime: int)
      requires Valid()
      modifies this`h, this`v, this`anim
      ensures Valid()
      ensures !realized || (!Scrollable(old(v.adj)) && !Scrollable(old(h.adj))) || (px == -1 && py == -1) ==>
                unchanged(this`h, this`v, this`anim)
      ensures realized && (Scrollable(old(v.adj)) || Scrollable(old(h.adj))) && !(px == -1 && py == -1) ==>
                var r := Reposition(old(h.adj), old(v.adj), old(anim),
                                    CenterTarget(px, old(h.adj)), CenterTarget(py, old(v.adj)),
                                    true, hasClock, frameTime);
                h == old(h).(adj := r.0) && v == old(v).(adj := r.1) && anim == r.2
    {
      if !realized {
        return;
      }
      if (!Scrollable(v.adj) && !Scrollable(h.adj)) || (px == -1 && py == -1) {
        return;
      }
      SetValueInternal(CenterTarget(px, h.adj), CenterTarget(py, v.adj), true, hasClock, frameTime);
    }

    /** hildon_pannable_area_jump_to: as ScrollTo, but set_value_internal
        sets the pair at once. */
    method JumpTo(px: int, py: int, realized: bool, hasClock: bool, frameTime: int)
      requires Valid()
      modifies this`h, this`v, this`anim
      ensures Valid()
      ensures !realized || (!Scrollable(old(v.adj)) && !Scrollable(old(h.adj))) || (px == -1 && py == -1) ==>
                unchanged(this`h, this`v, this`anim)
      ensures realized && (Scrollable(old(v.adj)) || Scrollable(old(h.adj))) && !(px == -1 && py == -1) ==>
                var r := Reposition(old(h.adj), old(v.adj), old(anim),
                                    CenterTarget(px, old(h.adj)), CenterTarget(py, old(v.adj)),
                                    false, hasClock, frameTime);
                h == old(h).(adj := r.0) && v == old(v).(adj := r.1) && anim == r.2
    {
      if !realized {
        return;
      }
      if (!Scrollable(v.adj) && !Scrollable(h.adj)) || (px == -1 && py == -1) {
        return;
      }
      SetValueInternal(CenterTarget(px, h.adj), CenterTarget(py, v.adj), false, hasClock, frameTime);
    }
  }
}
