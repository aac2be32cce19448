# Hildon widgets: a verified model

This project models, in Dafny, the behavioural core of the Hildon widget
library:

- **The kinetic pannable area** (`hildon/hildon-pannable-area.c`). This is the
  main part of the model.
  - The per-axis scroll step handles overshoot, bounce and rubber-banding
    (`axis_scroll`).
  - The two-axis driver and the inertial timer handle deceleration and the
    decision to stop.
  - The motion coalescing timer, the scroll-indicator fade and the
    indicator geometry are modelled.
  - The child window hit test (`get_topmost`) is modelled.
  - The press, motion, leave, release and wheel handlers are modelled, each
    with the signals and synthetic child events it emits, in order.
  - The animated and immediate repositioning (`scroll_to`, `jump_to`,
    `set_value_internal` and the frame-clock callback) is modelled.
  - The velocity-factor loop is modelled.
  - `HildonPannableAreaPrivate` is the class `PanArea.PannableArea`. Its
    fields are grouped into records by the part of the widget they belong
    to. Each handler is a method whose `ensures` gives the new state in
    terms of pure functions, and those functions carry their own
    properties.
- **The window chrome of `HildonWindow`** (`hildon-widgets/hildon-window.c`):
  - size request and size allocation around the toolbar box;
  - fullscreen tracking;
  - the topmost flag;
  - the menu toggle and the two menu position functions;
  - the displayed title.
- **The entry variant of the touch selector**
  (`src/hildon-touch-selector-entry.c`): prefix search of the model while
  typing, the text column, the model, and the multiple-selection answer.
- **`hildon_gtk_widget_set_theme_size`** (`hildon/hildon-gtk.c`): how size
  flags become a size request, horizontal expansion and a theme name.

`gdouble` is modelled as `real`. `gint` is modelled as `int`. `guint32`
event times are the subset type `PanArea.Time`, and their subtraction wraps
modulo 2^32 (`PanArea.TimeDiff`). The C `(gint)` conversion rounds toward
zero (`PanPhysics.Trunc`).

Modules:

| module | file | models |
|---|---|---|
| `Optional` | option.dfy | The Option type, used for NULL references and for searches that fail. |
| `PanPhysics` | pan_physics.dfy | Pure helpers of the pannable area: adjustments, the axis step, velocity, easing, targets, the velocity factor and geometry. |
| `PanWindows` | pan_windows.dfy | `get_topmost`, both as a function and as a method, with its soundness and "last child wins" lemmas. |
| `PanArea` | pan_area.dfy | The pannable area's state, as class `PannableArea`, and the functions specifying its handlers. |
| `WindowChrome` | window_chrome.dfy | `HildonWindow`. |
| `SelectorEntry` | selector_entry.dfy | `HildonTouchSelectorEntry`. |
| `ThemeSize` | theme_size.dfy | `hildon_gtk_widget_set_theme_size`. |

## Model

| member | source | states |
|---|---|---|
| PanPhysics.Clamp | hildon/hildon-pannable-area.c:1452 | CLAMP gives a value in [lo, hi] when lo <= hi. It leaves a value already in range unchanged, and otherwise returns one of the bounds. |
| PanPhysics.TruncBounds | hildon/hildon-pannable-area.c:1274-1275 | Storing a gdouble coordinate in a gint field truncates toward zero. The result is within one unit of the value, on the same side of zero. |
| PanPhysics.Trunc | hildon/hildon-pannable-area.c:1274-1275 | The C conversion of a gdouble to a gint truncates toward zero. |
| PanPhysics.Ceil | hildon/hildon-pannable-area.c:2415 | ceil gives the least integer not below its argument. |
| PanPhysics.BounceVelocity | hildon/hildon-pannable-area.c:1496-1522 | The velocity rule of the bounce, with the finger up. Only the velocity and the bounce counter change. While bounce steps remain, an axis moving outward is slowed but keeps its direction, and the counter grows. Once the bounce steps are used up, it reverses at the same speed. An axis coming back after more than one bounce step moves inward at a speed of at least 10. A still axis, or one coming back on the first step, is unchanged. |
| PanPhysics.Bounce | hildon/hildon-pannable-area.c:1487-1532 | One bounce step. The overshoot stays within [-max, max] and keeps its side. A zero overshoot ends the bounce, with zero speed. When the step stays inside the overshoot range, it moves the overshoot by the new velocity. The adjustment and the snap target are untouched. |
| PanPhysics.RubberBand | hildon/hildon-pannable-area.c:1533-1552 | One step with the finger down while overshot. The overshoot follows the drag, clamped to its side of zero within the maximum. At zero overshoot, the overshoot ends and the adjustment takes the clamped drag. The velocity is untouched. |
| PanPhysics.AxisStep | hildon/hildon-pannable-area.c:1419-1554 | axis_scroll. Out of overshoot, a step past the lower or upper bound stops at that bound and clears the snap target. It then starts an overshoot, with the distance clamped and the speed capped at vmax_overshooting, or with overshoot_max 0 it stops. An in-range step takes the new value. When the step reaches a snap target in its direction, it lands on the target and stops. Only an out-of-range step reports failure. In overshoot, the step is the bounce or the rubber band. The step keeps the axis invariant: the value in range, the overshoot within its maximum, the snap target -1 or in range. |
| PanPhysics.Saturate | hildon/hildon-pannable-area.c:1696-1697 | MIN/MAX against ±vmax keeps the velocity within [-vmax, vmax], and leaves a velocity already within it unchanged. |
| PanPhysics.CalculateVelocity | hildon/hildon-pannable-area.c:1681-1699 | calculate_velocity. A drag below RATIO_TOLERANCE leaves the velocity unchanged. Otherwise the velocity is the inertia-weighted blend of the old velocity and the drag speed times the force, saturated at ±vmax. A zero time difference gives ±vmax. |
| PanPhysics.EaseOutCubic | hildon/hildon-pannable-area.c:2522-2528 | The easing maps 0 to 0 and 1 to 1. |
| PanPhysics.EaseOutCubicInUnit | hildon/hildon-pannable-area.c:2522-2528 | On [0, 1] the easing stays in [0, 1]. |
| PanPhysics.EaseOutCubicMonotone | hildon/hildon-pannable-area.c:2522-2528 | The easing is monotone on [0, 1], so an animation never moves backwards. |
| PanPhysics.InterpolationBetween | hildon/hildon-pannable-area.c:2551-2552 | For a share in [0, 1], the interpolated point lies between source and target. |
| PanPhysics.SetValueTarget | hildon/hildon-pannable-area.c:2576-2595 | A request of -1 keeps the adjustment's current value. Any other request is clipped below by lower, after MIN with upper - page_size, so it lies in range even when the page exceeds the range. A request already in range is kept. |
| PanPhysics.CenterTarget | hildon/hildon-pannable-area.c:2688-2693 | scroll_to and jump_to centre the point in the page, clamped between lower and upper - page_size. The result is in range, and set_value_internal keeps it as it is. |
| PanPhysics.SentinelMovesAxis | hildon/hildon-pannable-area.c:2684-2695 | A concrete axis shows the -1 "ignore this axis" coordinate. It is centred and clamped like any other coordinate before it reaches set_value_internal, so that axis moves to 0 instead of staying where it was. |
| PanPhysics.WheelDelta | hildon/hildon-pannable-area.c:2278-2282 | The wheel delta has the step's size. It is negative exactly for up and left. |
| PanPhysics.AdjustmentSet | hildon/hildon-pannable-area.c:2286 | gtk_adjustment_set_value leaves the adjustment in bounds, with unchanged limits. An in-range value is taken as it is, and one below lower becomes lower. |
| PanPhysics.WheelClamp | hildon/hildon-pannable-area.c:2284 | The wheel's CLAMP is in range whenever the page fits the range. |
| PanPhysics.WheelClampLeavesRange | hildon/hildon-pannable-area.c:2284 | When the page is larger than the range, the CLAMP can fall below lower. |
| PanPhysics.WheelTarget | hildon/hildon-pannable-area.c:2284-2286 | The value the wheel actually sets is always in range. It is the old value plus the delta when that is in range, and otherwise it is what set_value_internal's clipping would give. |
| PanPhysics.GeomSumClosedForm | hildon/hildon-pannable-area.c:2412-2422 | The velocity factor's sum of k powers of decel times (1 - decel) equals 1 - decel^k. |
| PanPhysics.CalculateVelFactor | hildon/hildon-pannable-area.c:2407-2423 | The loop sums the first k powers of decel. k stops at ceil(sps * scroll_time), at least 1, or at the first power below RATIO_TOLERANCE. Every earlier power is at least RATIO_TOLERANCE. |
| PanPhysics.DecayBernoulli | hildon/hildon-pannable-area.c:1654-1659 | After n multiplications by decel in (0, 1), the speed times 1 + n(1 - decel) is at most the initial speed. |
| PanPhysics.DecayStops | hildon/hildon-pannable-area.c:1661-1669 | Repeated deceleration gets below the stopping speed 1.0 within an explicit number of ticks. |
| PanPhysics.ChildRoom | hildon/hildon-pannable-area.c:609-612 | The child's room on one axis is the allocation less twice the border and any visible indicator, and never negative. |
| PanPhysics.ChildAllocate | hildon/hildon-pannable-area.c:596-630 | The child's room is the allocation less the borders and any visible indicator, never negative. A positive overshoot shifts the child by the overshoot, up to the room, and shrinks it. A negative overshoot only shrinks it. |
| PanPhysics.IndicatorVisible | hildon/hildon-pannable-area.c:1345-1371 | Without a child no indicator shows. ALWAYS shows one and NEVER hides it. AUTOMATIC and EXTERNAL show it exactly when the axis can scroll. |
| PanPhysics.IndicatorRectsAsWritten | hildon/hildon-pannable-area.c:1340-1389 | As written, the geometry step dereferences a NULL allocation, so it yields no result exactly when an indicator is visible. |
| PanPhysics.IndicatorRectsFaultAsWritten | hildon/hildon-pannable-area.c:1340-1375 | With a child and policy ALWAYS, the as-written step faults on every input. |
| PanPhysics.IndicatorRects | hildon/hildon-pannable-area.c:1373-1389 | A visible vertical indicator is a column of indicator_width at the right edge, from the top. A visible horizontal indicator is a row at the bottom. When both show, they meet at the corner without overlap. A hidden indicator keeps its old rectangle. |
| PanWindows.Descend | hildon/hildon-pannable-area.c:1180-1189 | A hit through a child with children goes through that child. |
| PanWindows.Topmost | hildon/hildon-pannable-area.c:1139-1203 | The search as a function. A point outside the window finds nothing, a window without children is its own hit, and otherwise the children are scanned. |
| PanWindows.Visit | hildon/hildon-pannable-area.c:1169-1200 | One child of the loop. A visible child covering the point is searched when it has children, and is itself the hit when nothing inside it is found. A visible covering leaf is taken when it listens to the mask. Otherwise the selection is kept. |
| PanWindows.Scan | hildon/hildon-pannable-area.c:1169-1200 | The children loop, in stacking order, with the selection carried from child to child. |
| PanWindows.GetTopmost | hildon/hildon-pannable-area.c:1139-1203 | The recursive search with its loop over the children computes Topmost. |
| PanWindows.TopmostSound | hildon/hildon-pannable-area.c:1156-1198 | Every window found is reached from the searched window through visible windows that contain the point. The returned coordinates are the point in the found window. A leaf below the root that is found listens to the mask. |
| PanWindows.ScanSound | hildon/hildon-pannable-area.c:1169-1200 | The children loop keeps a sound selection. |
| PanWindows.VisitSound | hildon/hildon-pannable-area.c:1170-1199 | One iteration of the loop keeps a sound selection. |
| PanWindows.DescendSound | hildon/hildon-pannable-area.c:1180-1189 | Descending into a covering visible child keeps the selection sound. |
| PanWindows.Extend | hildon/hildon-pannable-area.c:1177-1182 | A path located inside a covering visible child extends to a path located from the parent. |
| PanWindows.TopmostNone | hildon/hildon-pannable-area.c:1159-1202 | Inside a window with children, nothing is found exactly when no child is visible, covers the point, and either has children or listens to the mask. |
| PanWindows.ScanNone | hildon/hildon-pannable-area.c:1169-1200 | The loop ends with no selection exactly when it started with none and no remaining child qualifies. |
| PanWindows.TopmostLast | hildon/hildon-pannable-area.c:1169-1200 | The last qualifying child in stacking order wins. |
| PanWindows.ScanLast | hildon/hildon-pannable-area.c:1169-1200 | The loop's selection is the last qualifying child seen so far. |
| PanArea.TimeDiff | hildon/hildon-pannable-area.c:2073 | Subtracting guint32 event times gives the difference, wrapped into [0, 2^32). |
| PanArea.Drive | hildon/hildon-pannable-area.c:1579-1595 | A scrollable axis takes the axis_scroll step. Any other axis stops, drops its snap target and reports success. Only the value of the adjustment changes, and the axis invariant is kept. |
| PanArea.FreeDecel | hildon/hildon-pannable-area.c:1651-1659 | In normal friction the speed is multiplied by decel. In low-friction mode a disabled axis keeps its speed. |
| PanArea.TargetDecel | hildon/hildon-pannable-area.c:1640-1649 | On the way to a snap target, a speed below 1.5 is kept and any other is decelerated. |
| PanArea.FreeDecelNIsDecay | hildon/hildon-pannable-area.c:1650-1659 | n free ticks in normal friction multiply the speed by decel n times. |
| PanArea.FreeDecelStops | hildon/hildon-pannable-area.c:1650-1669 | With decel in (0, 1), the inertial timer's free deceleration reaches the stopping speed within a bounded number of ticks. |
| PanArea.AccelVelocity | hildon/hildon-pannable-area.c:1869-1880 | In ACCEL mode, a drag within the allocation gives a speed between vmin and vmax, signed by the drag direction. |
| PanArea.AutoVelocity | hildon/hildon-pannable-area.c:1884-1914 | In AUTO mode an enabled axis takes the filtered velocity, bounded by vmax, and is left as it is for a negligible drag. A disabled axis stops. |
| PanArea.AreaScroll | hildon/hildon-pannable-area.c:1556-1616 | Without a child nothing changes. Otherwise each axis takes its Drive step, vertical first. A scrollable axis takes the axis_scroll step, and any other axis stops. In ACCEL mode an axis that ran into a bound restarts the drag at the last cursor position. Only the adjustments' values move, and the invariant of both axes holds. |
| PanArea.Coalesce | hildon/hildon-pannable-area.c:1714-1738 | With the coalescing timer on, the motion is only added to the pending motion. With it off, the area scrolls at once, the pending motion is cleared and the timer starts. |
| PanArea.MoveStep | hildon/hildon-pannable-area.c:1851-1927 | handle_move as a function. PUSH: the drag goes through Coalesce and the origin moves to the cursor. ACCEL: nothing scrolls, each speed becomes AccelVelocity of its drag over the allocation, between vmin and vmax for a drag within the allocation, and the cursor is recorded. AUTO: each enabled axis takes AutoVelocity and its drag goes through Coalesce. A disabled axis's drag becomes 0 and its origin stays. The axis invariant holds. |
| PanArea.Flush | hildon/hildon-pannable-area.c:2078-2083 | The release's flush. A pending motion is scrolled at once by AreaScroll, or nothing moves when it is zero. The timer and the pending motion are cleared. Without the timer nothing changes. The invariant holds. |
| PanArea.ReleaseMoveStep | hildon/hildon-pannable-area.c:2072-2090 | MoveStep on the drag, then Flush. Each axis whose drag, as MoveStep leaves it, is CursorStopped after the time since the last event stops. Everything else is as Flush leaves it, and no coalescing timer remains. |
| PanArea.Burst | hildon/hildon-pannable-area.c:1714-1738 | Any sequence of motion steps keeps the invariant of both axes. |
| PanArea.BurstPending | hildon/hildon-pannable-area.c:1720-1723 | While the timer runs, a burst scrolls nothing and leaves its whole sum pending. |
| PanArea.BurstFirstImmediate | hildon/hildon-pannable-area.c:1725-1737 | A burst that starts with the timer off scrolls its first step at once and leaves the sum of the rest pending, so no motion is lost. |
| PanArea.BurstThenFlush | hildon/hildon-pannable-area.c:2078-2083 | After a burst of motions that started with the timer off, the flush at the release scrolls by the sum of every motion the timer held back, so no drag is lost. |
| PanArea.MovementSignal | hildon/hildon-pannable-area.c:1760-1794 | check_move emits VERTICAL_MOVEMENT exactly when the vertical travel is at least the horizontal one, and HORIZONTAL_MOVEMENT otherwise. The direction follows the drag: Up when the cursor went up, Left when it went left. The press position is carried along. |
| PanArea.DragStarts | hildon/hildon-pannable-area.c:1749-1751 | check_move fires exactly on the first drag of a press that is not yet a pan, once the drag passes the panning threshold on either axis. |
| PanArea.PanTest | hildon/hildon-pannable-area.c:1760-1811 | The axis test for the drag from the press to the event is PansAlong, vertical when the vertical travel is at least the horizontal one. With neither axis scrollable and enabled, no drag is a pan. |
| PanArea.CheckSignals | hildon/hildon-pannable-area.c:1760-1830 | When check_move fires it emits MovementSignal first. For a pan it then sends the captured child, if any, a leave, and emits PANNING_STARTED last. PANNING_STARTED is emitted exactly for a pan. |
| PanArea.PanAfterCheck | hildon/hildon-pannable-area.c:1749-1830 | After check_move the drag is a pan exactly when it already was one, or check_move fired, PanTest passed and PANNING_STARTED was not vetoed. |
| PanArea.HandedDrag | hildon/hildon-pannable-area.c:1752-1754 | handle_move sees the whole drag only for a drag that was already a pan. check_move zeroes the drag it turns into a pan. |
| PanArea.PansAlong | hildon/hildon-pannable-area.c:1770-1811 | A drag along a scrollable, enabled axis is a pan. With neither axis on, no drag is. A drag along the other axis is a pan exactly when the cross axis is on and the drag lies within the direction error margin. |
| PanArea.InChild | hildon/hildon-pannable-area.c:1969-1975 | The cursor, carried into the child's coordinates and truncated to gint, lies inside the child, edges included. |
| PanArea.CursorStopped | hildon/hildon-pannable-area.c:2085-2089 | An axis counts as stopped when its drag is under 4 pixels and at least CURSOR_STOPPED_TIMEOUT ms passed since the last event. |
| PanArea.FastClick | hildon/hildon-pannable-area.c:2107-2111 | A fast click is a release within FAST_CLICK ms of the press, where the press caught a speed above vmin and above MIN_ACCEL_THRESHOLD on some axis. |
| PanArea.FastClickBoost | hildon/hildon-pannable-area.c:2113-2129 | An axis the new flick did not move stays still. Otherwise its speed is the caught speed plus the accelerated one, in the caught direction when the flick goes the same way and against it otherwise. |
| PanArea.SpeedCap | hildon/hildon-pannable-area.c:2148-2156 | An axis faster than MAX_SPEED_THRESHOLD runs at the accelerated velocity, in its own direction, when that is also above the threshold. Otherwise it is unchanged. |
| PanArea.ChildReleaseSignals | hildon/hildon-pannable-area.c:2189-2221 | The captured child always gets one leave and one release. The release lands at the hit point, before the leave, exactly when the release hits the pressed window and no pan happened. Otherwise the release comes after the leave, at (-16384, -16384). |
| PanArea.ChildSignals | hildon/hildon-pannable-area.c:2184-2221 | Without a captured child a release sends nothing. Otherwise the child gets ChildReleaseSignals for the topmost window under the release that takes release events. |
| PanArea.PressHit | hildon/hildon-pannable-area.c:1278-1286 | A press hits nothing while the area moves faster than vfast_factor times vmax on either axis. Otherwise it hits the topmost window under the cursor that takes button presses. |
| PanArea.CaptureSignals | hildon/hildon-pannable-area.c:1295-1328 | A press emits PANNING_FINISHED exactly when a pan was running. A press that captures a window sends that window an enter. A press re-sent to the captured window ends in that window's coordinates, and only for an event delivered to the area's own window. |
| PanArea.OvershootRelease | hildon/hildon-pannable-area.c:2093-2102 | Releasing an overshot axis cuts the bounce short and throws the axis back at 0.9 of the overshoot, towards the overshoot's side. An axis that is not overshot is unchanged. |
| PanArea.WheelStop | hildon/hildon-pannable-area.c:2249-2260 | The wheel stops both speeds and bounces. It clears the overshoots exactly when either is positive. |
| PanArea.FrameShare | hildon/hildon-pannable-area.c:2545-2550 | Before the end time, the eased share of an animation frame is in [0, 1]. It is 0 at the start. |
| PanArea.FrameFraction | hildon/hildon-pannable-area.c:2549 | Before the end time, the raw share of an animation frame is in [0, 1]. |
| PanArea.FrameValue | hildon/hildon-pannable-area.c:2551-2552 | A frame value is in range. Between in-range points it is the interpolated point, between source and target. |
| PanArea.StopKeepsValid | hildon/hildon-pannable-area.c:1264-1294 | Proof helper. Stopping both axes, dropping their snap targets and moving the drag origin keeps the area's invariant. |
| PanArea.ValueKeepsValid | hildon/hildon-pannable-area.c:2551-2557 | Proof helper. Moving both adjustments to in-range values keeps the area's invariant. |
| PanArea.VelKeepsValid | hildon/hildon-pannable-area.c:2118-2155 | Proof helper for the methods that set speeds. The invariant does not constrain speeds. |
| PanArea.ReleaseThrow | hildon/hildon-pannable-area.c:2093-2156 | The kinetic part of a release: overshot axes are thrown back, with the bounce counter at bounce_steps. After a fast click, each moving axis runs at the caught speed plus the accelerated velocity. Otherwise it keeps its speed while stopping, or takes the MAX_SPEED substitution while moving. The area goes on moving exactly when either speed reaches vmin. Adjustments, overshoots and snap targets are untouched. |
| PanArea.ThrowSignals | hildon/hildon-pannable-area.c:2134-2170 | A release emits at most one signal: PANNING_STARTED when the area goes on moving after no pan, and PANNING_FINISHED when it stops after a pan. |
| PanArea.MotionForward | hildon/hildon-pannable-area.c:1990-2000 | The motion is forwarded to the captured child, in the child's coordinates, exactly when there is a captured child and the event reached the area's own event window. |
| PanArea.MotionDragDone | hildon/hildon-pannable-area.c:1952-1988 | The drag bookkeeping of a motion. The motion right after a press starts the first drag. check_move runs on the drag since the last event unless the drag is already a pan. When it fires, the first drag ends, CheckSignals is emitted, and in ACCEL mode the inertial timer is scheduled. The drag is a pan as PanAfterCheck says. A pan moves the kinetic state by MoveStep of the HandedDrag. Otherwise nothing moves, last_in follows InChild, and a crossing follows exactly when it changed. The time and type 2 are recorded. |
| PanArea.CheckDone | hildon/hildon-pannable-area.c:1740-1849 | check_move on the bookkeeping. The drag is a pan as PanAfterCheck says, the first drag ends when check_move fires, and the drag handed on is zero then. In ACCEL mode the inertial timer is scheduled, and CheckSignals is emitted. |
| PanArea.FollowDone | hildon/hildon-pannable-area.c:1965-1987 | After the check, a pan moves by MoveStep and leaves the capture alone. Otherwise nothing moves, last_in follows InChild, and a crossing follows exactly when it changed. The time and type 2 are recorded. |
| PanArea.MotionDragComposes | hildon/hildon-pannable-area.c:1952-1988 | CheckDone followed by FollowDone makes up MotionDragDone, with the signals in order. |
| PanArea.ReleaseDragStep | hildon/hildon-pannable-area.c:2065-2091 | A release right after a motion. The drag is a pan exactly when PanAfterCheck holds, and a pan ends in ReleaseMoveStep on the HandedDrag with no coalescing timer left. A drag that is not a pan moves nothing. |
| PanArea.ReleaseDragDone | hildon/hildon-pannable-area.c:2065-2091 | The drag step of a release. The kinetic state and whether the drag is a pan come from ReleaseDragStep. The first drag ends when check_move fires, and in ACCEL mode that schedules the inertial timer. CheckSignals is emitted when it fires. |
| PanArea.ReleaseDragPans | hildon/hildon-pannable-area.c:2069-2090 | A release on a drag that is a pan after check_move ends in ReleaseMoveStep on the drag check_move hands on. |
| PanArea.ReleaseDragPanned | hildon/hildon-pannable-area.c:2065-2090 | check_move making the drag a pan, followed by ReleaseMoveStep on the drag it hands on, makes up ReleaseDragDone. |
| PanArea.ReleaseDragHeld | hildon/hildon-pannable-area.c:2065-2071 | check_move leaving the drag short of a pan makes up ReleaseDragDone with the kinetic state unchanged. |
| PanArea.KineticsDone | hildon/hildon-pannable-area.c:2093-2179 | The kinetic part of a release. The axes take ReleaseThrow of the axes as they are and the button is up. Full opacity and the inertial timer follow exactly when the area goes on moving. The fade restarts, uninterrupted, with its hold, and ThrowSignals is emitted. |
| PanArea.ThrowDone | hildon/hildon-pannable-area.c:2065-2179 | A release after a motion. The drag step is ReleaseDragStep, then ReleaseThrow acts on the axes it left. The button is up, whether the drag is a pan follows PanAfterCheck, and the first drag ends if check_move fired. The inertial timer is scheduled when check_move fired in ACCEL mode or the throw goes on. The fade restarts as in KineticsDone. The signals are CheckSignals, when check_move fired, then ThrowSignals. |
| PanArea.ThrowComposes | hildon/hildon-pannable-area.c:2065-2179 | ReleaseDragDone followed by KineticsDone makes up ThrowDone. |
| PanArea.ReleaseUpDone | hildon/hildon-pannable-area.c:2062-2179 | A release outside a selection drag does ThrowDone after a motion and KineticsDone otherwise. |
| PanArea.ThrowFacts | hildon/hildon-pannable-area.c:2065-2179 | After a motion, a release changes no bookkeeping but the button and the drag flags. It restarts the fade, uninterrupted, with its hold, at full or the old opacity, and never cancels a scheduled inertial timer. |
| PanArea.KineticsFacts | hildon/hildon-pannable-area.c:2093-2179 | Without a motion, a release changes no bookkeeping but the button, and restarts the fade as ThrowFacts says. |
| PanArea.ReleaseUpFacts | hildon/hildon-pannable-area.c:2062-2179 | Either way, a release outside a selection drag changes no bookkeeping but the button and the drag flags, restarts the fade with its hold, and leaves a scheduled inertial timer scheduled. |
| PanArea.Reposition | hildon/hildon-pannable-area.c:2564-2618 | set_value_internal. With animation and a clock, a request for the targets already running changes nothing. Any other request starts an animation from the current values to the clipped targets, over 1000 * duration. Without animation, updating stops and both adjustments take the clipped targets. Only the values move, and the adjustments and a running animation stay in range. |
| PanArea.RepositionIdempotent | hildon/hildon-pannable-area.c:2599-2602 | Asking an animating area for the same targets a second time changes nothing. |
| PanArea.JumpIdempotent | hildon/hildon-pannable-area.c:2612-2617 | A second identical jump leaves the state where the first put it. |
| PanArea.PannableArea.constructor | hildon/hildon-pannable-area.c:388-399 | A new area starts from the zero-filled private structure over the given adjustments, with a 200 ms animation duration, and satisfies the invariant. |
| PanArea.PannableArea.RemoveTimeouts | hildon/hildon-pannable-area.c:552-572 | All three timers stop. PANNING_FINISHED is emitted exactly when the inertial timer was running. |
| PanArea.PannableArea.LaunchFadeTimeout | hildon/hildon-pannable-area.c:916-930 | The opacity is set and any fade-in ends. The fade timer is scheduled exactly when none was scheduled. |
| PanArea.PannableArea.ScrollIndicatorFade | hildon/hildon-pannable-area.c:987-1039 | One tick of the fade. A moving area with the finger up holds. An interrupted fade or a fade-in brightens by 0.2 until the indicator is fully opaque. After that, a fade-in restarts the timer. A full indicator holds while the delay counter runs down, then fades by 0.2 down to 0. The opacity stays on a 0.2 level, and the timer stops only at 0 or 1. |
| PanArea.PannableArea.CheckScrollbars | hildon/hildon-pannable-area.c:1335-1394 | The visibility follows IndicatorVisible and the rectangles follow IndicatorRects. The result is true exactly when a visibility changed. |
| PanArea.PannableArea.Scroll | hildon/hildon-pannable-area.c:1556-1616 | The new position state is AreaScroll of the old one, and the invariant holds. |
| PanArea.PannableArea.Timeout | hildon/hildon-pannable-area.c:1618-1679 | A disabled area, or one in PUSH mode, stops the timer and emits PANNING_FINISHED. Otherwise the area scrolls by its velocity, and then Settle decides whether to decelerate or stop. |
| PanArea.PannableArea.Settle | hildon/hildon-pannable-area.c:1634-1678 | With the finger up and no overshoot, the speeds decelerate: towards a snap target by TargetDecel, freely by FreeDecel. The timer stops, with PANNING_FINISHED, once both speeds are below 1. With an overshoot the timer goes on. With the finger down in AUTO mode the timer stops silently. Only the speeds change. |
| PanArea.PannableArea.MotionEventScrollTimeout | hildon/hildon-pannable-area.c:1701-1712 | A pending motion is applied with AreaScroll. The coalescing timer stops, and the pending motion itself stays as it was. |
| PanArea.PannableArea.MotionEventScroll | hildon/hildon-pannable-area.c:1714-1738 | The position state and the pending motion become Coalesce of the old ones. |
| PanArea.PannableArea.CheckMove | hildon/hildon-pannable-area.c:1740-1849 | Unless DragStarts holds (the first drag of a press that is not yet a pan, past the panning threshold on either axis), the drag is handed back unchanged, nothing is emitted and the state is untouched. When it holds, the drag handed back is zero, the first drag ends, and the signals are CheckSignals. The drag becomes a pan exactly when PanTest passes and PANNING_STARTED is not vetoed. In ACCEL mode the inertial timer is scheduled, pan or not. |
| PanArea.PannableArea.HandleMove | hildon/hildon-pannable-area.c:1851-1927 | The new kinetic state and the drag handed back are MoveStep of the old state. So PUSH scrolls through Coalesce and moves the origin to the cursor. ACCEL scrolls nothing and sets each speed by AccelVelocity, between vmin and vmax for a drag within the allocation. AUTO filters each enabled axis by AutoVelocity and zeroes a disabled axis's drag. |
| PanArea.PannableArea.AutoMove | hildon/hildon-pannable-area.c:1882-1923 | The AUTO branch: both speeds follow AutoVelocity, and the scroll and origin follow the enabled axes. |
| PanArea.PannableArea.TrackCrossing | hildon/hildon-pannable-area.c:1967-1983 | last_in follows whether the cursor is inside the captured child, edges included. A crossing is emitted exactly when that changed. |
| PanArea.PannableArea.MotionNotify | hildon/hildon-pannable-area.c:1929-2011 | An ignored motion (MotionIgnored) changes nothing and emits nothing. In a selection drag nothing changes and the motion is only forwarded, as MotionForward says. Otherwise the new state and the drag signals are MotionDragDone of the old state, and MotionForward follows them last. |
| PanArea.PannableArea.MotionIgnored | hildon/hildon-pannable-area.c:1940-1951 | The motion handler returns early without a child, when disabled, with no button down, or for a second motion with the last motion's time. |
| PanArea.PannableArea.TrackDrag | hildon/hildon-pannable-area.c:1952-1988 | The new kinetic state, bookkeeping, idle flag, capture and signals are MotionDragDone of the old ones. |
| PanArea.PannableArea.StartDrag | hildon/hildon-pannable-area.c:1952-1963 | A motion right after a press (last_type 1) starts the first drag. check_move runs unless the drag is already a pan. The bookkeeping, the idle flag, the drag handed on and the signals are CheckDone, with that first-drag flag. |
| PanArea.PannableArea.FollowDrag | hildon/hildon-pannable-area.c:1965-1987 | The new state and signals are FollowDone. A pan moves the kinetic state by MoveStep of the drag handed on and leaves the capture alone. Before a pan nothing moves, last_in follows InChild, and a crossing is emitted exactly when it changed. The time and type 2 are recorded. |
| PanArea.PannableArea.LeaveNotify | hildon/hildon-pannable-area.c:2013-2029 | A captured child the cursor was in gets a leave, and last_in drops. Otherwise nothing changes. |
| PanArea.PannableArea.PressIgnored | hildon/hildon-pannable-area.c:1244-1253 | The press handler returns early when disabled, for another button, for a repeat of the last press's time (the shift-press that starts a selection drag among them), and without a child. |
| PanArea.PannableArea.ButtonPress | hildon/hildon-pannable-area.c:1235-1333 | The press records whether it starts a selection drag. It is ignored when disabled, for another button, for a repeat of the last press's time, or without a child. Otherwise it records the press and restarts the fade. A child still captured gets a leave. The area stops, ending a running pan. The window under the cursor is captured, with CaptureSignals, unless the area is still moving faster than vfast_factor times vmax. |
| PanArea.PannableArea.PressRecord | hildon/hildon-pannable-area.c:1255-1276 | The press sets the button down and becomes the last event. It records its time, position and the speeds it caught, and restarts the fade, interrupted. |
| PanArea.PannableArea.PressStop | hildon/hildon-pannable-area.c:1264-1299 | No speed, no snap target, no inertial timer, and the drag starts at the cursor. The invariant holds. |
| PanArea.PannableArea.PressCapture | hildon/hildon-pannable-area.c:1301-1330 | A hit becomes the captured child, with its size and the cursor inside it, plus the press position for an event on the area's own window. Without a hit nothing is captured. |
| PanArea.PannableArea.ReleaseIgnored | hildon/hildon-pannable-area.c:2057-2059 | The release handler returns early for a repeat of the last release's time, without a child, with no button down, when disabled, and for another button. |
| PanArea.PannableArea.ButtonRelease | hildon/hildon-pannable-area.c:2045-2229 | An ignored release (ReleaseIgnored) changes nothing and emits nothing. In a selection drag the release is only recorded as the last event with type 3, the drag ends, and the captured child gets ChildSignals. Otherwise the state and the signals up to the child events are ReleaseUpDone of the old state. After a motion that is ThrowDone: the drag step, then ReleaseThrow on the axes the drag left, the idle flag and ThrowSignals. Then the release is recorded, the drag ends, and ChildSignals follow, computed from whether the drag became a pan. |
| PanArea.PannableArea.ReleaseUp | hildon/hildon-pannable-area.c:2062-2179 | The new state and the signals are ReleaseUpDone of the old ones: ThrowDone after a motion, KineticsDone otherwise. |
| PanArea.PannableArea.ReleaseAfterMotion | hildon/hildon-pannable-area.c:2065-2179 | A release right after a motion does ThrowDone: ReleaseDrag, then ReleaseKinetics from where the drag left the area. |
| PanArea.PannableArea.ReleaseDrag | hildon/hildon-pannable-area.c:2065-2091 | The new kinetic state and whether the drag is a pan are ReleaseDragStep of the old state. The first-drag flag, the idle flag and the signals are those of check_move, as ReleaseDragDone says. |
| PanArea.PannableArea.ReleaseCheck | hildon/hildon-pannable-area.c:2065-2070 | check_move at a release sees the first-drag flag as it is, with no last_type 1 reset. The bookkeeping, the drag handed on and the signals are CheckDone. |
| PanArea.PannableArea.ReleaseFinish | hildon/hildon-pannable-area.c:2072-2090 | After the check, a drag that is a pan runs ReleaseMove on the drag handed on. Check and finish together make up ReleaseDragDone. |
| PanArea.PannableArea.ReleaseMove | hildon/hildon-pannable-area.c:2072-2090 | The new kinetic state is ReleaseMoveStep of the old one: MoveStep, then Flush, then CursorStopped on each axis. The drag handed back is the one given, with a disabled axis's drag zeroed in AUTO mode. |
| PanArea.PannableArea.FlushMotion | hildon/hildon-pannable-area.c:2078-2083 | The new kinetic state is Flush of the old one: a pending motion is scrolled at once by AreaScroll, and the timer and the pending motion are cleared. |
| PanArea.PannableArea.StopStill | hildon/hildon-pannable-area.c:2085-2089 | An axis that moved less than 4 pixels after CURSOR_STOPPED_TIMEOUT ms stops. Nothing else changes. |
| PanArea.PannableArea.ReleaseKinetics | hildon/hildon-pannable-area.c:2093-2178 | The new state and the signals are KineticsDone of the old ones. The axes take ReleaseThrow, the button is up, and an area that goes on moving shows full opacity and has the inertial timer scheduled. The fade restarts, uninterrupted, with its hold, and ThrowSignals is emitted. |
| PanArea.PannableArea.ReleaseChild | hildon/hildon-pannable-area.c:2181-2228 | The release is recorded as the last event, the drag ends, and the captured child gets ChildSignals. |
| PanArea.PannableArea.ScrollEvent | hildon/hildon-pannable-area.c:2232-2290 | A disabled area, or one without a child, ignores the wheel. Otherwise the indicators show at full opacity with a hold longer by 20 ticks. A running inertial scroll stops (WheelStop) and reports its end. The vertical adjustment takes up and down, the horizontal one anything else, at WheelTarget. |
| PanArea.PannableArea.WheelHalt | hildon/hildon-pannable-area.c:2249-2266 | A running inertial scroll stops both axes by WheelStop and emits PANNING_FINISHED. Otherwise nothing changes. |
| PanArea.PannableArea.WheelScroll | hildon/hildon-pannable-area.c:2268-2287 | Up and down move the vertical adjustment to WheelTarget. Any other direction moves the horizontal one. The other axis is untouched. |
| PanArea.PannableArea.FrameUpdate | hildon/hildon-pannable-area.c:2530-2560 | Before the end time, each adjustment takes the eased point between its source and target. From the end time on, it takes the target and updating stops. The invariant holds. |
| PanArea.PannableArea.SetValueInternal | hildon/hildon-pannable-area.c:2564-2618 | The adjustments and the animation become Reposition of the old ones. |
| PanArea.PannableArea.ScrollTo | hildon/hildon-pannable-area.c:2662-2707 | Nothing happens when the widget is not realized, when no axis scrolls, or when both coordinates are -1. Otherwise the state becomes Reposition of the centred and clamped targets, animated. |
| PanArea.PannableArea.JumpTo | hildon/hildon-pannable-area.c:2728-2773 | As ScrollTo, but the targets are set at once. |
| WindowChrome.SizeRequest | hildon-widgets/hildon-window.c:562-597 | The window asks for the child's height plus the box's, and the wider of the two widths, each with twice the border width. Out of fullscreen it adds the theme's top border, the bottom border only with an empty box, and the left and right borders. |
| WindowChrome.BoxAllocation | hildon-widgets/hildon-window.c:620-626 | The toolbar box spans the width less the toolbar's side borders. It gets its requested height, at most the window's, and sits on the bottom above the toolbar's bottom border. |
| WindowChrome.ChildAllocation | hildon-widgets/hildon-window.c:629-647 | The child is inset by the border width and, out of fullscreen, by the theme borders. Its bottom edge sits above the box, less the bottom border with an empty box or the toolbar's borders otherwise. |
| WindowChrome.SizeAllocate | hildon-widgets/hildon-window.c:599-654 | The box always gets BoxAllocation, and the child, exactly when there is one, gets ChildAllocation. |
| WindowChrome.ChildAboveBox | hildon-widgets/hildon-window.c:622-647 | Out of fullscreen, with a non-empty box, the child ends the border width plus the toolbar's top border above the box. In fullscreen it ends the border width above the point the toolbar's bottom border below the box top. |
| WindowChrome.RequestThenAllocate | hildon-widgets/hildon-window.c:563-647 | A window given the size it requested gives its child at least the requested width. The child gets its requested height exactly in fullscreen or with an empty box, and is short by the toolbar's two borders otherwise. |
| WindowChrome.BitField1 | hildon-widgets/hildon-window.c:195 | A one-bit unsigned field keeps only the lowest bit of the value stored. |
| WindowChrome.FullscreenBitLost | hildon-widgets/hildon-window.c:1032-1036 | As written, the stored fullscreen flag is 0 for every window state. |
| WindowChrome.FullscreenEnterLost | hildon-widgets/hildon-window.c:1032-1036 | Entering fullscreen (the state holds GDK_WINDOW_STATE_FULLSCREEN) still stores FALSE. |
| WindowChrome.ToggleMenu | hildon-widgets/hildon-window.c:1300-1360 | The window's own menu has priority. Otherwise the program's common menu is used and is attached to this window when attached elsewhere. Without a menu nothing happens. A visible menu is popped down. A hidden menu with items pops up, positioned by the fullscreen function in fullscreen and by the client-area function otherwise. |
| WindowChrome.MenuPopupPositionFull | hildon-widgets/hildon-window.c:1090-1100 | In fullscreen, the style offsets are used, clamped at 0. |
| WindowChrome.MenuPopupPosition | hildon-widgets/hildon-window.c:1074-1088 | Out of fullscreen, the style offsets are taken relative to the client area's origin, which defaults to (0, 0). |
| WindowChrome.JoinTitle | hildon-widgets/hildon-window.c:1281 | g_strjoin gives the application name, then " - " and the window title. Without a title it gives the name alone. |
| WindowChrome.HildonWindow.constructor | hildon-widgets/hildon-window.c:291-323 | A new window is not fullscreen and not topmost, and it has no title and no shown title. |
| WindowChrome.HildonWindow.GetIsTopmost | hildon-widgets/hildon-window.c:1522-1526 | The getter returns the topmost flag. |
| WindowChrome.HildonWindow.UpdateTopmost | hildon-widgets/hildon-window.c:1230-1259 | The flag becomes whether the topmost window is this one. is-topmost is notified exactly when the flag changes, and as the last effect. The input method of a focused entry or text view loses focus exactly when the window loses the top. |
| WindowChrome.HildonWindow.WindowStateEventAsWritten | hildon-widgets/hildon-window.c:1027-1039 | As written, a fullscreen change always stores FALSE. Other changes keep the flag, and the event is never consumed. |
| WindowChrome.HildonWindow.WindowStateEvent | hildon-widgets/hildon-window.c:1027-1039 | On a fullscreen change, the flag becomes whether the new state has the fullscreen bit. Other changes keep it. The event is never consumed. |
| WindowChrome.HildonWindow.UpdateTitle | hildon-widgets/hildon-window.c:1267-1291 | An unrealized window, or one without a non-empty application name, shows the same title it showed before. Otherwise it shows JoinTitle of the name and the window title. |
| ThemeSize.SetThemeSize | hildon/hildon-gtk.c:501-546 | The width request is always -1. Finger height wins over thumb height and gives 70 and "-finger". Thumb height alone gives 105 and "-thumb". Without a height flag the height is -1 and the name is kept. Either width flag makes the widget expand horizontally. |
| ThemeSize.RenamedIffHeight | hildon/hildon-gtk.c:511-526 | A height is requested exactly when a height flag is set, and then the name starts with the type name. |
| ThemeSize.SetThemeSizeIdempotent | hildon/hildon-gtk.c:501-546 | Setting the same size twice is the same as setting it once. |
| SelectorEntry.FirstMatchFrom | src/hildon-touch-selector-entry.c:228-232 | The search from a row on finds the first row at or after it whose text starts with the prefix. It finds nothing exactly when no such row exists. |
| SelectorEntry.FirstMatch | src/hildon-touch-selector-entry.c:224-232 | The first row of the model whose text starts with the entry text, or nothing exactly when there is none. |
| SelectorEntry.EmptyPrefixMatchesFirst | src/hildon-touch-selector-entry.c:224-232 | An empty entry text matches the first row of a non-empty model. |
| SelectorEntry.FirstMatchIsLeast | src/hildon-touch-selector-entry.c:228-232 | Every matching row lies at or after the first match. |
| SelectorEntry.HasMultipleSelection | src/hildon-touch-selector-entry.c:319-324 | The entry selector always reports multiple selection. |
| SelectorEntry.TouchSelectorEntry.constructor | src/hildon-touch-selector-entry.c:111-134 | A new selector entry has text column 0, no model and no active row. Its completion has no model and text column -1. Its "changed" handler is connected and unblocked. |
| SelectorEntry.TouchSelectorEntry.SetTextColumn | src/hildon-touch-selector-entry.c:176-190 | A column below -1 fails the precondition and changes nothing. Otherwise the completion and the selector both take it. |
| SelectorEntry.TouchSelectorEntry.GetTextColumn | src/hildon-touch-selector-entry.c:192-202 | The getter returns the text column. |
| SelectorEntry.TouchSelectorEntry.SetModel | src/hildon-touch-selector-entry.c:299-317 | Only column 0 takes a model, and any other column changes nothing. The selector shows the model, and the entry completion completes from it on the current text column. |
| SelectorEntry.TouchSelectorEntry.OnTextChanged | src/hildon-touch-selector-entry.c:204-246 | An empty model does nothing. Otherwise the first row matching the typed prefix, if any, becomes the active row, and otherwise the active row is kept. "changed" is emitted once for column 0 with the entry's own handler blocked, and the block count is restored. |

## Left out

These parts of the original are not in the model, or are in it only in part:

- Drawing, X11 and GDK plumbing: the expose and draw paths, X11 property and event filters, realize, unrealize and map, `get_client_area`, toolbar painting, the system sound, and the time and picker buttons are not modelled, because they are drawing and system calls. Their results appear only as parameters, such as whether the widget is realized or has a frame clock.
- Timers and the frame clock: a GLib timer is a flag saying whether it is scheduled, its callback is a method the caller invokes, and the frame time is a parameter, because clocks and the main loop lie outside the model.
- Floating point: `gdouble` and `gfloat` are exact reals, so IEEE rounding is not modelled. In particular the fade opacity steps by exactly 0.2, and the velocity factor sums in exact arithmetic.
- PanArea.PannableArea.ScrollEvent: the wheel step `pow (page_size, 2.0 / 3.0)` is a parameter, because it is a floating-point power.
- Windows are values: the child's window tree is a parameter of each button event, and a window is named by its path in that tree. Object identity and the weak reference on the captured child are not modelled.
- Adjustments are values held by the area; `gtk_adjustment_set_value` is modelled by its clamping alone (`PanPhysics.AdjustmentSet`), and its `value-changed` signal and `queue_resize` are left out, because they only trigger redraws and re-layout.
- Configuration: the properties, their setters and getters, `size_allocate`'s update of `accel_vel_x` and `accel_vel_y`, `add` and `remove`, `center_on_child_focus`, `scroll_to_child`, `jump_to_child` and `get_child_widget_at` are not modelled, because they configure the widget rather than move it. The tunables and accelerated velocities form the constant record `PanArea.Config`.
- PanArea.PannableArea.constructor: sets the snap targets `scroll_to_x` and `scroll_to_y` to -1 where the zero-filled private structure holds 0, because the invariant (a snap target is -1 or in range) needs it; every press resets both to -1 (line 1264) before any scroll step reads them.
- PanArea.PannableArea.Timeout: `gdk_window_process_updates` is a drawing call and is left out.
- PanArea.PannableArea.CheckScrollbars: uses the corrected indicator geometry, because the original reads the allocation through a NULL pointer, and writes through it too when GLib's checks are compiled out (see Findings).
- ThemeSize.SetThemeSize: the HildonSizeType values are four booleans, because the header that defines them is not part of this model; the screen width is not used, because the width lines are commented out in the source.
- SelectorEntry.TouchSelectorEntry.OnTextChanged: the model is reduced to the strings of the text column, so a text column of -1 (which makes `gtk_tree_model_get` read no column) is not modelled; a "changed" emission that `hildon_touch_selector_set_active_iter` makes itself belongs to the base selector and is not modelled.
- hildon_touch_selector_entry_changed and get_text_from_model, which copy the selected text into the entry, are not modelled; the block count records whether that handler would run.
- WindowChrome.SizeAllocate: the theme borders are read before `hildon_window_get_borders` fills them, which the model takes as given; the clamping `gtk_widget_size_allocate` applies to a negative size is not modelled.
- WindowChrome.SizeRequest: reads the toolbar box's request even without a box; the model assumes the box exists, as `hildon_window_init` creates it.
- WindowChrome.ToggleMenu: the GTK menu calls (attach, popup, popdown, select_first) are results rather than calls into GTK.
- WindowChrome.HildonWindow.UpdateTopmost: the input-method focus-out is a result, and the type of the focus widget is a parameter.
- Concurrency: the GDK thread lock is not modelled, because the handlers run one at a time in the main loop.

## Findings

| source | as written | input that shows it | evidently intended | confidence | as-written member | corrected member |
|---|---|---|---|---|---|---|
| hildon-widgets/hildon-window.c:1032-1036 | `fullscreen` is a 1-bit `guint` bitfield (line 195). The handler assigns `new_window_state & GDK_WINDOW_STATE_FULLSCREEN` to it, which is 0 or 16, and only bit 0 is kept. | A window-state event with the fullscreen bit in both `changed_mask` and `new_window_state` leaves `fullscreen` FALSE. | `fullscreen` becomes TRUE exactly when the new state has the fullscreen bit. | high; not executed | WindowChrome.HildonWindow.WindowStateEventAsWritten (with WindowChrome.FullscreenEnterLost) | WindowChrome.HildonWindow.WindowStateEvent |
| hildon/hildon-pannable-area.c:1340-1389 | `allocation` is a NULL `GtkAllocation *`. It is passed to `gtk_widget_get_allocation`, which returns early on NULL (and writes through it only with GLib's checks compiled out), and `allocation->width` and `allocation->height` are then read through it (lines 1376, 1379, 1384, 1387). | An area with a child and an indicator that shows, for example policy ALWAYS: NULL is read through. | The allocation is kept in a local `GtkAllocation`, and the indicator rectangles are computed from its width and height. | high; not executed | PanPhysics.IndicatorRectsAsWritten (with PanPhysics.IndicatorRectsFaultAsWritten) | PanPhysics.IndicatorRects |
