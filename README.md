# shb-scroll motion kernel in Dafny

This project models the motion kernel of the shb-scroll engine. That kernel drives the position of a scrollable surface from drag pushes, inertia and programmatic scroll requests, and proves what each piece promises. It has these pieces:

- **The coordinator** (`ShbScroll`) owns the authoritative per-axis position and boundaries. It:
  - damps or clamps pushes;
  - derives overscroll, pull and progress from every new position;
  - decides when a bounce starts and when the position is stable;
  - computes clamped scroll targets.

  Modules `ScrollRules` (the rules as functions of the coordinator's state, with their lemmas) and `ShbScrolling` (class `ShbScroll`, whose methods are proved to follow those rules).
- **The momentum engine** (`Momentum`) is a per-axis speed-decay state machine. Module `MomentumEngine`.
- **The bounce engine** (`Bounce`, which the coordinator imports as `Animate`) is a per-axis, time-bounded eased transition that snaps to its target. Module `BounceEngine`.
- **Animated scrolling** (`AnimatedScroll`, duplicated in the older coordinator) scrolls towards a valid target at a speed that shrinks near the target. Module `AnimatedScrolling`.
- **The older coordinator** (`Mustafas`) contributes its boundary computation, push damping and clamping, freeze guard and `scrollTo`. Its `_getNearestValidPosition` is module `ValidPosition`, shared with animated scrolling. Module `Mustafas`.
- **`easeLinear`**, the linear damping multiplier. Module `Utils`.

Every object whose fields the source updates in place is a class with those fields. Each class has a ghost `Snapshot()` of its fields and a `Valid()` invariant. Every method ensures that its new `Snapshot()` equals a specification function of the old one (`Started`, `Ticked`, `Updated`, `Pushed`, …) and keeps `Valid()`. The lemmas next to those functions state what the source promises about them.

The model uses these conventions:

- Time is a `now` parameter.
- A pending animation frame is a `frameRequested` flag. Each tick consumes the frame that runs it and requests another only while work is left.
- Dispatched events are appended to an `events` log.
- The coordinator's calls into its collaborators are appended to a `commands` log. The collaborators are the touch input, Momentum and Bounce.
- The events the collaborators send back arrive as separate handler calls: `OnMomentumEndOnAxis`, `OnAnimatePositionChange`, ….

The coordinator calls `momentum.stop/stopOnAxis/startOnAxis`, but `Momentum` defines `stopMomentum/stopMomentumOnAxis/startMomentum`. The command log is the interface that connects them: each piece is modelled as written.

Points where the code behaves differently from what its names suggest (the model follows the code):

- A bounce also ends when it is within half a pixel of its target, not only when its time is up.
- Animated scrolling has no per-axis overshoot guard.
- Progress is 1, not 0, on an empty range.
- `ShbScroll.scrollTo` animates through Bounce with `easeInOutCubic`, not through animated scrolling. A jump happens on the next frame, not synchronously.
- `ShbScroll` flips the push direction (`−px·direction`); `Mustafas` does not.
- A push is damped only when it goes further in the overscroll direction.
- With overscroll off, momentum is stopped only on axes where the clamp had to move the position.

## Model

| member | source | states |
|---|---|---|
| Utils.EaseLinear | src/utils.js:36-38 | `easeLinear(t, b, c, d)` is the point of a linear transition: `(r − b)·d = c·t` |
| Utils.EaseLinearAtStart | src/utils.js:36-38 | at `t = 0` the transition is at its start value `b` |
| Utils.EaseLinearAtEnd | src/utils.js:36-38 | at `t = d` (with `d ≠ 0`) the transition has moved by exactly `c` |
| Utils.DampingInUnitRange | src/utils.js:36-38 | as a damping multiplier (`b = 1`, `c = −1`, `d > 0`) the factor lies in `[0, 1]` for `0 ≤ t ≤ d` |
| Utils.DampingNonIncreasing | src/utils.js:36-38 | the damping multiplier never grows as `t` grows |
| MomentumEngine.StoppedOnAxisEffect | src/Momentum.js:97-112 | `stopMomentumOnAxis`: on an inactive axis, nothing changes. Otherwise only that axis loses its flag and is zeroed, and `stopOnAxis` is emitted. `stop` and the frame cancel happen exactly when the last active axis went inactive |
| MomentumEngine.StoppedOnAxesFlags | src/Momentum.js:90-94 | stopping a list of axes in order deactivates exactly the listed axes. It zeroes the listed axes that were active and leaves the other axes' momentum alone |
| MomentumEngine.StoppedOnAxesLog | src/Momentum.js:90-112 | stopping a list of axes emits `stopOnAxis` for each listed active axis, in order. One `stop` follows, with the frame cancel, iff the calls deactivated the last active axis |
| MomentumEngine.StoppedOnAxesEffect | src/Momentum.js:90-112 | flags, momentum, log and frame after `stopMomentum` over the configured axes, combined |
| MomentumEngine.StartedEffect | src/Momentum.js:57-87 | a configured axis with positive speed becomes active, keeps its direction, and moves at the smaller of its speed and `maxPxPerFrame`. Any other axis keeps its flag and its momentum. `startOnAxis` is emitted for every configured axis inactive before the call, even one that stays inactive. `start` is emitted iff no axis was active. A frame is requested. The log is only appended to |
| MomentumEngine.StartClampsToMaximum | src/Momentum.js:64-69 | a 40 px/frame release under the default 35 px/frame limit starts at 35 |
| MomentumEngine.TickAxisEffect | src/Momentum.js:129-141 | one per-axis callback of a tick. The guard only asks whether some axis is active; with none active nothing changes. Otherwise the axis, active or not, reports a push of its direction and speed and loses `subtractMomentumPerFrame` at a speed of at least `minPxPerFrame`. Below the minimum it ends inactive, and an active one is zeroed and emits `stopOnAxis`. No axis is activated, other axes are untouched, and the log is only appended to |
| MomentumEngine.TickAxesFlags | src/Momentum.js:129-142 | over the whole walk, for every axis. An axis active at the start is visited before the guard can skip it: it pushes, decays and stays active at or above the minimum, and is stopped and zeroed below it. A listed inactive axis pushes and decays exactly when some axis is still active at its turn (`GuardOpen`) and its speed is at least the minimum; otherwise it is left as it was. Unlisted axes are untouched |
| MomentumEngine.TickAxesActive | src/Momentum.js:129-142 | the walk on the axes active at its start: after it, an axis is active iff it was active and either unlisted or at least at the minimum speed. Listed active axes push and decay, or are zeroed, by their speed |
| MomentumEngine.TickAxesIdle | src/Momentum.js:129-142 | the walk on the listed axes inactive at its start: each pushes and decays iff the guard is open at its turn and its speed is at least the minimum, and is otherwise left as it was |
| MomentumEngine.TickAxesLog | src/Momentum.js:129-142 | the walk only appends to the log, and every listed active axis below the minimum appends its `stopOnAxis` |
| MomentumEngine.TickedSchedules | src/Momentum.js:129-149 | after a tick, a frame is pending iff some axis is still active. In that case the last event is `pushBy`, and it carries the direction and speed of every configured axis whose callback got past the guard at a speed of at least the minimum (every such active axis, and an inactive one when the guard was open at its turn), and no push for every other axis. A tick of an inactive engine changes only the consumed frame |
| MomentumEngine.WalkPush | src/Momentum.js:123-142 | the push record a walk starting from all-zero pushes ends with, axis by axis |
| MomentumEngine.TickAxesInactive | src/Momentum.js:130 | with nothing active, every per-axis callback returns at once |
| MomentumEngine.TickAxesFrame | src/Momentum.js:129-142 | the per-axis walk never requests a frame itself |
| MomentumEngine.Rank | src/Momentum.js:131-139 | the ranking function `Σ (speed − min)/subtract + 2` over active axes is non-negative, and at least 1 while some axis is active |
| MomentumEngine.TickedDecreasesRank | src/Momentum.js:131-139 | with `subtractMomentumPerFrame > 0`, every tick with an active axis keeps the invariant and lowers the rank by at least 1 |
| MomentumEngine.TicksInactive | src/Momentum.js:129-149 | an inactive engine stays inactive, tick after tick |
| MomentumEngine.MomentumStops | src/Momentum.js:131-149 | the decay terminates: after as many ticks as the rank, no axis is active |
| MomentumEngine.Momentum.constructor | src/Momentum.js:40-51 | a new engine has no active axis, no momentum, no frame and no events |
| MomentumEngine.Momentum.StartMomentum | src/Momentum.js:57-87 | the engine's fields become `Started(old)`, and the clamped momentum the caller's object then holds is returned |
| MomentumEngine.Momentum.ActivateAxes | src/Momentum.js:63-69 | each configured axis with a positive speed is activated and its speed capped at `maxPxPerFrame`; only the flags change |
| MomentumEngine.Momentum.DispatchStart | src/Momentum.js:76-86 | appends `startOnAxis` for each configured previously inactive axis, then `start` if none was active, and changes nothing else |
| MomentumEngine.Momentum.StopMomentumOnAxis | src/Momentum.js:97-112 | the fields become `StoppedOnAxis(old, axis)` |
| MomentumEngine.Momentum.StopMomentum | src/Momentum.js:90-94 | the fields become the stop of every configured axis in order, and afterwards no axis is active |
| MomentumEngine.Momentum.RunMomentum | src/Momentum.js:123-150 | the fields become `Ticked(old)`, so the tick lemmas above hold of the object |
| BounceEngine.StartedOnAxisEffect | src/Bounce.js:57-76 | an unconfigured axis changes nothing. A configured axis becomes active at its start position with the given target and start time, and a frame is requested. The duration is positive whenever the default is. The algorithm is one the library knows whenever the default is. `animateStart` precedes `animateStartOnAxis` exactly when no axis was active. Other axes are untouched |
| BounceEngine.StoppedOnAxisEffect | src/Bounce.js:84-94 | `stopOnAxis` clears only that flag and emits `animateEndOnAxis` iff the axis was active. `animateEnd` and the frame cancel happen exactly when it was the last active axis. No position changes |
| BounceEngine.StoppedWhereFlags | src/Bounce.js:79-94 | stopping the selected axes clears exactly their flags and leaves every position alone |
| BounceEngine.StoppedWhereLog | src/Bounce.js:79-94 | stopping the selected axes logs `animateEndOnAxis` for each selected active axis, in order. It then logs one `animateEnd`, with the frame cancel, iff the last active axis ended |
| BounceEngine.TickedPositions | src/Bounce.js:100-136 | a tick: an active axis with time left and more than 0.5 px to go takes its eased position and stays active. Any other active axis lands exactly on its target and ends. Inactive axes neither move nor start. A frame is pending afterwards iff some axis is active |
| BounceEngine.TickedLog | src/Bounce.js:124-131 | the tick's first event is one `animatePositionChange` carrying the positions the tick leaves, so an ending axis reports its exact target. `animateEndOnAxis` follows for exactly the ending axes, and `animateEnd` iff the last active axis ended |
| BounceEngine.TimeUpEndsBounce | src/Bounce.js:108-119 | a tick at or after every active axis's end time ends the whole bounce, with no frame pending |
| BounceEngine.BounceToSelfEndsAtOnce | src/Bounce.js:57-120 | a bounce started at its own target lands on it and ends on the first tick, whatever the duration |
| BounceEngine.Bounce.constructor | src/Bounce.js:39-51 | a new engine has nothing active, zero positions and times, and no events |
| BounceEngine.Bounce.StartOnAxis | src/Bounce.js:57-76 | the fields become `StartedOnAxis(old, …)` |
| BounceEngine.Bounce.SetAnimation | src/Bounce.js:67-73 | the axis takes its start, current and target positions and start time, the given duration if positive (else the default) and the given algorithm if named and known (else the default); no other field changes |
| BounceEngine.Bounce.StopOnAxis | src/Bounce.js:84-94 | the fields become `StoppedOnAxis(old, axis)` |
| BounceEngine.Bounce.Stop | src/Bounce.js:79-81 | every configured axis is stopped in order, and afterwards no axis is active |
| BounceEngine.Bounce.RunAnimate | src/Bounce.js:100-136 | the fields become `Ticked(old, now, ease)`, so the tick lemmas above hold of the object |
| BounceEngine.Bounce.MoveAxes | src/Bounce.js:103-122 | each active configured axis takes its eased position while it continues, or lands on its target and is marked to end; only the positions change |
| BounceEngine.Bounce.StopEnding | src/Bounce.js:129-131 | the marked axes are stopped in order, with the log of `StoppedWhereLog` |
| ValidPosition.NearestValidAxis | src/Mustafas.js:461-470 | a positive value becomes 0, a non-positive value below the limit becomes the limit, and any other value is kept. The result lies in `[limit, 0]` when `limit ≤ 0` |
| ValidPosition.NearestValidAxisIdempotent | src/Mustafas.js:458-474 | clamping a clamped coordinate again changes nothing |
| ValidPosition.NearestValid | src/Mustafas.js:458-474 | configured axes take their nearest valid coordinate and the others are 0 |
| ValidPosition.NearestValidInRange | src/Mustafas.js:458-474 | with non-positive limits, every axis of the result lies in `[limit, 0]`, and the function is idempotent |
| ValidPosition.GetNearestValidPosition | src/Mustafas.js:458-474 | the per-axis loop computes exactly `NearestValid` |
| AnimatedScrolling.StartedEffect | src/AnimatedScroll.js:40-91 | the maximum speed is the given speed if positive, else the configured maximum. The current speed starts at it, and the scroll runs with a frame requested. The start is the current position. The target keeps the current position on unconfigured axes and takes the nearest valid coordinate on configured ones, so it lies in `[limit, 0]` |
| AnimatedScrolling.TickedKeepsSpeedBound | src/AnimatedScroll.js:99-101 | the speed stays within `[0, maxPxPerFrame]`. Inside the slowing distance, a running speed is `max·distance/slowingDistance` |
| AnimatedScrolling.SlowedBound | src/AnimatedScroll.js:99-101 | the speed a tick computes stays within `[0, maxPxPerFrame]`, also when it is scaled down inside the slowing distance |
| AnimatedScrolling.TickedStopsOnTarget | src/AnimatedScroll.js:104-107 | when less than a pixel is left or the speed is below the minimum, the scroll stops with speed 0 and no frame, and the position written is exactly the target |
| AnimatedScrolling.TickedSteps | src/AnimatedScroll.js:109-116 | otherwise each configured axis advances by speed × its direction weight and the others stay. The new position is written and another frame is requested |
| AnimatedScrolling.AtTargetStopsAtOnce | src/AnimatedScroll.js:94-107 | a scroll whose target is the current position stops on its first tick without moving and writes that target |
| AnimatedScrolling.AnimatedScroll.constructor | src/AnimatedScroll.js:21-32 | a new scroller is idle at the origin |
| AnimatedScrolling.AnimatedScroll.StartAnimatedScroll | src/AnimatedScroll.js:40-91 | the fields become `Started(old, …)` |
| AnimatedScrolling.AnimatedScroll.AimAt | src/AnimatedScroll.js:61-63 | the target takes the valid coordinate on each configured axis and keeps the current position elsewhere; only the target changes |
| AnimatedScrolling.AnimatedScroll.StopAnimatedScroll | src/AnimatedScroll.js:120-127 | speed 0, not scrolling, no frame pending, and nothing else changes |
| AnimatedScrolling.AnimatedScroll.SetPosition | src/Mustafas.js:337-339 | the position handed to the scroll host is appended to the written log |
| AnimatedScrolling.AnimatedScroll.MoveBy | src/AnimatedScroll.js:110-112 | each configured axis advances by `px` × its weight, and nothing else changes |
| AnimatedScrolling.AnimatedScroll.RunAnimatedScroll | src/AnimatedScroll.js:94-117 | the fields become `Ticked(old, d)` and the speed bound is kept |
| Mustafas.BoundaryOf | src/Mustafas.js:210-214 | the start is 0, and the end lies at or before the start exactly when the moveable is at least as large as the container |
| Mustafas.PushClampedWithoutOverscroll | src/Mustafas.js:305-314 | without overscroll, a pushed coordinate lands in `[axisEnd, axisStart]`: a push that would end above `axisStart` stops at `axisStart`, one that would end below `axisEnd` stops at `axisEnd`, and a push that stays inside is applied unchanged |
| Mustafas.PushInsideUndamped | src/Mustafas.js:282-303 | with overscroll, a push from inside the boundaries is applied undamped as `px·direction` |
| Mustafas.PushPastStartDamped | src/Mustafas.js:291-295 | a push further past the start moves between 0 and the raw push, and by less the further the coordinate already is past the start |
| Mustafas.PushPastEndDamped | src/Mustafas.js:296-300 | the mirror image past `axisEnd` |
| Mustafas.PushAxis | src/Mustafas.js:282-315 | the per-axis callback computes exactly the damped or clamped coordinate |
| Mustafas.ScrolledToReplacesRunningScroll | src/Mustafas.js:145-158 | `scrollTo` never leaves an earlier animated scroll running. Without animation it writes exactly the requested position. With animation a new scroll starts from the current position at full speed |
| Mustafas.Mustafas.constructor | src/Mustafas.js:111-127 | a new coordinator is not frozen, has its moveable at the origin, and drives a scroller on its own axes. It ends with `_calculateParams` on the container's client extents: both extents are those, and every configured axis has the boundary `[0, 0]` |
| Mustafas.Mustafas.CalculateParams | src/Mustafas.js:200-215 | each configured axis gets `axisStart = 0` and `axisEnd = container − moveable`. Since the moveable extents are copied from the container's, `axisEnd = 0` as written |
| Mustafas.Mustafas.HandlePushBy | src/Mustafas.js:274-317 | configured axes take their pushed coordinate and the others keep the moveable's |
| Mustafas.Mustafas.ScrollTo | src/Mustafas.js:145-158 | while frozen, nothing changes. Otherwise the scroller ends as `ScrolledTo` describes. The coordinator's own fields never change |
| Mustafas.Mustafas.ScrollBy | src/Mustafas.js:161-163 | as written, both coordinates are offsets from the `x` position. The coordinator's own fields never change |
| Mustafas.Mustafas.FreezeScroll | src/Mustafas.js:177-183 | only an explicit `false` unfreezes. Freezing stops a running animated scroll, and otherwise the scroller is untouched. Only the frozen flag of the coordinator changes |
| ScrollRules.InitialOk | src/ShbScroll.js:113-135 | the state after construction satisfies the coordinator's invariant |
| ScrollRules.AxisBoundary | src/ShbScroll.js:296-300 | `start = 0 ≤ end`. `end = 0` iff the moveable is no larger than the container, and otherwise `end = moveable − container` |
| ScrollRules.Clamp | src/ShbScroll.js:551-559 | a value below the start becomes the start, a value above the end becomes the end, and a value inside the range is kept; on a non-empty range the result lies in it |
| ScrollRules.OverscrollAt | src/ShbScroll.js:476-491 | the overscroll is non-negative, the direction is in `{−1, 0, 1}`, and the overscroll is 0 exactly when the direction is 0 |
| ScrollRules.OverscrollMeasuresDistance | src/ShbScroll.js:476-491 | the overscroll is the distance from the position to the range. Stepping it in the overscroll direction lands on the clamped position. The direction is 1 before the start, −1 past the end and 0 inside |
| ScrollRules.Pull | src/ShbScroll.js:493-494 | `overscrollPull` lies in `[0, 1]`, and reaches 1 iff `1.1 × overscroll ≥ pullToRefreshOverscroll` |
| ScrollRules.Progress | src/ShbScroll.js:508-513 | on a non-empty range, progress × end = position, and it lies in `[0, 1]` for positions in range. Otherwise it is 1 |
| ScrollRules.AxisAfterUpdateEffect | src/ShbScroll.js:475-514 | one axis of an update takes the new position. Progress is recomputed only if the position changed. With overscroll on, the overscroll fields describe the new position and stay consistent. With overscroll off, they are left alone |
| ScrollRules.UpdatedAxes | src/ShbScroll.js:472-515 | after `_updateMoveablePosition`, every configured axis is at its new position, with progress recomputed only on changed axes and overscroll as the overscroll table says. Unconfigured axes are untouched |
| ScrollRules.UpdatedDispatch | src/ShbScroll.js:496-527 | one `positionChange`, carrying the new positions, is dispatched iff some configured axis moved. Pull-to-refresh, once on, stays on |
| ScrollRules.UpdatedKeepsInv | src/ShbScroll.js:472-528 | an update keeps the overscroll fields consistent and the boundaries unchanged |
| ScrollRules.UpdatedIdempotent | src/ShbScroll.js:504-527 | updating again to the same position changes nothing and dispatches nothing |
| ScrollRules.UpdatedReadsConfiguredAxes | src/ShbScroll.js:475 | only the configured coordinates of the new position matter |
| ScrollRules.CalculatedBoundaries | src/ShbScroll.js:286-309 | after the params are computed, every configured axis has `start = 0` and `end = max(moveable − container, 0)`, and unconfigured boundaries are unchanged. A record moveable is placed at its `left`/`top` offset. A DOM moveable's position and events are unchanged |
| ScrollRules.PushClampedWithoutOverscroll | src/ShbScroll.js:357-373 | with overscroll off, a push lands on the clamp of the undamped position, inside the range, and momentum is stopped exactly when the clamp moved it |
| ScrollRules.PushUndampedUnlessDeepening | src/ShbScroll.js:331-356 | with overscroll on, a push that does not deepen the overscroll moves by `−px·direction` and never stops momentum |
| ScrollRules.PushDampedWhenDeepening | src/ShbScroll.js:339-355 | a push deepening an overscroll within the allowance moves the same way as the raw push and by no more. Its loss is `raw × overscroll / maxOverscroll`, with the touch or momentum allowance as appropriate. Momentum is stopped only on an axis under momentum |
| ScrollRules.PushSeedUnobservable | src/ShbScroll.js:324-327 | seeding `y` from `x.position` has no effect: the push equals one seeded from each axis's own position |
| ScrollRules.PushedEffect | src/ShbScroll.js:322-377 | `_onPush` stops momentum on exactly the configured axes whose outcome asks for it, and moves every configured axis to its pushed coordinate |
| ScrollRules.AnimatedPositionOnlyMovesAnimatedAxes | src/ShbScroll.js:414-423 | an axis Bounce is not animating keeps its position, and an animated configured axis takes the animated one. With nothing animating, nothing is dispatched |
| ScrollRules.BounceReturnsToNearestBoundary | src/ShbScroll.js:441-451 | after an update, a busy axis never bounces. An idle axis bounces iff its new position is outside the range, back to the clamped position, or stops the pull-to-refresh margin short of it while pull-to-refresh is active |
| ScrollRules.BounceFromOverscrollAtEnd | src/ShbScroll.js:441-451 | position 520 on the range `[0, 500]` is a 20 px overscroll with direction −1, and bounces back to 500 |
| ScrollRules.CheckedBounceEffect | src/ShbScroll.js:434-451 | `_checkForBounceStart` only appends bounce starts: one for each configured axis with a bounce target, from its current position. Nothing else changes |
| ScrollRules.TouchEndedEffect | src/ShbScroll.js:380-386 | lifting the finger dispatches `startPullToRefresh` iff pull-to-refresh is active. `positionStable` follows, reporting no touch, iff no axis is under Bounce or Momentum. Bounces start on exactly the idle overscrolled configured axes |
| ScrollRules.MomentumOnlyWithinRange | src/ShbScroll.js:389-395 | release momentum is handed on for exactly the configured axes that are not overscrolled |
| ScrollRules.MomentumEndStartsBounce | src/ShbScroll.js:403-406 | when momentum ends on an overscrolled axis with no touch and no Bounce there, a bounce starts from its position. Outside pull-to-refresh, it returns to the overscrolled edge |
| ScrollRules.StoppedPullBouncesToBoundary | src/ShbScroll.js:178-181 | after `stopPullToRefresh`, every bounce it starts returns all the way to a boundary |
| ScrollRules.ScrollTargetAxis | src/ShbScroll.js:547-560 | an undefined coordinate keeps the current position, and a defined one becomes its `Clamp`: in the range, and on the nearer bound when outside it |
| ScrollRules.ScrollTargetClampsAndIsIdempotent | src/ShbScroll.js:544-563 | defined coordinates land in the range and undefined ones keep the current position. Asking again for the computed target returns it, as long as the kept positions were in range |
| ScrollRules.ScrollToJumpLandsInRange | src/ShbScroll.js:139-155 | a non-animated `scrollTo` stops both engines and schedules one update. When it runs, defined axes land in range with no overscroll and undefined axes stay |
| ScrollRules.ScrollToAnimatesEachAxis | src/ShbScroll.js:139-152 | an animated `scrollTo` stops both engines, then starts a Bounce on exactly the configured axes, from the current position to the target, with `easeInOutCubic` |
| ScrollRules.ScrollByAimsAtShiftedPosition | src/ShbScroll.js:158-165 | `scrollBy` aims every configured axis at the clamp of the position shifted by the offset, a missing offset counting as 0 |
| ScrollRules.ScrollTopAsWrittenStaysPut | src/ShbScroll.js:168-170 | `scrollTop` as written schedules a jump to where every axis already is, which dispatches nothing |
| ScrollRules.ScrollBottomAsWrittenStaysPut | src/ShbScroll.js:173-175 | `scrollBottom` as written keeps every axis where it is: each Bounce it starts ends where it begins |
| ScrollRules.ScrollTopAndBottomReachEdges | src/ShbScroll.js:168-175 | the intended `scrollTop`/`scrollBottom` aim `y` at the start/end of its range and leave `x` in place |
| ShbScrolling.ShbScroll.constructor | src/ShbScroll.js:113-135 | a new coordinator is at rest, satisfies the invariant, and has one frame requested to compute its params |
| ShbScrolling.ShbScroll.ScrollTo | src/ShbScroll.js:141-155 | the fields become `ScrolledTo(old, …)`, so the `scrollTo` lemmas above hold of the object |
| ShbScrolling.ShbScroll.StartScrollAnimations | src/ShbScroll.js:145-149 | appends one Bounce start per configured axis, from its position to the target, and changes nothing else |
| ShbScrolling.ShbScroll.ScrollBy | src/ShbScroll.js:158-165 | `scrollTo` with the position shifted by the offset |
| ShbScrolling.ShbScroll.ScrollTopAsWritten | src/ShbScroll.js:168-170 | `scrollTop` as written, with the effect of `ScrollTopAsWrittenStaysPut` |
| ShbScrolling.ShbScroll.ScrollBottomAsWritten | src/ShbScroll.js:173-175 | `scrollBottom` as written, with the effect of `ScrollBottomAsWrittenStaysPut` |
| ShbScrolling.ShbScroll.ScrollTop | src/ShbScroll.js:168-170 | the intended `scrollTop`: `scrollTo` with `y` at the range start |
| ShbScrolling.ShbScroll.ScrollBottom | src/ShbScroll.js:173-175 | the intended `scrollBottom`: `scrollTo` with `y` at the range end |
| ShbScrolling.ShbScroll.StopPullToRefresh | src/ShbScroll.js:178-181 | pull-to-refresh goes off and every axis is checked for a bounce |
| ShbScrolling.ShbScroll.DisableScrolling | src/ShbScroll.js:184-188 | both engines are stopped, then the touch input is told to disable scrolling |
| ShbScrolling.ShbScroll.Refresh | src/ShbScroll.js:191-193 | one frame is requested to recompute the params, and nothing else changes |
| ShbScrolling.ShbScroll.Destroy | src/ShbScroll.js:196-205 | listeners are removed, touch input is destroyed, both engines are stopped, and the coordinator is marked destroyed |
| ShbScrolling.ShbScroll.CalculateParams | src/ShbScroll.js:286-309 | the fields become `Calculated(old, …)` and the invariant `0 = start ≤ end` is kept |
| ShbScrolling.ShbScroll.MeasureAxes | src/ShbScroll.js:289-301 | each configured axis records its extents and gets its boundary, and nothing else changes |
| ShbScrolling.ShbScroll.OnTouchStart | src/ShbScroll.js:315-319 | touch becomes active and both engines are stopped |
| ShbScrolling.ShbScroll.PushAxis | src/ShbScroll.js:329-371 | the per-axis callback computes exactly `PushedAxis`: the new coordinate and whether momentum stops |
| ShbScrolling.ShbScroll.PushWithOverscroll | src/ShbScroll.js:335-356 | the overscroll branch computes exactly the damped push |
| ShbScrolling.ShbScroll.PushWithinBoundaries | src/ShbScroll.js:358-371 | the constraining branch computes exactly the clamped push |
| ShbScrolling.ShbScroll.OnPush | src/ShbScroll.js:322-377 | the fields become `Pushed(old, pushBy)`, and the invariant is kept |
| ShbScrolling.ShbScroll.PushAxes | src/ShbScroll.js:324-374 | the new position holds each configured axis's pushed coordinate, and momentum is stopped on exactly the axes whose outcome asks for it; only the command log changes |
| ShbScrolling.ShbScroll.OnTouchEnd | src/ShbScroll.js:380-386 | the fields become `TouchEnded(old)` |
| ShbScrolling.ShbScroll.OnTouchEndWithMomentum | src/ShbScroll.js:389-395 | the fields become `TouchEndedWithMomentum(old, momentum)` |
| ShbScrolling.ShbScroll.OnMomentumStartOnAxis | src/ShbScroll.js:398-400 | only the axis's momentum flag is set |
| ShbScrolling.ShbScroll.OnMomentumEndOnAxis | src/ShbScroll.js:403-406 | the axis's momentum flag drops and the axis is checked for a bounce |
| ShbScrolling.ShbScroll.OnAnimateStartOnAxis | src/ShbScroll.js:409-411 | only the axis's animating flag is set |
| ShbScrolling.ShbScroll.OnAnimatePositionChange | src/ShbScroll.js:414-423 | the fields become the update to the animated position of the animating axes |
| ShbScrolling.ShbScroll.OnAnimateEndOnAxis | src/ShbScroll.js:426-428 | only the axis's animating flag is cleared |
| ShbScrolling.ShbScroll.CheckForBounceStart | src/ShbScroll.js:434-438 | the fields become `CheckedBounce(old)` |
| ShbScrolling.ShbScroll.CheckForBounceStartOnAxis | src/ShbScroll.js:441-451 | a bounce start is appended iff the axis has a bounce target, and nothing else changes |
| ShbScrolling.ShbScroll.CheckForPositionStable | src/ShbScroll.js:454-466 | `positionStable` is appended iff no touch, Bounce or Momentum is active, and nothing else changes |
| ShbScrolling.ShbScroll.OverscrollAxis | src/ShbScroll.js:476-501 | computes exactly the overscroll fields the update sets |
| ShbScrolling.ShbScroll.UpdateAxis | src/ShbScroll.js:475-514 | one axis of the update: the axis becomes `AxisAfterUpdate`, pull-to-refresh turns on iff a touch pulls it fully, and the result says whether its position changed |
| ShbScrolling.ShbScroll.UpdateMoveablePosition | src/ShbScroll.js:472-528 | the fields become `Updated(old, newPosition)`, and the invariant is kept |
| ShbScrolling.ShbScroll.UpdateAxes | src/ShbScroll.js:473-515 | every configured axis takes its updated position and overscroll, pull-to-refresh turns on iff a touch pulls some axis fully, and the result says whether some coordinate moved |
| ShbScrolling.ShbScroll.GetScrollTarget | src/ShbScroll.js:544-563 | computes exactly `ScrollTarget`, without changing the coordinator |

## Left out

- DOM work is not modelled. This covers `_setupDomElements`, `_updateMoveableNodePosition`, `getTranslatedNodePosition`, `stopEvent`, and reading `clientWidth`/`clientHeight` or `HTMLElement`. Extents, the `left`/`top` offset and the moveable kind are inputs.
- `requestAnimationFrame`, `cancelAnimationFrame` and `Date.now` are not modelled. A pending frame is a flag, a tick is a method call, and time is a `now` parameter. Frame ids are not modelled.
- Listener registration, listener removal and window-resize debouncing are not modelled (`_bindEvents`, `_unbindEvents`, `refreshOnResize`). Dispatches are logged events, and `destroy` logs the unbinding.
- Synchronous re-entrancy is not modelled. In the source, an engine's events reach the coordinator during the call that caused them. For example, `animate.startOnAxis` sets `isAnimatingOnAxis` through its `animateStartOnAxis` event before `_checkForPositionStable` runs in `_onTouchEnd`. In the model, those events are separate later calls, so `TouchEnded` can log `positionStable` in the same call that logs a bounce start.
- The touch input (ShbTouch/Kotti) is not modelled: it is not part of this model. Its pushes and release momentum are inputs.
- The easing library is not modelled. `Bounce` takes the ease function as an uninterpreted parameter, and the library's set of names as a configuration field.
- `lodash`/`fUtils` configuration merging is not modelled. Configurations are plain records.
- `Math.atan2`, `cos`, `sin` and `sqrt` in animated scrolling and `_distance` are not modelled. The direction weights and the distance `d` (with `d·d` equal to the squared distance) are inputs. `totalDistance`, which nothing reads, is not kept.
- IEEE floating-point rounding, `NaN` and `Infinity` are not modelled. Numbers are `real`.
- `console.log` calls are not modelled.
- ShbScrolling.ShbScroll.constructor requires positive `maxTouchOverscroll`, `maxMomentumOverscroll` and `pullToRefreshOverscroll`, because the source divides by them and would produce `Infinity`/`NaN`.
- Mustafas.Mustafas.constructor requires a non-zero `maxTouchOverscroll`, for the same reason. `Mustafas`'s own defaults do not define it.
- Mustafas.Mustafas.constructor also supplies state the source leaves undefined. `src/Mustafas.js:76-95` comments out the defaults for `position`, `positionLimits`, `isScrollFrozen` and `animatedScroll`. The model starts unfrozen and hands in an `AnimatedScroll` object that holds the position, the limits and the animated-scroll record.
- Mustafas.Mustafas.ScrollTo is modelled on that supplied state. As written, an unfrozen call throws a `TypeError` at `src/Mustafas.js:148`, where it reads `animatedScroll.isAnimatedScrolling` of an undefined record.
- Mustafas.Mustafas.ScrollBy is modelled on that supplied state. As written, it throws at `src/Mustafas.js:162`, where it reads `position.x` of an undefined record.
- Mustafas.Mustafas.FreezeScroll is modelled on that supplied state. As written, freezing sets the flag and then throws at `src/Mustafas.js:181` on the undefined `animatedScroll`. Every call then also throws at `src/Mustafas.js:184` on the undefined `wegbier`; that call is not modelled.
- ValidPosition.GetNearestValidPosition takes the position limits as an input. As written in `Mustafas`, `positionLimits` is never defined, so a configured axis with a non-positive coordinate throws at `src/Mustafas.js:465`.
- AnimatedScrolling.AnimatedScroll.constructor supplies state, configuration and helpers the source never defines. `src/AnimatedScroll.js:4-12` has empty defaults, so `position`, `animatedScroll`, `maxScrollPxPerFrame`, `minScrollPxPerFrame` and `scrollToSlowingDistance` stay undefined. The class also defines none of `_getNearestValidPosition`, `_getPositionDistance`, `_setWegbierPosition` and `_forXY`. The model starts idle at the origin with given limits, takes its speeds from a configuration record, and uses `ValidPosition`, a distance input and a log for those helpers.
- AnimatedScrolling.AnimatedScroll.StartAnimatedScroll is modelled on that supplied state. As written, it throws at `src/AnimatedScroll.js:47` on the undefined `animatedScroll`.
- AnimatedScrolling.AnimatedScroll.RunAnimatedScroll is modelled on that supplied state. As written, it throws at `src/AnimatedScroll.js:96`, where it calls the undefined `_getPositionDistance`.
- AnimatedScrolling.AnimatedScroll.StopAnimatedScroll is modelled on that supplied state. As written, it throws at `src/AnimatedScroll.js:123` on the undefined `animatedScroll`.
- MomentumEngine.Momentum.StartMomentum does not model that the engine keeps the caller's momentum object by reference, so later ticks would also decay that object. It returns the clamped value the caller's object holds after the call.
- The rest of `Mustafas` is not modelled: `refresh`, `getScrollPosition`, `scrollTop`, `scrollBottom`, `destroy`, its touch and bounce handlers, `_onPositionChanged`, and its calls to the undefined `_updateCoords`, `wegbier` and `momentum`. The model covers `HandlePushBy` up to the coordinates it hands on, and treats `_setWegbierPosition` as a write to a log.
- `Mustafas`'s animated scrolling (`src/Mustafas.js:350-437`) is the code of `src/AnimatedScroll.js`. It is modelled once, in `AnimatedScrolling`, and `Mustafas` drives an `AnimatedScroll` object.
- ScrollRules.ScrollTargetClampsAndIsIdempotent proves idempotence only when the undefined coordinates' current positions are in range. An undefined coordinate keeps an overscrolled current position, which a second call would clamp.

## Findings

| source | as written | input that shows it | evidently intended | confidence | as-written member | corrected member |
|---|---|---|---|---|---|---|
| src/ShbScroll.js:168-170 | `scrollTop(animateTime)` calls `scrollTo(x.position, boundaries.y.start, animateTime)`. That passes a number as the target position and the start boundary (0) as the animation time. | `y = 300` on the range `[0, 500]`: `scrollTop(400)` schedules a jump to `y = 300`, so nothing moves. | `scrollTo({ y: boundaries.y.start }, animateTime)`, which aims `y` at 0. | not executed | ScrollRules.ScrollTopAsWrittenStaysPut | ScrollRules.ScrollTopAndBottomReachEdges |
| src/ShbScroll.js:173-175 | `scrollBottom(animateTime)` calls `scrollTo(x.position, boundaries.y.end, animateTime)`. That passes a number as the target position and the end boundary as the animation time. | `y = 300` on the range `[0, 500]`: `scrollBottom()` starts Bounces from 300 to 300 lasting 500 ms, so `y` never reaches 500. | `scrollTo({ y: boundaries.y.end }, animateTime)`, which aims `y` at 500. | not executed | ScrollRules.ScrollBottomAsWrittenStaysPut | ScrollRules.ScrollTopAndBottomReachEdges |
