/**
 * The coordinator object of src/ShbScroll.js. It keeps the source's fields and
 * state flags; every method is proved to leave them equal to the matching
 * function of `ScrollRules` applied to their old values, and to keep the
 * invariant `ScrollRules.Inv` (consistent overscroll fields, `0 = start <= end`).
 */
module ShbScrolling {
  import opened Common
  import opened Utils
  import opened ScrollRules

  class ShbScroll {
    const config: Config
    var containerExtent: XY<real>
    var moveableExtent: XY<real>
    var moveable: XY<AxisPosition>
    var boundaries: XY<Boundary>
    var isTouchActive: bool
    var isPullToRefreshActive: bool
    var isAbstractMoveable: bool
    var isAnimatingOnAxis: XY<bool>
    var isMomentumOnAxis: XY<bool>
    var isDestroyed: bool
    var events: seq<Event>
    var commands: seq<Command>

    ghost function Snapshot(): State
      reads this
    {
      State(containerExtent, moveableExtent, moveable, boundaries, isTouchActive, isPullToRefreshActive,
            isAbstractMoveable, isAnimatingOnAxis, isMomentumOnAxis, isDestroyed, events, commands)
    }

    ghost predicate Valid()
      reads this
    {
      Inv(config, Snapshot())
    }

    /** A new coordinator at rest, with one frame requested to compute its params. */
    constructor (config: Config)
      requires ConfigOk(config)
      ensures this.config == config
      ensures Snapshot() == Initial()
      ensures Valid()
    {
      this.config := config;
      containerExtent := XY(0.0, 0.0);
      moveableExtent := XY(0.0, 0.0);
      moveable := XY(Resting, Resting);
      boundaries := XY(Boundary(0.0, 0.0), Boundary(0.0, 0.0));
      isTouchActive := false;
      isPullToRefreshActive := false;
      isAbstractMoveable := false;
      isAnimatingOnAxis := XY(false, false);
      isMomentumOnAxis := XY(false, false);
      isDestroyed := false;
      events := [];
      commands := [RequestFrame(RecalculateParams)];
    }

    // -------------------------------------------------------------------------
    // Public operations

    /** `scrollTo`: the target is computed before the engines are stopped, which logs the same calls. */
    method ScrollTo(position: XY<Option<real>>, animateTime: Option<real>)
      requires Valid()
      modifies this
      ensures Snapshot() == ScrolledTo(config, old(Snapshot()), position, animateTime)
      ensures Valid()
    {
      var scrollTarget := GetScrollTarget(position);
      commands := commands + [MomentumStop, AnimateStop];
      if animateTime.Some? && animateTime.value != 0.0 {
        StartScrollAnimations(scrollTarget, animateTime.value);
      } else {
        commands := commands + [RequestFrame(UpdatePosition(scrollTarget))];
      }
    }

    /** The per-axis Bounce starts of an animated `scrollTo`. */
    method StartScrollAnimations(scrollTarget: XY<real>, animateTime: real)
      modifies this`commands
      ensures Snapshot() == old(Snapshot()).(commands := old(commands)
                              + Collect(config.axes, AnimateToOf(old(moveable), scrollTarget, animateTime)))
    {
      ghost var s0 := Snapshot();
      for i := 0 to |config.axes|
        invariant commands == s0.commands + Collect(config.axes[..i], AnimateToOf(s0.moveable, scrollTarget, animateTime))
      {
        var a := config.axes[i];
        CollectStep(config.axes, i, AnimateToOf(s0.moveable, scrollTarget, animateTime));
        commands := commands + [AnimateStartOnAxis(a, moveable.Get(a).position, scrollTarget.Get(a), animateTime, ScrollEase)];
      }
      CollectAll(config.axes, AnimateToOf(s0.moveable, scrollTarget, animateTime));
    }

    /** `scrollBy`. */
    method ScrollBy(delta: XY<Option<real>>, animateTime: Option<real>)
      requires Valid()
      modifies this
      ensures Snapshot() == ScrolledTo(config, old(Snapshot()), ScrollByTarget(old(Snapshot()), delta), animateTime)
      ensures Valid()
    {
      var x := delta.x.GetOr(0.0);
      var y := delta.y.GetOr(0.0);
      ScrollTo(XY(Some(moveable.x.position + x), Some(moveable.y.position + y)), animateTime);
    }

    /** `scrollTop` as written; its own argument is never used. */
    method ScrollTopAsWritten(animateTime: Option<real>)
      requires Valid()
      modifies this
      ensures Snapshot() == ScrolledTopAsWritten(config, old(Snapshot()))
      ensures Valid()
    {
      ScrollTo(XY(None, None), Some(boundaries.y.start));
    }

    /** `scrollBottom` as written; its own argument is never used. */
    method ScrollBottomAsWritten(animateTime: Option<real>)
      requires Valid()
      modifies this
      ensures Snapshot() == ScrolledBottomAsWritten(config, old(Snapshot()))
      ensures Valid()
    {
      ScrollTo(XY(None, None), Some(boundaries.y.end));
    }

    /** `scrollTop` as intended: `y` to the start of its range. */
    method ScrollTop(animateTime: Option<real>)
      requires Valid()
      modifies this
      ensures Snapshot() == ScrolledTop(config, old(Snapshot()), animateTime)
      ensures Valid()
    {
      ScrollTo(XY(None, Some(boundaries.y.start)), animateTime);
    }

    /** `scrollBottom` as intended: `y` to the end of its range. */
    method ScrollBottom(animateTime: Option<real>)
      requires Valid()
      modifies this
      ensures Snapshot() == ScrolledBottom(config, old(Snapshot()), animateTime)
      ensures Valid()
    {
      ScrollTo(XY(None, Some(boundaries.y.end)), animateTime);
    }

    /** `stopPullToRefresh`. */
    method StopPullToRefresh()
      requires Valid()
      modifies this
      ensures Snapshot() == StoppedPullToRefresh(config, old(Snapshot()))
      ensures Valid()
    {
      isPullToRefreshActive := false;
      CheckForBounceStart();
    }

    /** `disableScrolling`. */
    method DisableScrolling(isDisabled: bool)
      requires Valid()
      modifies this
      ensures Snapshot() == ScrollingDisabled(old(Snapshot()), isDisabled)
      ensures Valid()
    {
      commands := commands + [MomentumStop, AnimateStop, TouchDisableScrolling(isDisabled)];
    }

    /** `refresh`: the params are recomputed on the next frame. */
    method Refresh()
      requires Valid()
      modifies this
      ensures Snapshot() == Refreshed(old(Snapshot()))
      ensures Valid()
    {
      commands := commands + [RequestFrame(RecalculateParams)];
    }

    /** `destroy`. */
    method Destroy()
      requires Valid()
      modifies this
      ensures Snapshot() == Destroyed(old(Snapshot()))
      ensures Valid()
    {
      commands := commands + [UnbindEvents, TouchDestroy, MomentumStop, AnimateStop];
      isDestroyed := true;
    }

    // -------------------------------------------------------------------------
    // Lifecycle

    /**
     * `_calculateParams`, with the measured extents as inputs and the record
     * moveable's `left`/`top` as `offset`.
     */
    method CalculateParams(containerSize: XY<real>, moveableSize: XY<real>, offset: XY<real>)
      requires Valid()
      modifies this
      ensures Snapshot() == Calculated(config, old(Snapshot()), containerSize, moveableSize, offset)
      ensures Valid()
    {
      if config.abstractMoveable {
        isAbstractMoveable := true;
      }
      MeasureAxes(containerSize, moveableSize);
      assert boundaries.Get(X) == boundaries.x && boundaries.Get(Y) == boundaries.y;
      if isAbstractMoveable {
        UpdateMoveablePosition(offset);
      }
    }

    /** The per-axis loop of `_calculateParams`: extents and boundaries of each configured axis. */
    method MeasureAxes(containerSize: XY<real>, moveableSize: XY<real>)
      modifies this`containerExtent, this`moveableExtent, this`boundaries
      ensures Snapshot() == old(Snapshot()).(
                containerExtent := UpdateOn(old(containerExtent), config.axes, ValueOf(containerSize)),
                moveableExtent := UpdateOn(old(moveableExtent), config.axes, ValueOf(moveableSize)),
                boundaries := UpdateOn(old(boundaries), config.axes, BoundaryOf(containerSize, moveableSize)))
    {
      ghost var s0 := Snapshot();
      for i := 0 to |config.axes|
        invariant containerExtent == UpdateOn(s0.containerExtent, config.axes[..i], ValueOf(containerSize))
        invariant moveableExtent == UpdateOn(s0.moveableExtent, config.axes[..i], ValueOf(moveableSize))
        invariant boundaries == UpdateOn(s0.boundaries, config.axes[..i], BoundaryOf(containerSize, moveableSize))
      {
        var a := config.axes[i];
        UpdateOnStep(s0.containerExtent, config.axes, i, ValueOf(containerSize));
        UpdateOnStep(s0.moveableExtent, config.axes, i, ValueOf(moveableSize));
        UpdateOnStep(s0.boundaries, config.axes, i, BoundaryOf(containerSize, moveableSize));
        containerExtent := containerExtent.With(a, containerSize.Get(a));
        moveableExtent := moveableExtent.With(a, moveableSize.Get(a));
        var end := moveableExtent.Get(a) - containerExtent.Get(a);
        if end < 0.0 {
          end := 0.0;
        }
        boundaries := boundaries.With(a, Boundary(0.0, end));
      }
      assert config.axes[..|config.axes|] == config.axes;
    }

    // -------------------------------------------------------------------------
    // Event handlers

    /** `_onTouchStart`. */
    method OnTouchStart()
      requires Valid()
      modifies this
      ensures Snapshot() == TouchStarted(old(Snapshot()))
      ensures Valid()
    {
      isTouchActive := true;
      commands := commands + [MomentumStop, AnimateStop];
    }

    /** The body of `_onPush`'s per-axis callback: the new coordinate and whether momentum stops. */
    method PushAxis(a: Axis, push: Push, ghost s: State) returns (position: real, stopMomentum: bool)
      requires ConfigOk(config)
      requires s.moveable == moveable && s.boundaries == boundaries
      requires s.isTouchActive == isTouchActive && s.isMomentumOnAxis == isMomentumOnAxis
      ensures PushOutcome(position, stopMomentum) == PushedAxis(config, s, a, push)
    {
      var m := moveable.Get(a);
      var pxToAdd := push.px * (push.direction as real) * -1.0;
      if config.overscroll {
        // for non-touch pushes (momentum) the smaller allowance applies
        var maxOverscroll := if isTouchActive then config.maxTouchOverscroll else config.maxMomentumOverscroll;
        position, stopMomentum := PushWithOverscroll(m, maxOverscroll, isMomentumOnAxis.Get(a), pxToAdd, push.direction);
      } else {
        position, stopMomentum := PushWithinBoundaries(boundaries.Get(a), m.position + pxToAdd);
      }
    }

    /** The overscrolling branch of `_onPush`: a push deepening the overscroll is damped. */
    method PushWithOverscroll(m: AxisPosition, maxOverscroll: real, momentumOnAxis: bool, pxToAdd: real, direction: int)
      returns (position: real, stopMomentum: bool)
      requires maxOverscroll != 0.0
      ensures PushOutcome(position, stopMomentum) == DampedPush(config, m, maxOverscroll, momentumOnAxis, pxToAdd, direction)
    {
      stopMomentum := false;
      var delta := pxToAdd;
      if m.overscroll > 0.0 && direction == m.overscrollDirection {
        var multiplier := EaseLinear(m.overscroll, 1.0, -1.0, maxOverscroll);
        delta := delta * multiplier;
        if momentumOnAxis && (multiplier < config.minMomentumMultiplier || Abs(delta) < config.minMomentumPush) {
          stopMomentum := true;
        }
      }
      position := m.position + delta;
    }

    /** The constraining branch of `_onPush`: the position is kept inside the boundaries. */
    method PushWithinBoundaries(b: Boundary, next: real) returns (position: real, stopMomentum: bool)
      ensures PushOutcome(position, stopMomentum) == ClampedPush(b, next)
    {
      position := next;
      stopMomentum := false;
      if position < b.start {
        position := b.start;
        stopMomentum := true;
      } else if position > b.end {
        position := b.end;
        stopMomentum := true;
      }
    }

    /** `_onPush`, the handler of both touch and momentum pushes. */
    method OnPush(pushBy: XY<Push>)
      requires Valid()
      modifies this
      ensures Snapshot() == Pushed(config, old(Snapshot()), pushBy)
      ensures Valid()
    {
      ghost var s0 := Snapshot();
      var newPosition := PushAxes(pushBy);
      assert Snapshot() == s0.(commands := s0.commands + Collect(config.axes, PushStopOf(config, s0, pushBy)));
      UpdateMoveablePosition(newPosition);
    }

    /** The per-axis loop of `_onPush`: the pushed coordinates, and momentum stopped where a push asks for it. */
    method PushAxes(pushBy: XY<Push>) returns (newPosition: XY<real>)
      requires ConfigOk(config)
      modifies this`commands
      ensures newPosition == UpdateOn(PushSeed(old(Snapshot())), config.axes, PushedPositionOf(config, old(Snapshot()), pushBy))
      ensures commands == old(commands) + Collect(config.axes, PushStopOf(config, old(Snapshot()), pushBy))
    {
      ghost var s0 := Snapshot();
      newPosition := XY(moveable.x.position, moveable.x.position);
      for i := 0 to |config.axes|
        invariant newPosition == UpdateOn(PushSeed(s0), config.axes[..i], PushedPositionOf(config, s0, pushBy))
        invariant commands == s0.commands + Collect(config.axes[..i], PushStopOf(config, s0, pushBy))
      {
        var a := config.axes[i];
        UpdateOnStep(PushSeed(s0), config.axes, i, PushedPositionOf(config, s0, pushBy));
        CollectStep(config.axes, i, PushStopOf(config, s0, pushBy));
        var position, stopMomentum := PushAxis(a, pushBy.Get(a), s0);
        newPosition := newPosition.With(a, position);
        if stopMomentum {
          commands := commands + [MomentumStopOnAxis(a)];
        }
      }
      assert config.axes[..|config.axes|] == config.axes;
    }

    /** `_onTouchEnd`. */
    method OnTouchEnd()
      requires Valid()
      modifies this
      ensures Snapshot() == TouchEnded(config, old(Snapshot()))
      ensures Valid()
    {
      ghost var s0 := Snapshot();
      isTouchActive := false;
      if isPullToRefreshActive {
        events := events + [StartPullToRefresh];
      } else {
        assert events == s0.events + [];
      }
      assert Snapshot() == s0.(isTouchActive := false,
                               events := s0.events + if s0.isPullToRefreshActive then [StartPullToRefresh] else []);
      CheckForBounceStart();
      CheckForPositionStable();
    }

    /** `_onTouchEndWithMomentum`. */
    method OnTouchEndWithMomentum(momentum: XY<Push>)
      requires Valid()
      modifies this
      ensures Snapshot() == TouchEndedWithMomentum(config, old(Snapshot()), momentum)
      ensures Valid()
    {
      ghost var s0 := Snapshot();
      for i := 0 to |config.axes|
        invariant Snapshot() == s0.(commands := commands)
        invariant commands == s0.commands + Collect(config.axes[..i], MomentumStartOf(s0.moveable, momentum))
      {
        var a := config.axes[i];
        CollectStep(config.axes, i, MomentumStartOf(s0.moveable, momentum));
        if moveable.Get(a).overscrollDirection == 0 {
          commands := commands + [MomentumStartOnAxis(a, momentum.Get(a))];
        }
      }
      CollectAll(config.axes, MomentumStartOf(s0.moveable, momentum));
    }

    /** `_onMomentumStartOnAxis`. */
    method OnMomentumStartOnAxis(axis: Axis)
      requires Valid()
      modifies this
      ensures Snapshot() == old(Snapshot()).(isMomentumOnAxis := old(isMomentumOnAxis).With(axis, true))
      ensures Valid()
    {
      isMomentumOnAxis := isMomentumOnAxis.With(axis, true);
    }

    /** `_onMomentumEndOnAxis`. */
    method OnMomentumEndOnAxis(axis: Axis)
      requires Valid()
      modifies this
      ensures Snapshot() == MomentumEndedOnAxis(config, old(Snapshot()), axis)
      ensures Valid()
    {
      isMomentumOnAxis := isMomentumOnAxis.With(axis, false);
      CheckForBounceStartOnAxis(axis);
      assert Snapshot() == MomentumEndedOnAxis(config, old(Snapshot()), axis);
    }

    /** `_onAnimateStartOnAxis`. */
    method OnAnimateStartOnAxis(axis: Axis)
      requires Valid()
      modifies this
      ensures Snapshot() == old(Snapshot()).(isAnimatingOnAxis := old(isAnimatingOnAxis).With(axis, true))
      ensures Valid()
    {
      isAnimatingOnAxis := isAnimatingOnAxis.With(axis, true);
    }

    /** `_onAnimatePositionChange`. */
    method OnAnimatePositionChange(position: XY<real>)
      requires Valid()
      modifies this
      ensures Snapshot() == AnimatePositionChanged(config, old(Snapshot()), position)
      ensures Valid()
    {
      var newPosition := XY(if isAnimatingOnAxis.x then position.x else moveable.x.position,
                            if isAnimatingOnAxis.y then position.y else moveable.y.position);
      UpdateMoveablePosition(newPosition);
    }

    /** `_onAnimateEndOnAxis`. */
    method OnAnimateEndOnAxis(axis: Axis)
      requires Valid()
      modifies this
      ensures Snapshot() == old(Snapshot()).(isAnimatingOnAxis := old(isAnimatingOnAxis).With(axis, false))
      ensures Valid()
    {
      isAnimatingOnAxis := isAnimatingOnAxis.With(axis, false);
    }

    // -------------------------------------------------------------------------
    // Condition checkers

    /** `_checkForBounceStart`. */
    method CheckForBounceStart()
      modifies this`commands
      ensures Snapshot() == CheckedBounce(config, old(Snapshot()))
    {
      ghost var s0 := Snapshot();
      for i := 0 to |config.axes|
        invariant commands == s0.commands + Collect(config.axes[..i], BounceCommandOf(config, s0))
      {
        var a := config.axes[i];
        CollectStep(config.axes, i, BounceCommandOf(config, s0));
        BounceCommandReadsState(config, Snapshot(), s0, a);
        CheckForBounceStartOnAxis(a);
      }
      CollectAll(config.axes, BounceCommandOf(config, s0));
    }

    /** `_checkForBounceStartOnAxis`; the Bounce engine supplies the default time and easing. */
    method CheckForBounceStartOnAxis(axis: Axis)
      modifies this`commands
      ensures commands == old(commands) + BounceCommandOf(config, old(Snapshot()))(axis)
    {
      var m := moveable.Get(axis);
      if isTouchActive || isAnimatingOnAxis.Get(axis) || isMomentumOnAxis.Get(axis) || m.overscrollDirection == 0 {
        return;
      }
      var scrollTarget := if m.overscrollDirection > 0 then boundaries.Get(axis).start else boundaries.Get(axis).end;
      if isPullToRefreshActive {
        scrollTarget := scrollTarget - config.pullToRefreshMargin * (m.overscrollDirection as real);
      }
      assert BounceTarget(config, Snapshot(), axis).value == scrollTarget;
      commands := commands + [AnimateStartOnAxis(axis, m.position, scrollTarget, 0.0, "")];
    }

    /** `_checkForPositionStable`, also the handler of the engines' end events. */
    method CheckForPositionStable()
      modifies this
      ensures Snapshot() == CheckedStable(old(Snapshot()))
    {
      if isTouchActive || isAnimatingOnAxis.x || isAnimatingOnAxis.y || isMomentumOnAxis.x || isMomentumOnAxis.y {
        return;
      }
      events := events + [PositionStable(isTouchActive, moveable)];
    }

    // -------------------------------------------------------------------------
    // Movement and positioning

    /** The overscroll bookkeeping of one axis of `_updateMoveablePosition`. */
    method OverscrollAxis(b: Boundary, m: AxisPosition, target: real) returns (r: AxisPosition)
      requires ConfigOk(config) && config.overscroll
      ensures r == Overscrolled(config, b, m, target)
    {
      r := m;
      if target < b.start {
        r := r.(overscroll := b.start - target, overscrollDirection := 1);
      } else if target > b.end {
        r := r.(overscroll := target - b.end, overscrollDirection := -1);
      } else {
        r := r.(overscroll := 0.0, overscrollDirection := 0);
      }
      assert Overscroll(r.overscroll, r.overscrollDirection) == OverscrollAt(b, target);
      var pull := r.overscroll * 1.1 / config.pullToRefreshOverscroll;
      if pull < 0.0 {
        pull := 0.0;
      }
      if pull > 1.0 {
        pull := 1.0;
      }
      r := r.(overscrollPull := pull);
    }

    /** The position and progress bookkeeping of one axis of `_updateMoveablePosition`. */
    method MoveAxis(b: Boundary, m: AxisPosition, target: real) returns (r: AxisPosition)
      ensures r == if m.position != target then m.(position := target, progress := Progress(b, target)) else m
    {
      r := m;
      if r.position != target {
        r := r.(position := target);
        if b.end > 0.0 {
          r := r.(progress := r.position / b.end);
        } else {
          r := r.(progress := 1.0);
        }
      }
    }

    /** One axis of `_updateMoveablePosition`. */
    method UpdateAxis(axis: Axis, target: real) returns (changed: bool)
      requires ConfigOk(config)
      modifies this`moveable, this`isPullToRefreshActive
      ensures moveable == old(moveable).With(axis, AxisAfterUpdate(config, boundaries.Get(axis), old(moveable).Get(axis), target))
      ensures isPullToRefreshActive == (old(isPullToRefreshActive)
                || (config.overscroll && config.pullToRefresh && isTouchActive
                    && Pull(config.pullToRefreshOverscroll, OverscrollAt(boundaries.Get(axis), target).amount) >= 1.0))
      ensures changed == (old(moveable).Get(axis).position != target)
    {
      var m := moveable.Get(axis);
      var b := boundaries.Get(axis);
      if config.overscroll {
        m := OverscrollAxis(b, m, target);
        if config.pullToRefresh && isTouchActive && m.overscrollPull >= 1.0 {
          isPullToRefreshActive := true;
        }
      }
      changed := m.position != target;
      m := MoveAxis(b, m, target);
      moveable := moveable.With(axis, m);
    }

    /** `_updateMoveablePosition`. */
    method UpdateMoveablePosition(newPosition: XY<real>)
      requires Valid()
      modifies this
      ensures Snapshot() == Updated(config, old(Snapshot()), newPosition)
      ensures Valid()
    {
      ghost var s0 := Snapshot();
      var positionHasChanged := UpdateAxes(newPosition);
      if positionHasChanged {
        events := events + [PositionChange(isTouchActive, moveable)];
      }
      UpdatedKeepsInv(config, s0, newPosition);
    }

    /** The per-axis loop of `_updateMoveablePosition`; the result says whether some coordinate changed. */
    method UpdateAxes(newPosition: XY<real>) returns (positionHasChanged: bool)
      requires ConfigOk(config)
      modifies this`moveable, this`isPullToRefreshActive
      ensures moveable == UpdateOn(old(moveable), config.axes, AxisAfterUpdateOf(config, old(Snapshot()), newPosition))
      ensures isPullToRefreshActive == (old(isPullToRefreshActive) || PullTriggered(config, old(Snapshot()), newPosition))
      ensures positionHasChanged == OnSome(config.axes, ChangedOf(old(moveable), newPosition))
    {
      ghost var s0 := Snapshot();
      positionHasChanged := false;
      for i := 0 to |config.axes|
        invariant moveable == UpdateOn(s0.moveable, config.axes[..i], AxisAfterUpdateOf(config, s0, newPosition))
        invariant isPullToRefreshActive == (s0.isPullToRefreshActive
          || (config.overscroll && config.pullToRefresh && s0.isTouchActive
              && OnSome(config.axes[..i], PullHitOf(config, s0, newPosition))))
        invariant positionHasChanged == OnSome(config.axes[..i], ChangedOf(s0.moveable, newPosition))
      {
        var a := config.axes[i];
        UpdateOnStep(s0.moveable, config.axes, i, AxisAfterUpdateOf(config, s0, newPosition));
        OnSomeStep(config.axes, i, PullHitOf(config, s0, newPosition));
        OnSomeStep(config.axes, i, ChangedOf(s0.moveable, newPosition));
        DistinctPrefix(config.axes, i);
        assert moveable.Get(a) == s0.moveable.Get(a);
        var changed := UpdateAxis(a, newPosition.Get(a));
        positionHasChanged := positionHasChanged || changed;
      }
      assert config.axes[..|config.axes|] == config.axes;
    }

    // -------------------------------------------------------------------------
    // Helpers

    /** `_getScrollTarget`. */
    method GetScrollTarget(position: XY<Option<real>>) returns (scrollTarget: XY<real>)
      ensures scrollTarget == ScrollTarget(config, Snapshot(), position)
    {
      scrollTarget := XY(0.0, 0.0);
      for i := 0 to |config.axes|
        invariant scrollTarget == UpdateOn(XY(0.0, 0.0), config.axes[..i], ScrollTargetOf(Snapshot(), position))
      {
        var a := config.axes[i];
        UpdateOnStep(XY(0.0, 0.0), config.axes, i, ScrollTargetOf(Snapshot(), position));
        var b := boundaries.Get(a);
        match position.Get(a) {
          case None =>
            scrollTarget := scrollTarget.With(a, moveable.Get(a).position);
          case Some(v) =>
            if v < b.start {
              scrollTarget := scrollTarget.With(a, b.start);
            } else if v > b.end {
              scrollTarget := scrollTarget.With(a, b.end);
            } else {
              scrollTarget := scrollTarget.With(a, v);
            }
        }
      }
      assert config.axes[..|config.axes|] == config.axes;
    }
  }
}
