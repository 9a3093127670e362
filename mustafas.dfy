/**
 * The older coordinator (src/Mustafas.js), in its negative-coordinate
 * convention: a coordinate runs from `axisStart` (0, content at its start)
 * down to `axisEnd` (content at its end). Modelled: the boundary computation,
 * the damping or clamping of input pushes, the freeze guard of `scrollTo`, and
 * `scrollBy` as written. The animated scrolling this coordinator carries
 * (src/Mustafas.js:350-437) is the same code as src/AnimatedScroll.js and is
 * delegated to an `AnimatedScroll` object.
 */
module Mustafas {
  import opened Common
  import opened Utils
  import opened ValidPosition
  import opened AnimatedScrolling

  datatype Boundary = Boundary(axisStart: real, axisEnd: real)

  /**
   * `overscroll` allows pushing beyond the boundaries; `maxTouchOverscroll` is
   * the overscroll distance at which a push is damped to nothing.
   */
  datatype Config = Config(axes: seq<Axis>, overscroll: bool, maxTouchOverscroll: real)

  // ---------------------------------------------------------------------------
  // Boundaries

  /**
   * The boundary of one axis from the container and moveable extents: the
   * start is 0 and the end is `container - moveable`, so the end lies at or
   * before the start exactly when the moveable is at least as large as the
   * container.
   */
  function BoundaryOf(containerExtent: real, moveableExtent: real): (b: Boundary)
    ensures b.axisStart == 0.0
    ensures b.axisEnd <= b.axisStart <==> containerExtent <= moveableExtent
  {
    Boundary(0.0, containerExtent - moveableExtent)
  }

  // ---------------------------------------------------------------------------
  // Pushes

  /**
   * The multiplier applied to a push while overscroll is allowed: a push
   * further past the start (`direction > 0`, coordinate above `axisStart`) or
   * further past the end (`direction < 0`, coordinate below `axisEnd`) is
   * scaled by the linear damping of the overscroll distance; any other push is
   * unscaled.
   */
  function Damping(maxTouchOverscroll: real, b: Boundary, pos: real, push: Push): real
    requires maxTouchOverscroll != 0.0
  {
    if push.direction > 0 && pos > b.axisStart then EaseLinear(Abs(pos), 1.0, -1.0, maxTouchOverscroll)
    else if push.direction < 0 && pos < b.axisEnd then EaseLinear(Abs(b.axisEnd - pos), 1.0, -1.0, maxTouchOverscroll)
    else 1.0
  }

  /** The new coordinate `_handlePushBy` computes for one configured axis. */
  function PushedCoordinate(c: Config, b: Boundary, pos: real, push: Push): real
    requires c.maxTouchOverscroll != 0.0
  {
    var pxToAdd := push.px * push.direction as real;
    if c.overscroll then pos + pxToAdd * Damping(c.maxTouchOverscroll, b, pos, push)
    else
      var raw := pos + pxToAdd;
      if raw > b.axisStart then b.axisStart
      else if raw < b.axisEnd then b.axisEnd
      else raw
  }

  /**
   * Without overscroll, a pushed coordinate always lands between `axisEnd` and
   * `axisStart`: a push that would end above `axisStart` stops at `axisStart`,
   * one that would end below `axisEnd` stops at `axisEnd`, and a push that
   * stays inside them is applied undamped.
   */
  lemma PushClampedWithoutOverscroll(c: Config, b: Boundary, pos: real, push: Push)
    requires c.maxTouchOverscroll != 0.0 && !c.overscroll
    requires b.axisEnd <= b.axisStart
    ensures var r := PushedCoordinate(c, b, pos, push);
      var raw := pos + push.px * push.direction as real;
      && b.axisEnd <= r <= b.axisStart
      && (raw > b.axisStart ==> r == b.axisStart)
      && (raw < b.axisEnd ==> r == b.axisEnd)
      && (b.axisEnd <= raw <= b.axisStart ==> r == raw)
  {
  }

  /** With overscroll allowed, a push from inside the boundaries is applied undamped. */
  lemma PushInsideUndamped(c: Config, b: Boundary, pos: real, push: Push)
    requires c.maxTouchOverscroll != 0.0 && c.overscroll
    requires b.axisEnd <= pos <= b.axisStart
    ensures PushedCoordinate(c, b, pos, push) == pos + push.px * push.direction as real
  {
  }

  /**
   * With overscroll allowed and the start at 0, a further push past the start
   * moves the coordinate in the push's direction by no more than the undamped
   * push while the overscroll is within `maxTouchOverscroll`; and the further
   * the coordinate already is past the start, the smaller the move.
   */
  lemma PushPastStartDamped(c: Config, b: Boundary, p1: real, p2: real, push: Push)
    requires c.overscroll && c.maxTouchOverscroll > 0.0
    requires b.axisStart == 0.0 && push.direction > 0 && push.px >= 0.0
    requires b.axisStart < p1 <= p2 <= c.maxTouchOverscroll
    ensures var raw := push.px * push.direction as real;
      var m1 := PushedCoordinate(c, b, p1, push) - p1;
      var m2 := PushedCoordinate(c, b, p2, push) - p2;
      && 0.0 <= m2 <= m1 <= raw
  {
    var raw := push.px * push.direction as real;
    assert raw >= 0.0 by { MonotoneScale(push.px, 0.0, push.direction as real); }
    var f1 := EaseLinear(p1, 1.0, -1.0, c.maxTouchOverscroll);
    var f2 := EaseLinear(p2, 1.0, -1.0, c.maxTouchOverscroll);
    assert PushedCoordinate(c, b, p1, push) - p1 == raw * f1;
    assert PushedCoordinate(c, b, p2, push) - p2 == raw * f2;
    DampingInUnitRange(p1, c.maxTouchOverscroll);
    DampingInUnitRange(p2, c.maxTouchOverscroll);
    DampingNonIncreasing(p1, p2, c.maxTouchOverscroll);
    MonotoneScale(raw, f2, f1);
    ScaledByFraction(raw, f1);
    ScaledByFraction(raw, f2);
  }

  /**
   * The mirror image at the end: a further push past `axisEnd` moves the
   * coordinate towards smaller values by no more than the undamped push while
   * the overscroll is within `maxTouchOverscroll`, and by less the further it
   * already is past the end.
   */
  lemma PushPastEndDamped(c: Config, b: Boundary, p1: real, p2: real, push: Push)
    requires c.overscroll && c.maxTouchOverscroll > 0.0
    requires push.direction < 0 && push.px >= 0.0
    requires b.axisEnd - c.maxTouchOverscroll <= p2 <= p1 < b.axisEnd
    ensures var raw := push.px * push.direction as real;
      var m1 := PushedCoordinate(c, b, p1, push) - p1;
      var m2 := PushedCoordinate(c, b, p2, push) - p2;
      && raw <= m1 <= m2 <= 0.0
  {
    var raw := push.px * push.direction as real;
    var f1 := EaseLinear(b.axisEnd - p1, 1.0, -1.0, c.maxTouchOverscroll);
    var f2 := EaseLinear(b.axisEnd - p2, 1.0, -1.0, c.maxTouchOverscroll);
    assert Abs(b.axisEnd - p1) == b.axisEnd - p1 && Abs(b.axisEnd - p2) == b.axisEnd - p2;
    DampingInUnitRange(b.axisEnd - p1, c.maxTouchOverscroll);
    DampingInUnitRange(b.axisEnd - p2, c.maxTouchOverscroll);
    DampingNonIncreasing(b.axisEnd - p1, b.axisEnd - p2, c.maxTouchOverscroll);
    assert raw <= 0.0;
    MonotoneScaleNegative(raw, f2, f1);
    MonotoneScaleNegative(raw, f1, 1.0);
    MonotoneScaleNegative(raw, 0.0, f2);
  }

  /** The body of `_handlePushBy`'s per-axis callback. */
  method PushAxis(c: Config, b: Boundary, pos: real, push: Push) returns (next: real)
    requires c.maxTouchOverscroll != 0.0
    ensures next == PushedCoordinate(c, b, pos, push)
  {
    var pxToAdd := push.px * push.direction as real;
    next := pos + pxToAdd;
    if c.overscroll {
      if push.direction > 0 && pos > b.axisStart {
        pxToAdd := pxToAdd * EaseLinear(Abs(pos), 1.0, -1.0, c.maxTouchOverscroll);
      } else if push.direction < 0 && pos < b.axisEnd {
        var rightBottom := b.axisEnd - pos;
        pxToAdd := pxToAdd * EaseLinear(Abs(rightBottom), 1.0, -1.0, c.maxTouchOverscroll);
      }
      next := pos + pxToAdd;
    } else {
      if next > b.axisStart {
        next := b.axisStart;
      } else if next < b.axisEnd {
        next := b.axisEnd;
      }
    }
  }

  // ---------------------------------------------------------------------------
  // scrollTo

  /**
   * The animated-scroll state after `scrollTo(left, top, shouldAnimate,
   * scrollSpeed)` on a coordinator that is not frozen; `weights` are the
   * direction weights towards the target.
   */
  function ScrolledTo(c: AnimatedScrolling.Config, s: State, left: real, top: real,
                      shouldAnimate: bool, scrollSpeed: real, weights: XY<real>): State {
    var idle := if s.isAnimatedScrolling then Stopped(s) else s;
    if shouldAnimate then Started(c, idle, XY(left, top), scrollSpeed, weights)
    else idle.(written := idle.written + [XY(left, top)])
  }

  /**
   * A `scrollTo` never leaves an earlier animated scroll running: without
   * animation it writes exactly the requested position and nothing is
   * animating; with animation a new scroll starts from the current position
   * at full speed.
   */
  lemma ScrolledToReplacesRunningScroll(c: AnimatedScrolling.Config, s: State, left: real, top: real,
                                        shouldAnimate: bool, scrollSpeed: real, weights: XY<real>)
    requires AnimatedScrolling.Inv(c, s)
    ensures var r := ScrolledTo(c, s, left, top, shouldAnimate, scrollSpeed, weights);
      && AnimatedScrolling.Inv(c, r)
      && r.position == s.position
      && (!shouldAnimate ==>
            && !r.isAnimatedScrolling && !(s.isAnimatedScrolling && r.frameRequested)
            && r.written == s.written + [XY(left, top)])
      && (shouldAnimate ==>
            && r.isAnimatedScrolling && r.startingPosition == s.position
            && r.pxPerFrame == r.maxPxPerFrame && r.written == s.written)
  {
    var idle := if s.isAnimatedScrolling then Stopped(s) else s;
    assert AnimatedScrolling.Inv(c, idle);
    if shouldAnimate {
      StartedEffect(c, idle, XY(left, top), scrollSpeed, weights);
    }
  }

  // ---------------------------------------------------------------------------
  // The coordinator object

  class Mustafas {
    const config: Config
    const scroller: AnimatedScroll
    var container: XY<real>
    var moveableExtent: XY<real>
    var moveable: XY<real>
    var boundaries: XY<Boundary>
    var isScrollFrozen: bool

    ghost predicate Valid()
      reads this, scroller
    {
      && ValidAxes(config.axes)
      && config.maxTouchOverscroll != 0.0
      && scroller.Valid()
      && scroller.config.axes == config.axes
    }

    /**
     * A coordinator driving `scroller`, not frozen, with the moveable at the
     * origin; the constructor ends with `_calculateParams` on the container's
     * client extents, so both extents are those and every configured axis has
     * the boundary `[0, 0]`.
     */
    constructor (config: Config, scroller: AnimatedScroll, clientWidth: real, clientHeight: real)
      requires ValidAxes(config.axes) && config.maxTouchOverscroll != 0.0 && scroller.Valid()
      requires scroller.config.axes == config.axes
      ensures Valid() && this.config == config && this.scroller == scroller
      ensures container == XY(clientWidth, clientHeight) && moveableExtent == container
      ensures moveable == XY(0.0, 0.0) && !isScrollFrozen
      ensures forall a :: boundaries.Get(a) ==
                if a in config.axes then BoundaryOf(container.Get(a), moveableExtent.Get(a))
                else Boundary(0.0, 0.0)
      ensures boundaries == XY(Boundary(0.0, 0.0), Boundary(0.0, 0.0))
    {
      this.config := config;
      this.scroller := scroller;
      container := XY(0.0, 0.0);
      moveableExtent := XY(0.0, 0.0);
      moveable := XY(0.0, 0.0);
      boundaries := XY(Boundary(0.0, 0.0), Boundary(0.0, 0.0));
      isScrollFrozen := false;
      new;
      CalculateParams(clientWidth, clientHeight);
      assert boundaries.x == boundaries.Get(X) && boundaries.y == boundaries.Get(Y);
    }

    /**
     * `_calculateParams` with the container's client extents. The moveable's
     * extents are copied from the container's, so as written every configured
     * axis ends up with `axisEnd == 0`.
     */
    method CalculateParams(clientWidth: real, clientHeight: real)
      modifies this
      ensures container == XY(clientWidth, clientHeight) && moveableExtent == container
      ensures forall a :: boundaries.Get(a) ==
                if a in config.axes then BoundaryOf(container.Get(a), moveableExtent.Get(a))
                else old(boundaries.Get(a))
      ensures forall a :: a in config.axes ==> boundaries.Get(a) == Boundary(0.0, 0.0)
      ensures moveable == old(moveable) && isScrollFrozen == old(isScrollFrozen)
    {
      container := XY(clientWidth, clientHeight);
      moveableExtent := XY(clientWidth, clientHeight);
      ghost var b0 := boundaries;
      for i := 0 to |config.axes|
        invariant container == XY(clientWidth, clientHeight) && moveableExtent == container
        invariant moveable == old(moveable) && isScrollFrozen == old(isScrollFrozen)
        invariant forall a :: boundaries.Get(a) ==
                    if a in config.axes[..i] then BoundaryOf(container.Get(a), moveableExtent.Get(a))
                    else b0.Get(a)
      {
        PrefixStep(config.axes, i);
        var a := config.axes[i];
        boundaries := boundaries.With(a, Boundary(0.0, container.Get(a) - moveableExtent.Get(a)));
      }
      assert config.axes[..|config.axes|] == config.axes;
    }

    /**
     * `_handlePushBy`, up to the coordinates it hands on: each configured axis
     * takes its pushed coordinate, any other axis keeps the moveable's.
     */
    method HandlePushBy(pushBy: XY<Push>) returns (newCoordinates: XY<real>)
      requires Valid()
      ensures forall a :: newCoordinates.Get(a) ==
                if a in config.axes then PushedCoordinate(config, boundaries.Get(a), moveable.Get(a), pushBy.Get(a))
                else moveable.Get(a)
    {
      newCoordinates := moveable;
      for i := 0 to |config.axes|
        invariant forall a :: newCoordinates.Get(a) ==
                    if a in config.axes[..i] then PushedCoordinate(config, boundaries.Get(a), moveable.Get(a), pushBy.Get(a))
                    else moveable.Get(a)
      {
        PrefixStep(config.axes, i);
        var a := config.axes[i];
        var next := PushAxis(config, boundaries.Get(a), moveable.Get(a), pushBy.Get(a));
        newCoordinates := newCoordinates.With(a, next);
      }
      assert config.axes[..|config.axes|] == config.axes;
    }

    /**
     * `scrollTo(left, top, shouldAnimate, scrollSpeed)`: nothing happens while
     * frozen; otherwise a running animated scroll is stopped before the new
     * one starts or the position is set.
     */
    method ScrollTo(left: real, top: real, shouldAnimate: bool, scrollSpeed: real, weights: XY<real>)
      requires Valid()
      modifies scroller
      ensures Valid()
      ensures old(isScrollFrozen) ==> scroller.Snapshot() == old(scroller.Snapshot())
      ensures !old(isScrollFrozen) ==>
                scroller.Snapshot() == ScrolledTo(scroller.config, old(scroller.Snapshot()), left, top,
                                                  shouldAnimate, scrollSpeed, weights)
      ensures isScrollFrozen == old(isScrollFrozen) && moveable == old(moveable)
      ensures boundaries == old(boundaries)
      ensures container == old(container) && moveableExtent == old(moveableExtent)
    {
      if isScrollFrozen {
        return;
      }
      if scroller.isAnimatedScrolling {
        scroller.StopAnimatedScroll();
      }
      if shouldAnimate {
        scroller.StartAnimatedScroll(XY(left, top), scrollSpeed, weights);
      } else {
        scroller.SetPosition(XY(left, top));
      }
    }

    /** `scrollBy(left, top, …)` as written: both coordinates are offsets from the x position. */
    method ScrollBy(left: real, top: real, shouldAnimate: bool, scrollSpeed: real, weights: XY<real>)
      requires Valid()
      modifies scroller
      ensures Valid()
      ensures old(isScrollFrozen) ==> scroller.Snapshot() == old(scroller.Snapshot())
      ensures !old(isScrollFrozen) ==>
                scroller.Snapshot() == ScrolledTo(scroller.config, old(scroller.Snapshot()),
                                                  old(scroller.position.x) + left, old(scroller.position.x) + top,
                                                  shouldAnimate, scrollSpeed, weights)
      ensures isScrollFrozen == old(isScrollFrozen) && moveable == old(moveable)
      ensures boundaries == old(boundaries)
      ensures container == old(container) && moveableExtent == old(moveableExtent)
    {
      ScrollTo(scroller.position.x + left, scroller.position.x + top, shouldAnimate, scrollSpeed, weights);
    }

    /**
     * `freezeScroll(shouldFreeze)`: only an explicit `false` unfreezes; any
     * other argument, an absent one included, freezes and stops a running
     * animated scroll.
     */
    method FreezeScroll(shouldFreeze: Option<bool>)
      requires Valid()
      modifies this`isScrollFrozen, scroller
      ensures Valid()
      ensures isScrollFrozen <==> shouldFreeze != Some(false)
      ensures isScrollFrozen ==> !scroller.isAnimatedScrolling
      ensures isScrollFrozen && old(scroller.isAnimatedScrolling) ==>
                scroller.Snapshot() == Stopped(old(scroller.Snapshot()))
      ensures !(isScrollFrozen && old(scroller.isAnimatedScrolling)) ==>
                scroller.Snapshot() == old(scroller.Snapshot())
      ensures moveable == old(moveable) && boundaries == old(boundaries)
      ensures container == old(container) && moveableExtent == old(moveableExtent)
    {
      isScrollFrozen := if shouldFreeze == Some(false) then false else true;
      if isScrollFrozen && scroller.isAnimatedScrolling {
        scroller.StopAnimatedScroll();
      }
    }
  }
}
