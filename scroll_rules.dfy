/**
 * The rules of the coordinator in src/ShbScroll.js, as functions of its state.
 *
 * The coordinator owns the authoritative per-axis position of the moveable and
 * the per-axis boundaries. It turns pushes (from the touch collaborator and
 * from Momentum) and animated positions (from the Bounce engine, which it
 * imports as `Animate`) into positions, derives overscroll, pull and progress
 * from them, and decides when to start a bounce and when the position is
 * stable. Calls it makes into its collaborators are logged as `Command`s; the
 * events the collaborators send back arrive as separate calls.
 */
module ScrollRules {
  import opened Common
  import opened Utils

  /**
   * The coordinator's configuration. `abstractMoveable` says whether the
   * moveable is a plain `{ width, height, left, top }` record rather than a DOM
   * node; the DOM references themselves are not modelled.
   */
  datatype Config = Config(
    axes: seq<Axis>,
    overscroll: bool,
    abstractMoveable: bool,
    maxTouchOverscroll: real,
    maxMomentumOverscroll: real,
    minMomentumPush: real,
    minMomentumMultiplier: real,
    pullToRefresh: bool,
    pullToRefreshOverscroll: real,
    pullToRefreshMargin: real)

  /** The defaults: scrolling on `y` only, overscroll allowed, pull-to-refresh off. */
  function DefaultConfig(abstractMoveable: bool): Config {
    Config([Y], true, abstractMoveable, 150.0, 100.0, 1.75, 0.25, false, 100.0, 50.0)
  }

  /**
   * The configurations the model accepts: distinct axes and positive maxima
   * (the source divides by all three).
   */
  predicate ConfigOk(c: Config) {
    && ValidAxes(c.axes)
    && c.maxTouchOverscroll > 0.0
    && c.maxMomentumOverscroll > 0.0
    && c.pullToRefreshOverscroll > 0.0
  }

  /** The scrollable range of one axis. */
  datatype Boundary = Boundary(start: real, end: real)

  /** The per-axis record `_private.moveable[xy]`. */
  datatype AxisPosition = AxisPosition(
    position: real,
    progress: real,
    overscroll: real,
    overscrollDirection: int,
    overscrollPull: real)

  const Resting := AxisPosition(0.0, 0.0, 0.0, 0, 0.0)

  /** The events the coordinator dispatches to its listeners. */
  datatype Event =
    | PositionChange(isTouchActive: bool, moveable: XY<AxisPosition>)
    | PositionStable(isTouchActive: bool, moveable: XY<AxisPosition>)
    | StartPullToRefresh

  /** Work scheduled with `requestAnimationFrame`. */
  datatype FrameJob = UpdatePosition(target: XY<real>) | RecalculateParams

  /**
   * Calls into the collaborators. A Bounce start that the source makes without
   * an animation time or easing name carries `0.0` and `""`, which the Bounce
   * engine replaces by its defaults.
   */
  datatype Command =
    | MomentumStop
    | MomentumStopOnAxis(axis: Axis)
    | MomentumStartOnAxis(axis: Axis, momentum: Push)
    | AnimateStop
    | AnimateStartOnAxis(axis: Axis, start: real, target: real, animateTime: real, easeAlg: string)
    | TouchDisableScrolling(isDisabled: bool)
    | TouchDestroy
    | UnbindEvents
    | RequestFrame(job: FrameJob)

  /** The coordinator's private record and state flags, plus the two logs. */
  datatype State = State(
    containerExtent: XY<real>,
    moveableExtent: XY<real>,
    moveable: XY<AxisPosition>,
    boundaries: XY<Boundary>,
    isTouchActive: bool,
    isPullToRefreshActive: bool,
    isAbstractMoveable: bool,
    isAnimatingOnAxis: XY<bool>,
    isMomentumOnAxis: XY<bool>,
    isDestroyed: bool,
    events: seq<Event>,
    commands: seq<Command>)

  /** The state right after construction: one frame is requested to compute the params. */
  function Initial(): State {
    State(XY(0.0, 0.0), XY(0.0, 0.0), XY(Resting, Resting), XY(Boundary(0.0, 0.0), Boundary(0.0, 0.0)),
          false, false, false, XY(false, false), XY(false, false), false, [], [RequestFrame(RecalculateParams)])
  }

  predicate BoundaryOk(b: Boundary) {
    b.start == 0.0 <= b.end
  }

  /** The overscroll fields agree with each other. */
  predicate OverscrollOk(m: AxisPosition) {
    && m.overscroll >= 0.0
    && (m.overscroll == 0.0 <==> m.overscrollDirection == 0)
    && -1 <= m.overscrollDirection <= 1
    && 0.0 <= m.overscrollPull <= 1.0
  }

  predicate Inv(c: Config, s: State) {
    && ConfigOk(c)
    && BoundaryOk(s.boundaries.x) && BoundaryOk(s.boundaries.y)
    && OverscrollOk(s.moveable.x) && OverscrollOk(s.moveable.y)
    && (s.isAbstractMoveable ==> c.abstractMoveable)
  }

  lemma InitialOk(c: Config)
    requires ConfigOk(c)
    ensures Inv(c, Initial())
  {
  }

  // ---------------------------------------------------------------------------
  // Boundaries and clamping

  /**
   * `_calculateParams` on one axis: the range starts at 0 and ends where the
   * moveable's far edge meets the container's, or at 0 when the moveable is
   * not larger than the container.
   */
  function AxisBoundary(container: real, moveable: real): (b: Boundary)
    ensures BoundaryOk(b)
    ensures b.end == 0.0 <==> moveable <= container
    ensures b.end > 0.0 ==> b.end == moveable - container
  {
    var end := moveable - container;
    Boundary(0.0, if end < 0.0 then 0.0 else end)
  }

  /** The clamp of `_getScrollTarget` and of a push when overscroll is off. */
  function Clamp(b: Boundary, v: real): (r: real)
    ensures b.start <= b.end ==> b.start <= r <= b.end
    ensures b.start <= v <= b.end ==> r == v
    ensures r == v || r == b.start || r == b.end
    ensures v < b.start ==> r == b.start
    ensures b.start <= v && v > b.end ==> r == b.end
  {
    if v < b.start then b.start
    else if v > b.end then b.end
    else v
  }

  // ---------------------------------------------------------------------------
  // Overscroll, pull and progress (`_updateMoveablePosition`)

  datatype Overscroll = Overscroll(amount: real, direction: int)

  /**
   * How far `p` lies outside the range, and on which side: direction 1 before
   * the start, -1 past the end, 0 inside.
   */
  function OverscrollAt(b: Boundary, p: real): (r: Overscroll)
    ensures r.amount >= 0.0 && -1 <= r.direction <= 1
    ensures r.amount == 0.0 <==> r.direction == 0
  {
    if p < b.start then Overscroll(b.start - p, 1)
    else if p > b.end then Overscroll(p - b.end, -1)
    else Overscroll(0.0, 0)
  }

  /**
   * The overscroll is the distance from `p` to the range, and stepping that
   * distance in the overscroll direction lands on the nearest point of the
   * range: the point a scroll target would be clamped to.
   */
  lemma OverscrollMeasuresDistance(b: Boundary, p: real)
    requires b.start <= b.end
    ensures var o := OverscrollAt(b, p);
      && p + (o.direction as real) * o.amount == Clamp(b, p)
      && o.amount == Abs(p - Clamp(b, p))
      && (o.direction == 0 <==> b.start <= p <= b.end)
      && (o.direction == 1 <==> p < b.start)
      && (o.direction == -1 <==> p > b.end)
  {
  }

  /**
   * `overscrollPull`: the overscroll as a fraction of the pull-to-refresh
   * distance, scaled by 1.1 and cut to `[0, 1]`.
   */
  function Pull(pullToRefreshOverscroll: real, amount: real): (r: real)
    requires pullToRefreshOverscroll > 0.0
    ensures 0.0 <= r <= 1.0
    ensures amount >= 0.0 ==> (r == 1.0 <==> amount * 1.1 >= pullToRefreshOverscroll)
  {
    var v := amount * 1.1 / pullToRefreshOverscroll;
    RatioAtLeastOne(amount * 1.1, pullToRefreshOverscroll);
    var atLeastZero := if v > 0.0 then v else 0.0;
    if atLeastZero < 1.0 then atLeastZero else 1.0
  }

  lemma RatioAtLeastOne(x: real, d: real)
    requires d > 0.0
    ensures x / d >= 1.0 <==> x >= d
  {
    assert (x / d - 1.0) * d == x - d;
    SignOfProduct(x / d - 1.0, d);
  }

  lemma SignOfProduct(a: real, d: real)
    requires d > 0.0
    ensures a >= 0.0 <==> a * d >= 0.0
  {
  }

  /**
   * `progress`: the position as a fraction of the range when the range is not
   * empty, 1 otherwise.
   */
  function Progress(b: Boundary, p: real): (r: real)
    ensures b.end > 0.0 ==> r * b.end == p
    ensures b.end > 0.0 && 0.0 <= p <= b.end ==> 0.0 <= r <= 1.0
    ensures b.end <= 0.0 ==> r == 1.0
  {
    if b.end > 0.0 then
      FractionInUnitRange(p, b.end);
      p / b.end
    else 1.0
  }

  lemma FractionInUnitRange(p: real, e: real)
    requires e > 0.0
    ensures 0.0 <= p <= e ==> 0.0 <= p / e <= 1.0
  {
    if 0.0 <= p <= e {
      assert p / e * e == p;
      MonotoneScale(e, p / e, 1.0);
    }
  }

  /** The overscroll fields after an update, before the position is written. */
  function Overscrolled(c: Config, b: Boundary, m: AxisPosition, p: real): AxisPosition
    requires ConfigOk(c)
  {
    if c.overscroll then
      var o := OverscrollAt(b, p);
      m.(overscroll := o.amount, overscrollDirection := o.direction,
         overscrollPull := Pull(c.pullToRefreshOverscroll, o.amount))
    else m
  }

  /** One axis of `_updateMoveablePosition`. */
  function AxisAfterUpdate(c: Config, b: Boundary, m: AxisPosition, p: real): AxisPosition
    requires ConfigOk(c)
  {
    var m1 := Overscrolled(c, b, m, p);
    if m.position != p then m1.(position := p, progress := Progress(b, p)) else m1
  }

  lemma AxisAfterUpdateEffect(c: Config, b: Boundary, m: AxisPosition, p: real)
    requires ConfigOk(c)
    ensures var r := AxisAfterUpdate(c, b, m, p);
      && r.position == p
      && r.progress == (if m.position != p then Progress(b, p) else m.progress)
      && (c.overscroll ==> OverscrollOk(r))
      && (c.overscroll ==> Overscroll(r.overscroll, r.overscrollDirection) == OverscrollAt(b, p))
      && (!c.overscroll ==> r.overscroll == m.overscroll && r.overscrollDirection == m.overscrollDirection
                            && r.overscrollPull == m.overscrollPull)
      && (OverscrollOk(m) ==> OverscrollOk(r))
  {
  }

  function AxisAfterUpdateOf(c: Config, s: State, p: XY<real>): Axis -> AxisPosition
    requires ConfigOk(c)
  {
    a => AxisAfterUpdate(c, s.boundaries.Get(a), s.moveable.Get(a), p.Get(a))
  }

  function ChangedOf(moveable: XY<AxisPosition>, p: XY<real>): Axis -> bool {
    a => moveable.Get(a).position != p.Get(a)
  }

  function PullHitOf(c: Config, s: State, p: XY<real>): Axis -> bool
    requires ConfigOk(c)
  {
    a => Pull(c.pullToRefreshOverscroll, OverscrollAt(s.boundaries.Get(a), p.Get(a)).amount) >= 1.0
  }

  /** Pull-to-refresh is switched on by a touch that pulls some axis fully. */
  predicate PullTriggered(c: Config, s: State, p: XY<real>)
    requires ConfigOk(c)
  {
    c.overscroll && c.pullToRefresh && s.isTouchActive && OnSome(c.axes, PullHitOf(c, s, p))
  }

  /** `_updateMoveablePosition(p)`. */
  function Updated(c: Config, s: State, p: XY<real>): State
    requires ConfigOk(c)
  {
    var moved := UpdateOn(s.moveable, c.axes, AxisAfterUpdateOf(c, s, p));
    s.(moveable := moved,
       isPullToRefreshActive := s.isPullToRefreshActive || PullTriggered(c, s, p),
       events := s.events + if OnSome(c.axes, ChangedOf(s.moveable, p))
                            then [PositionChange(s.isTouchActive, moved)] else [])
  }

  /**
   * After an update every configured axis sits at its new position. Progress
   * is recomputed only on the axes whose position changed. With overscroll
   * on, the overscroll fields describe the new position; with it off they are
   * left alone. Axes outside the configuration are not touched.
   */
  lemma UpdatedAxes(c: Config, s: State, p: XY<real>)
    requires ConfigOk(c)
    ensures var r := Updated(c, s, p);
      forall a :: var m := s.moveable.Get(a); var n := r.moveable.Get(a);
        && (a !in c.axes ==> n == m)
        && (a in c.axes ==> n.position == p.Get(a))
        && (a in c.axes && m.position != p.Get(a) ==> n.progress == Progress(s.boundaries.Get(a), p.Get(a)))
        && (a in c.axes && m.position == p.Get(a) ==> n.progress == m.progress)
        && (a in c.axes && c.overscroll ==>
              Overscroll(n.overscroll, n.overscrollDirection) == OverscrollAt(s.boundaries.Get(a), p.Get(a)))
        && (!c.overscroll ==> n.overscroll == m.overscroll && n.overscrollDirection == m.overscrollDirection)
  {
    forall a {
      AxisAfterUpdateEffect(c, s.boundaries.Get(a), s.moveable.Get(a), p.Get(a));
    }
  }

  /**
   * `positionChange` is dispatched, once and with the new positions, exactly
   * when some configured axis moved. Pull-to-refresh, once on, stays on.
   */
  lemma UpdatedDispatch(c: Config, s: State, p: XY<real>)
    requires ConfigOk(c)
    ensures var r := Updated(c, s, p);
      && (s.isPullToRefreshActive ==> r.isPullToRefreshActive)
      && r.events[..|s.events|] == s.events
      && (|r.events| == |s.events| + 1 <==> exists a :: a in c.axes && s.moveable.Get(a).position != p.Get(a))
      && (|r.events| != |s.events| + 1 ==> r.events == s.events)
      && (|r.events| == |s.events| + 1 ==> r.events[|s.events|] == PositionChange(s.isTouchActive, r.moveable))
  {
    var r := Updated(c, s, p);
    var f := ChangedOf(s.moveable, p);
    assert OnSome(c.axes, f) <==> exists a :: a in c.axes && f(a) by {
      if OnSome(c.axes, f) {
        if X in c.axes && f(X) {
          assert X in c.axes && f(X);
        } else {
          assert Y in c.axes && f(Y);
        }
      }
      if exists a :: a in c.axes && f(a) {
        var a :| a in c.axes && f(a);
        assert a == X || a == Y;
      }
    }
  }

  /** The update keeps the overscroll fields consistent and the boundaries unchanged. */
  lemma UpdatedKeepsInv(c: Config, s: State, p: XY<real>)
    requires Inv(c, s)
    ensures Inv(c, Updated(c, s, p))
    ensures Updated(c, s, p).boundaries == s.boundaries
  {
    var r := Updated(c, s, p);
    AxisAfterUpdateEffect(c, s.boundaries.Get(X), s.moveable.Get(X), p.Get(X));
    AxisAfterUpdateEffect(c, s.boundaries.Get(Y), s.moveable.Get(Y), p.Get(Y));
    assert r.moveable.Get(X) == r.moveable.x && r.moveable.Get(Y) == r.moveable.y;
  }

  /**
   * Updating to the position the moveable already holds changes nothing and
   * dispatches nothing: a second update to the same position is a no-op.
   */
  lemma UpdatedIdempotent(c: Config, s: State, p: XY<real>)
    requires ConfigOk(c)
    ensures var r := Updated(c, s, p); Updated(c, r, p) == r
  {
    var r := Updated(c, s, p);
    var r2 := Updated(c, r, p);
    UpdatedAxes(c, s, p);
    UpdatedAxes(c, r, p);
    forall a | a in c.axes
      ensures r2.moveable.Get(a) == r.moveable.Get(a)
    {
      AxisAfterUpdateEffect(c, s.boundaries.Get(a), s.moveable.Get(a), p.Get(a));
      AxisAfterUpdateEffect(c, r.boundaries.Get(a), r.moveable.Get(a), p.Get(a));
    }
    assert r2.moveable.Get(X) == r.moveable.Get(X) && r2.moveable.Get(Y) == r.moveable.Get(Y);
    assert !OnSome(c.axes, ChangedOf(r.moveable, p));
  }

  /** Only the configured coordinates of the new position are read. */
  lemma UpdatedReadsConfiguredAxes(c: Config, s: State, p: XY<real>, q: XY<real>)
    requires ConfigOk(c)
    requires forall a :: a in c.axes ==> p.Get(a) == q.Get(a)
    ensures Updated(c, s, p) == Updated(c, s, q)
  {
    var f := AxisAfterUpdateOf(c, s, p);
    var g := AxisAfterUpdateOf(c, s, q);
    assert UpdateOn(s.moveable, c.axes, f) == UpdateOn(s.moveable, c.axes, g) by {
      assert UpdateOn(s.moveable, c.axes, f).Get(X) == UpdateOn(s.moveable, c.axes, g).Get(X);
      assert UpdateOn(s.moveable, c.axes, f).Get(Y) == UpdateOn(s.moveable, c.axes, g).Get(Y);
    }
    assert OnSome(c.axes, ChangedOf(s.moveable, p)) == OnSome(c.axes, ChangedOf(s.moveable, q));
    assert OnSome(c.axes, PullHitOf(c, s, p)) == OnSome(c.axes, PullHitOf(c, s, q));
  }

  // ---------------------------------------------------------------------------
  // Boundaries (`_calculateParams`)

  function ValueOf(xy: XY<real>): Axis -> real {
    a => xy.Get(a)
  }

  function BoundaryOf(container: XY<real>, moveable: XY<real>): Axis -> Boundary {
    a => AxisBoundary(container.Get(a), moveable.Get(a))
  }

  /**
   * `_calculateParams` with the measured extents and, for a record moveable,
   * its `left`/`top` offset, which is then applied as the position.
   */
  function Calculated(c: Config, s: State, container: XY<real>, moveable: XY<real>, offset: XY<real>): State
    requires ConfigOk(c)
  {
    var s1 := s.(isAbstractMoveable := s.isAbstractMoveable || c.abstractMoveable,
                 containerExtent := UpdateOn(s.containerExtent, c.axes, ValueOf(container)),
                 moveableExtent := UpdateOn(s.moveableExtent, c.axes, ValueOf(moveable)),
                 boundaries := UpdateOn(s.boundaries, c.axes, BoundaryOf(container, moveable)));
    if s1.isAbstractMoveable then Updated(c, s1, offset) else s1
  }

  /**
   * After the params are computed every configured axis has `start = 0` and
   * `end = max(moveable - container, 0)`, so `start <= end`; a record
   * moveable is placed at its offset on every configured axis.
   */
  lemma CalculatedBoundaries(c: Config, s: State, container: XY<real>, moveable: XY<real>, offset: XY<real>)
    requires Inv(c, s)
    ensures var r := Calculated(c, s, container, moveable, offset);
      && Inv(c, r)
      && (forall a :: a in c.axes ==> var b := r.boundaries.Get(a);
            && b.start == 0.0 <= b.end
            && (b.end == 0.0 <==> moveable.Get(a) <= container.Get(a))
            && (b.end > 0.0 ==> b.end == moveable.Get(a) - container.Get(a)))
      && (forall a :: a !in c.axes ==> r.boundaries.Get(a) == s.boundaries.Get(a))
      && (c.abstractMoveable ==> forall a :: a in c.axes ==> r.moveable.Get(a).position == offset.Get(a))
      && (!c.abstractMoveable ==> r.moveable == s.moveable && r.events == s.events)
  {
    var s1 := s.(isAbstractMoveable := s.isAbstractMoveable || c.abstractMoveable,
                 containerExtent := UpdateOn(s.containerExtent, c.axes, ValueOf(container)),
                 moveableExtent := UpdateOn(s.moveableExtent, c.axes, ValueOf(moveable)),
                 boundaries := UpdateOn(s.boundaries, c.axes, BoundaryOf(container, moveable)));
    assert s1.boundaries.Get(X) == s1.boundaries.x && s1.boundaries.Get(Y) == s1.boundaries.y;
    assert Inv(c, s1);
    if s1.isAbstractMoveable {
      UpdatedKeepsInv(c, s1, offset);
      UpdatedAxes(c, s1, offset);
    }
  }

  // ---------------------------------------------------------------------------
  // Pushes (`_onPush`)

  /** The overscroll allowance: larger while a finger is down than for momentum. */
  function MaxOverscroll(c: Config, s: State): real {
    if s.isTouchActive then c.maxTouchOverscroll else c.maxMomentumOverscroll
  }

  /** The displacement of a push before damping; the push directions are inverted. */
  function RawDisplacement(push: Push): real {
    push.px * (push.direction as real) * -1.0
  }

  /** A push deepens the overscroll when it goes further in the overscroll direction. */
  predicate Deepens(m: AxisPosition, push: Push) {
    m.overscroll > 0.0 && push.direction == m.overscrollDirection
  }

  datatype PushOutcome = PushOutcome(position: real, stopMomentum: bool)

  /**
   * `_onPush` with overscroll on: a displacement that deepens the overscroll
   * is damped by the linear factor of the overscroll within the allowance,
   * and momentum on the axis is stopped once the factor or the damped
   * displacement falls below its minimum.
   */
  function DampedPush(c: Config, m: AxisPosition, maxOverscroll: real, momentumOnAxis: bool, raw: real, direction: int)
    : PushOutcome
    requires maxOverscroll != 0.0
  {
    if m.overscroll > 0.0 && direction == m.overscrollDirection then
      var multiplier := EaseLinear(m.overscroll, 1.0, -1.0, maxOverscroll);
      var px := raw * multiplier;
      PushOutcome(m.position + px,
                  momentumOnAxis && (multiplier < c.minMomentumMultiplier || Abs(px) < c.minMomentumPush))
    else PushOutcome(m.position + raw, false)
  }

  /** `_onPush` with overscroll off: the coordinate is kept inside the range. */
  function ClampedPush(b: Boundary, next: real): PushOutcome {
    if next < b.start then PushOutcome(b.start, true)
    else if next > b.end then PushOutcome(b.end, true)
    else PushOutcome(next, false)
  }

  /** One axis of `_onPush`: the new coordinate and whether momentum is stopped on it. */
  function PushedAxis(c: Config, s: State, a: Axis, push: Push): PushOutcome
    requires ConfigOk(c)
  {
    if c.overscroll then
      DampedPush(c, s.moveable.Get(a), MaxOverscroll(c, s), s.isMomentumOnAxis.Get(a), RawDisplacement(push), push.direction)
    else ClampedPush(s.boundaries.Get(a), s.moveable.Get(a).position + RawDisplacement(push))
  }

  /**
   * With overscroll off, a push lands on the clamp of the undamped position,
   * and momentum is stopped exactly when the clamp had to move it.
   */
  lemma PushClampedWithoutOverscroll(c: Config, s: State, a: Axis, push: Push)
    requires ConfigOk(c) && !c.overscroll && s.boundaries.Get(a).start <= s.boundaries.Get(a).end
    ensures var next := s.moveable.Get(a).position + RawDisplacement(push);
      var r := PushedAxis(c, s, a, push);
      var b := s.boundaries.Get(a);
      && b.start <= r.position <= b.end
      && r.position == Clamp(b, next)
      && (r.stopMomentum <==> r.position != next)
  {
  }

  /**
   * With overscroll on, a push that does not deepen the overscroll moves the
   * full displacement and never stops momentum.
   */
  lemma PushUndampedUnlessDeepening(c: Config, s: State, a: Axis, push: Push)
    requires ConfigOk(c) && c.overscroll && !Deepens(s.moveable.Get(a), push)
    ensures PushedAxis(c, s, a, push) == PushOutcome(s.moveable.Get(a).position + RawDisplacement(push), false)
  {
  }

  /**
   * A push that deepens an overscroll within the allowance is damped: it
   * moves the same way as the raw push, by no more, and the further the
   * overscroll the smaller the factor. Momentum is only ever stopped on an
   * axis under momentum.
   */
  lemma PushDampedWhenDeepening(c: Config, s: State, a: Axis, push: Push)
    requires ConfigOk(c) && c.overscroll && Deepens(s.moveable.Get(a), push)
    requires s.moveable.Get(a).overscroll <= MaxOverscroll(c, s)
    ensures var m := s.moveable.Get(a);
      var raw := RawDisplacement(push);
      var r := PushedAxis(c, s, a, push);
      var d := r.position - m.position;
      && (raw >= 0.0 ==> 0.0 <= d <= raw)
      && (raw <= 0.0 ==> raw <= d <= 0.0)
      && (d - raw) * MaxOverscroll(c, s) == -raw * m.overscroll
      && (r.stopMomentum ==> s.isMomentumOnAxis.Get(a))
  {
    var m := s.moveable.Get(a);
    var raw := RawDisplacement(push);
    var k := MaxOverscroll(c, s);
    var f := EaseLinear(m.overscroll, 1.0, -1.0, k);
    DampingInUnitRange(m.overscroll, k);
    var d := PushedAxis(c, s, a, push).position - m.position;
    assert d == raw * f;
    ScaledByFraction(raw, f);
    assert (f - 1.0) * k == -m.overscroll;
    assert (raw * f - raw) * k == raw * ((f - 1.0) * k);
  }

  function PushedPositionOf(c: Config, s: State, pushBy: XY<Push>): Axis -> real
    requires ConfigOk(c)
  {
    a => PushedAxis(c, s, a, pushBy.Get(a)).position
  }

  function PushStopOf(c: Config, s: State, pushBy: XY<Push>): Axis -> seq<Command>
    requires ConfigOk(c)
  {
    a => if PushedAxis(c, s, a, pushBy.Get(a)).stopMomentum then [MomentumStopOnAxis(a)] else []
  }

  /** The seed of `_onPush`'s new position: both coordinates start from `x`. */
  function PushSeed(s: State): XY<real> {
    XY(s.moveable.x.position, s.moveable.x.position)
  }

  /** `_onPush(pushBy)`. */
  function Pushed(c: Config, s: State, pushBy: XY<Push>): State
    requires ConfigOk(c)
  {
    var target := UpdateOn(PushSeed(s), c.axes, PushedPositionOf(c, s, pushBy));
    Updated(c, s.(commands := s.commands + Collect(c.axes, PushStopOf(c, s, pushBy))), target)
  }

  /**
   * Seeding `y` from `x` is harmless: only configured coordinates reach the
   * update, so the push acts as if each axis had been seeded from itself.
   */
  lemma PushSeedUnobservable(c: Config, s: State, pushBy: XY<Push>)
    requires ConfigOk(c)
    ensures var s1 := s.(commands := s.commands + Collect(c.axes, PushStopOf(c, s, pushBy)));
      var own := UpdateOn(XY(s.moveable.x.position, s.moveable.y.position), c.axes, PushedPositionOf(c, s, pushBy));
      Pushed(c, s, pushBy) == Updated(c, s1, own)
  {
    var s1 := s.(commands := s.commands + Collect(c.axes, PushStopOf(c, s, pushBy)));
    var own := UpdateOn(XY(s.moveable.x.position, s.moveable.y.position), c.axes, PushedPositionOf(c, s, pushBy));
    var seeded := UpdateOn(PushSeed(s), c.axes, PushedPositionOf(c, s, pushBy));
    UpdatedReadsConfiguredAxes(c, s1, seeded, own);
  }

  /**
   * Momentum is stopped on exactly the configured axes whose push outcome
   * asks for it, and the moveable ends at the pushed coordinates.
   */
  lemma PushedEffect(c: Config, s: State, pushBy: XY<Push>)
    requires ConfigOk(c)
    ensures var r := Pushed(c, s, pushBy);
      && r.commands[..|s.commands|] == s.commands
      && (forall a :: MomentumStopOnAxis(a) in r.commands[|s.commands|..] <==>
                        a in c.axes && PushedAxis(c, s, a, pushBy.Get(a)).stopMomentum)
      && (forall a :: a in c.axes ==> r.moveable.Get(a).position == PushedAxis(c, s, a, pushBy.Get(a)).position)
  {
    var added := Collect(c.axes, PushStopOf(c, s, pushBy));
    var s1 := s.(commands := s.commands + added);
    var target := UpdateOn(PushSeed(s), c.axes, PushedPositionOf(c, s, pushBy));
    UpdatedAxes(c, s1, target);
    var r := Pushed(c, s, pushBy);
    assert r.commands[|s.commands|..] == added;
    forall a
      ensures MomentumStopOnAxis(a) in added <==> a in c.axes && PushedAxis(c, s, a, pushBy.Get(a)).stopMomentum
    {
      InCollect(c.axes, PushStopOf(c, s, pushBy), MomentumStopOnAxis(a));
    }
  }

  // ---------------------------------------------------------------------------
  // Animated positions (`_onAnimatePositionChange`)

  /** Only the axes Bounce animates take the animated coordinate. */
  function AnimatedPosition(s: State, p: XY<real>): XY<real> {
    XY(if s.isAnimatingOnAxis.x then p.x else s.moveable.x.position,
       if s.isAnimatingOnAxis.y then p.y else s.moveable.y.position)
  }

  function AnimatePositionChanged(c: Config, s: State, p: XY<real>): State
    requires ConfigOk(c)
  {
    Updated(c, s, AnimatedPosition(s, p))
  }

  /**
   * An axis Bounce is not animating keeps its position, so Momentum and
   * Bounce can drive different axes at once; with no axis animating nothing
   * moves and nothing is dispatched.
   */
  lemma AnimatedPositionOnlyMovesAnimatedAxes(c: Config, s: State, p: XY<real>)
    requires ConfigOk(c)
    ensures var r := AnimatePositionChanged(c, s, p);
      && (forall a :: !s.isAnimatingOnAxis.Get(a) ==> r.moveable.Get(a).position == s.moveable.Get(a).position)
      && (forall a :: a in c.axes && s.isAnimatingOnAxis.Get(a) ==> r.moveable.Get(a).position == p.Get(a))
      && (!AnyActive(s.isAnimatingOnAxis) ==> r.events == s.events)
  {
    var q := AnimatedPosition(s, p);
    UpdatedAxes(c, s, q);
    UpdatedDispatch(c, s, q);
    assert q.Get(X) == q.x && q.Get(Y) == q.y;
  }

  // ---------------------------------------------------------------------------
  // Bounce and stability checks

  /**
   * `_checkForBounceStartOnAxis`: the position a bounce on `a` returns to,
   * or `None` when no bounce starts.
   */
  function BounceTarget(c: Config, s: State, a: Axis): Option<real> {
    var m := s.moveable.Get(a);
    if s.isTouchActive || s.isAnimatingOnAxis.Get(a) || s.isMomentumOnAxis.Get(a) || m.overscrollDirection == 0 then None
    else
      var edge := if m.overscrollDirection > 0 then s.boundaries.Get(a).start else s.boundaries.Get(a).end;
      Some(if s.isPullToRefreshActive then edge - c.pullToRefreshMargin * (m.overscrollDirection as real) else edge)
  }

  function BounceCommandOf(c: Config, s: State): Axis -> seq<Command> {
    a => match BounceTarget(c, s, a)
         case None => []
         case Some(t) => [AnimateStartOnAxis(a, s.moveable.Get(a).position, t, 0.0, "")]
  }

  function CheckedBounceOnAxis(c: Config, s: State, a: Axis): State {
    s.(commands := s.commands + BounceCommandOf(c, s)(a))
  }

  /** `_checkForBounceStart`: the check on every configured axis. */
  function CheckedBounce(c: Config, s: State): State {
    s.(commands := s.commands + Collect(c.axes, BounceCommandOf(c, s)))
  }

  predicate Idle(s: State, a: Axis) {
    !s.isTouchActive && !s.isAnimatingOnAxis.Get(a) && !s.isMomentumOnAxis.Get(a)
  }

  /**
   * After an update with overscroll on, an idle axis bounces exactly when the
   * new position lies outside its range, and the bounce returns to the
   * nearest point of the range, or stops the pull-to-refresh margin short of
   * it while pull-to-refresh is active. A busy axis never bounces.
   */
  lemma BounceReturnsToNearestBoundary(c: Config, s: State, p: XY<real>, a: Axis)
    requires Inv(c, s) && c.overscroll && a in c.axes
    ensures var r := Updated(c, s, p);
      var b := s.boundaries.Get(a);
      var v := p.Get(a);
      var t := BounceTarget(c, r, a);
      && (!Idle(r, a) ==> t.None?)
      && (Idle(r, a) ==> (t.None? <==> b.start <= v <= b.end))
      && (t.Some? && !r.isPullToRefreshActive ==> t.value == Clamp(b, v))
      && (t.Some? && r.isPullToRefreshActive ==>
            t.value == Clamp(b, v) - c.pullToRefreshMargin * (OverscrollAt(b, v).direction as real))
  {
    UpdatedAxes(c, s, p);
    UpdatedKeepsInv(c, s, p);
    OverscrollMeasuresDistance(s.boundaries.Get(a), p.Get(a));
  }

  /** An axis overscrolled 20px past the end of a 500px range bounces back to 500. */
  lemma BounceFromOverscrollAtEnd()
    ensures var c := DefaultConfig(true);
      var s := Initial().(boundaries := XY(Boundary(0.0, 0.0), Boundary(0.0, 500.0)));
      var r := Updated(c, s, XY(0.0, 520.0));
      && r.moveable.y.overscroll == 20.0
      && r.moveable.y.overscrollDirection == -1
      && BounceTarget(c, r, Y) == Some(500.0)
  {
    var c := DefaultConfig(true);
    var s := Initial().(boundaries := XY(Boundary(0.0, 0.0), Boundary(0.0, 500.0)));
    UpdatedAxes(c, s, XY(0.0, 520.0));
    assert Y in c.axes;
  }

  /**
   * Every bounce the check starts is on a configured idle axis that is
   * overscrolled, and starts from the axis' current position.
   */
  lemma CheckedBounceEffect(c: Config, s: State)
    ensures var r := CheckedBounce(c, s);
      && r == s.(commands := r.commands)
      && r.commands[..|s.commands|] == s.commands
      && forall a, from, t :: AnimateStartOnAxis(a, from, t, 0.0, "") in r.commands[|s.commands|..] <==>
           a in c.axes && from == s.moveable.Get(a).position && BounceTarget(c, s, a) == Some(t)
  {
    var added := Collect(c.axes, BounceCommandOf(c, s));
    var r := CheckedBounce(c, s);
    assert r.commands[|s.commands|..] == added;
    forall a, from, t
      ensures AnimateStartOnAxis(a, from, t, 0.0, "") in added <==>
                a in c.axes && from == s.moveable.Get(a).position && BounceTarget(c, s, a) == Some(t)
    {
      InCollect(c.axes, BounceCommandOf(c, s), AnimateStartOnAxis(a, from, t, 0.0, ""));
    }
  }

  /** No axis is moving under a finger, Bounce or Momentum. */
  predicate IsStable(s: State) {
    !s.isTouchActive && !AnyActive(s.isAnimatingOnAxis) && !AnyActive(s.isMomentumOnAxis)
  }

  /** `_checkForPositionStable`. */
  function CheckedStable(s: State): State {
    if IsStable(s) then s.(events := s.events + [PositionStable(s.isTouchActive, s.moveable)]) else s
  }

  // ---------------------------------------------------------------------------
  // Touch and engine handlers

  function TouchStarted(s: State): State {
    s.(isTouchActive := true, commands := s.commands + [MomentumStop, AnimateStop])
  }

  /** `_onTouchEnd`. */
  function TouchEnded(c: Config, s: State): State {
    var s1 := s.(isTouchActive := false,
                 events := s.events + if s.isPullToRefreshActive then [StartPullToRefresh] else []);
    CheckedStable(CheckedBounce(c, s1))
  }

  /**
   * When the finger lifts, `startPullToRefresh` is dispatched exactly when
   * pull-to-refresh is active, and `positionStable`, reporting no touch, is
   * dispatched after it exactly when no axis is under Bounce or Momentum.
   * Bounces start on the overscrolled configured axes that are idle.
   */
  lemma TouchEndedEffect(c: Config, s: State)
    ensures var r := TouchEnded(c, s);
      var pull := if s.isPullToRefreshActive then [StartPullToRefresh] else [];
      var stable := !AnyActive(s.isAnimatingOnAxis) && !AnyActive(s.isMomentumOnAxis);
      && !r.isTouchActive
      && r.events == s.events + pull + (if stable then [PositionStable(false, s.moveable)] else [])
      && forall a, from, t :: AnimateStartOnAxis(a, from, t, 0.0, "") in r.commands[|s.commands|..] <==>
           a in c.axes && from == s.moveable.Get(a).position
           && BounceTarget(c, s.(isTouchActive := false), a) == Some(t)
  {
    var s1 := s.(isTouchActive := false,
                 events := s.events + if s.isPullToRefreshActive then [StartPullToRefresh] else []);
    var released := s.(isTouchActive := false);
    CheckedBounceEffect(c, s1);
    assert s1 == released.(events := s1.events);
    forall a
      ensures BounceTarget(c, s1, a) == BounceTarget(c, released, a)
    {
      BounceTargetIgnoresLogs(c, released, a, s1.events, s1.commands);
    }
  }

  /** The bounce check of an axis reads only the positions, boundaries and flags. */
  lemma BounceCommandReadsState(c: Config, s: State, t: State, a: Axis)
    requires s.moveable == t.moveable && s.boundaries == t.boundaries
    requires s.isTouchActive == t.isTouchActive && s.isPullToRefreshActive == t.isPullToRefreshActive
    requires s.isAnimatingOnAxis == t.isAnimatingOnAxis && s.isMomentumOnAxis == t.isMomentumOnAxis
    ensures BounceCommandOf(c, s)(a) == BounceCommandOf(c, t)(a)
  {
    assert BounceTarget(c, s, a).Some? == BounceTarget(c, t, a).Some?;
    if BounceTarget(c, s, a).Some? {
      assert BounceTarget(c, s, a).value == BounceTarget(c, t, a).value;
    }
  }

  lemma BounceTargetIgnoresLogs(c: Config, s: State, a: Axis, events: seq<Event>, commands: seq<Command>)
    ensures BounceTarget(c, s.(events := events, commands := commands), a) == BounceTarget(c, s, a)
  {
    var s2 := s.(events := events, commands := commands);
    assert BounceTarget(c, s2, a).Some? == BounceTarget(c, s, a).Some?;
    if BounceTarget(c, s, a).Some? {
      assert BounceTarget(c, s2, a).value == BounceTarget(c, s, a).value;
    }
  }

  function MomentumStartOf(moveable: XY<AxisPosition>, momentum: XY<Push>): Axis -> seq<Command> {
    a => if moveable.Get(a).overscrollDirection == 0 then [MomentumStartOnAxis(a, momentum.Get(a))] else []
  }

  /** `_onTouchEndWithMomentum`. */
  function TouchEndedWithMomentum(c: Config, s: State, momentum: XY<Push>): State {
    s.(commands := s.commands + Collect(c.axes, MomentumStartOf(s.moveable, momentum)))
  }

  /**
   * Momentum from a released finger is handed on only for configured axes that
   * are not overscrolled; an overscrolled axis is left to bounce.
   */
  lemma MomentumOnlyWithinRange(c: Config, s: State, momentum: XY<Push>)
    requires Inv(c, s)
    ensures var r := TouchEndedWithMomentum(c, s, momentum);
      && r.commands[..|s.commands|] == s.commands
      && forall a, m :: MomentumStartOnAxis(a, m) in r.commands[|s.commands|..] <==>
           a in c.axes && s.moveable.Get(a).overscroll == 0.0 && m == momentum.Get(a)
  {
    var added := Collect(c.axes, MomentumStartOf(s.moveable, momentum));
    var r := TouchEndedWithMomentum(c, s, momentum);
    assert r.commands[|s.commands|..] == added;
    assert OverscrollOk(s.moveable.Get(X)) && OverscrollOk(s.moveable.Get(Y));
    forall a, m
      ensures MomentumStartOnAxis(a, m) in added <==>
                a in c.axes && s.moveable.Get(a).overscroll == 0.0 && m == momentum.Get(a)
    {
      InCollect(c.axes, MomentumStartOf(s.moveable, momentum), MomentumStartOnAxis(a, m));
    }
  }

  /** `_onMomentumEndOnAxis`: the flag drops and the axis is checked for a bounce. */
  function MomentumEndedOnAxis(c: Config, s: State, a: Axis): State {
    CheckedBounceOnAxis(c, s.(isMomentumOnAxis := s.isMomentumOnAxis.With(a, false)), a)
  }

  /**
   * When momentum runs out on an overscrolled axis that no finger holds and
   * Bounce is not animating, a bounce back towards the range starts there.
   */
  lemma MomentumEndStartsBounce(c: Config, s: State, a: Axis)
    requires Inv(c, s) && !s.isTouchActive && !s.isAnimatingOnAxis.Get(a)
    requires s.moveable.Get(a).overscroll > 0.0
    ensures var r := MomentumEndedOnAxis(c, s, a);
      var m := s.moveable.Get(a);
      var b := s.boundaries.Get(a);
      var edge := if m.overscrollDirection > 0 then b.start else b.end;
      exists t :: r.commands == s.commands + [AnimateStartOnAxis(a, m.position, t, 0.0, "")]
                  && (!s.isPullToRefreshActive ==> t == edge)
  {
    assert OverscrollOk(s.moveable.Get(X)) && OverscrollOk(s.moveable.Get(Y));
    var s1 := s.(isMomentumOnAxis := s.isMomentumOnAxis.With(a, false));
    assert s1.moveable.Get(a).overscrollDirection != 0;
    var t := BounceTarget(c, s1, a).value;
    assert MomentumEndedOnAxis(c, s, a).commands == s.commands + [AnimateStartOnAxis(a, s.moveable.Get(a).position, t, 0.0, "")];
  }

  /** `stopPullToRefresh`: pull-to-refresh is switched off and every axis is checked for a bounce. */
  function StoppedPullToRefresh(c: Config, s: State): State {
    CheckedBounce(c, s.(isPullToRefreshActive := false))
  }

  /**
   * Once pull-to-refresh is switched off, every bounce it starts returns all
   * the way to a boundary of the range.
   */
  lemma StoppedPullBouncesToBoundary(c: Config, s: State)
    ensures var r := StoppedPullToRefresh(c, s);
      && !r.isPullToRefreshActive
      && forall a, from, t :: AnimateStartOnAxis(a, from, t, 0.0, "") in r.commands[|s.commands|..] ==>
           t == s.boundaries.Get(a).start || t == s.boundaries.Get(a).end
  {
    CheckedBounceEffect(c, s.(isPullToRefreshActive := false));
  }

  // ---------------------------------------------------------------------------
  // Scroll targets (`_getScrollTarget`, `scrollTo`, `scrollBy`)

  /**
   * One axis of `_getScrollTarget`: an undefined coordinate keeps the current
   * position, and a defined one is clamped into the axis's range.
   */
  function ScrollTargetAxis(b: Boundary, current: real, wanted: Option<real>): (r: real)
    ensures wanted.None? ==> r == current
    ensures wanted.Some? && b.start <= b.end ==> b.start <= r <= b.end
    ensures wanted.Some? && b.start <= wanted.value <= b.end ==> r == wanted.value
    ensures wanted.Some? ==> r == Clamp(b, wanted.value)
  {
    match wanted
    case None => current
    case Some(v) => Clamp(b, v)
  }

  function ScrollTargetOf(s: State, position: XY<Option<real>>): Axis -> real {
    a => ScrollTargetAxis(s.boundaries.Get(a), s.moveable.Get(a).position, position.Get(a))
  }

  /** `_getScrollTarget`: unconfigured coordinates are 0. */
  function ScrollTarget(c: Config, s: State, position: XY<Option<real>>): XY<real> {
    UpdateOn(XY(0.0, 0.0), c.axes, ScrollTargetOf(s, position))
  }

  function Defined(p: XY<real>): XY<Option<real>> {
    XY(Some(p.x), Some(p.y))
  }

  /**
   * A defined coordinate is clamped into the range and an undefined one keeps
   * the current position. Asking again for the target just computed gives
   * the same target, provided the first call did not keep a current position
   * that lies outside the range.
   */
  lemma ScrollTargetClampsAndIsIdempotent(c: Config, s: State, position: XY<Option<real>>)
    requires Inv(c, s)
    ensures var t := ScrollTarget(c, s, position);
      && (forall a :: a in c.axes && position.Get(a).Some? ==>
            s.boundaries.Get(a).start <= t.Get(a) <= s.boundaries.Get(a).end)
      && (forall a :: a in c.axes && position.Get(a).None? ==> t.Get(a) == s.moveable.Get(a).position)
      && ((forall a :: a in c.axes && position.Get(a).None? ==>
             s.boundaries.Get(a).start <= s.moveable.Get(a).position <= s.boundaries.Get(a).end)
          ==> ScrollTarget(c, s, Defined(t)) == t)
  {
    var t := ScrollTarget(c, s, position);
    assert s.boundaries.Get(X) == s.boundaries.x && s.boundaries.Get(Y) == s.boundaries.y;
    assert Defined(t).Get(X) == Some(t.Get(X)) && Defined(t).Get(Y) == Some(t.Get(Y));
    var t2 := ScrollTarget(c, s, Defined(t));
    if forall a :: a in c.axes && position.Get(a).None? ==>
         s.boundaries.Get(a).start <= s.moveable.Get(a).position <= s.boundaries.Get(a).end
    {
      assert t2.Get(X) == t.Get(X) && t2.Get(Y) == t.Get(Y);
    }
  }

  /** `scrollTo`: falsy animation times (absent or 0) jump on the next frame. */
  predicate Truthy(animateTime: Option<real>) {
    animateTime.Some? && animateTime.value != 0.0
  }

  const ScrollEase := "easeInOutCubic"

  function AnimateToOf(moveable: XY<AxisPosition>, target: XY<real>, animateTime: real): Axis -> seq<Command> {
    a => [AnimateStartOnAxis(a, moveable.Get(a).position, target.Get(a), animateTime, ScrollEase)]
  }

  /** `scrollTo(position, animateTime)`. */
  function ScrolledTo(c: Config, s: State, position: XY<Option<real>>, animateTime: Option<real>): State {
    var target := ScrollTarget(c, s, position);
    var stopped := s.commands + [MomentumStop, AnimateStop];
    s.(commands := stopped + if Truthy(animateTime) then Collect(c.axes, AnimateToOf(s.moveable, target, animateTime.value))
                             else [RequestFrame(UpdatePosition(target))])
  }

  /**
   * A jump first stops both engines and then schedules one update to the
   * scroll target; when that update runs, every configured axis with a
   * defined coordinate lands inside its range with no overscroll, and the
   * axes with an undefined coordinate stay where they are.
   */
  lemma ScrollToJumpLandsInRange(c: Config, s: State, position: XY<Option<real>>, animateTime: Option<real>)
    requires Inv(c, s) && !Truthy(animateTime)
    ensures var t := ScrollTarget(c, s, position);
      var u := Updated(c, s, t);
      && ScrolledTo(c, s, position, animateTime).commands
           == s.commands + [MomentumStop, AnimateStop, RequestFrame(UpdatePosition(t))]
      && (forall a :: a in c.axes && position.Get(a).Some? ==>
            && s.boundaries.Get(a).start <= u.moveable.Get(a).position <= s.boundaries.Get(a).end
            && (c.overscroll ==> u.moveable.Get(a).overscroll == 0.0))
      && (forall a :: a in c.axes && position.Get(a).None? ==>
            u.moveable.Get(a).position == s.moveable.Get(a).position)
  {
    var t := ScrollTarget(c, s, position);
    ScrollTargetClampsAndIsIdempotent(c, s, position);
    UpdatedAxes(c, s, t);
    forall a | a in c.axes && position.Get(a).Some?
      ensures c.overscroll ==> Updated(c, s, t).moveable.Get(a).overscroll == 0.0
    {
      OverscrollMeasuresDistance(s.boundaries.Get(a), t.Get(a));
    }
  }

  /**
   * An animated scroll stops both engines and then starts, on each configured
   * axis and nowhere else, a Bounce from the current position to the target
   * with the `easeInOutCubic` easing.
   */
  lemma ScrollToAnimatesEachAxis(c: Config, s: State, position: XY<Option<real>>, animateTime: Option<real>)
    requires Truthy(animateTime)
    ensures var r := ScrolledTo(c, s, position, animateTime);
      var t := ScrollTarget(c, s, position);
      var n := |s.commands|;
      && r.commands[..n + 2] == s.commands + [MomentumStop, AnimateStop]
      && forall a, from, to :: AnimateStartOnAxis(a, from, to, animateTime.value, ScrollEase) in r.commands[n + 2..] <==>
           a in c.axes && from == s.moveable.Get(a).position && to == t.Get(a)
  {
    var t := ScrollTarget(c, s, position);
    var added := Collect(c.axes, AnimateToOf(s.moveable, t, animateTime.value));
    var r := ScrolledTo(c, s, position, animateTime);
    var n := |s.commands|;
    assert r.commands[n + 2..] == added;
    forall a, from, to
      ensures AnimateStartOnAxis(a, from, to, animateTime.value, ScrollEase) in added <==>
                a in c.axes && from == s.moveable.Get(a).position && to == t.Get(a)
    {
      InCollect(c.axes, AnimateToOf(s.moveable, t, animateTime.value), AnimateStartOnAxis(a, from, to, animateTime.value, ScrollEase));
    }
  }

  /** `scrollBy`: the offset is added to the current position, a missing coordinate counting as 0. */
  function ScrollByTarget(s: State, delta: XY<Option<real>>): XY<Option<real>> {
    XY(Some(s.moveable.x.position + delta.x.GetOr(0.0)), Some(s.moveable.y.position + delta.y.GetOr(0.0)))
  }

  /** A scroll by an offset aims at the clamp of the shifted position on every configured axis. */
  lemma ScrollByAimsAtShiftedPosition(c: Config, s: State, delta: XY<Option<real>>)
    ensures forall a :: a in c.axes ==>
      ScrollTarget(c, s, ScrollByTarget(s, delta)).Get(a)
        == Clamp(s.boundaries.Get(a), s.moveable.Get(a).position + delta.Get(a).GetOr(0.0))
  {
    var p := ScrollByTarget(s, delta);
    assert p.Get(X) == Some(s.moveable.Get(X).position + delta.Get(X).GetOr(0.0));
    assert p.Get(Y) == Some(s.moveable.Get(Y).position + delta.Get(Y).GetOr(0.0));
  }

  /**
   * `scrollTop` as written passes the `x` position (a number) as the target
   * and the start boundary as the animation time. Both coordinates of a
   * number are undefined and the start boundary is 0, so it schedules a jump
   * to where the moveable already is.
   */
  function ScrolledTopAsWritten(c: Config, s: State): State {
    ScrolledTo(c, s, XY(None, None), Some(s.boundaries.y.start))
  }

  /**
   * `scrollTop` as written never moves: the scheduled update keeps every
   * position and dispatches nothing, whatever the position (say `y = 300` in
   * a range ending at 500).
   */
  lemma ScrollTopAsWrittenStaysPut(c: Config, s: State)
    requires Inv(c, s)
    ensures var t := ScrollTarget(c, s, XY(None, None));
      && ScrolledTopAsWritten(c, s).commands == s.commands + [MomentumStop, AnimateStop, RequestFrame(UpdatePosition(t))]
      && (forall a :: a in c.axes ==> t.Get(a) == s.moveable.Get(a).position)
      && Updated(c, s, t).events == s.events
  {
    var t := ScrollTarget(c, s, XY(None, None));
    UpdatedDispatch(c, s, t);
  }

  /** `scrollBottom` as written: the same mistake, with the end boundary as the animation time. */
  function ScrolledBottomAsWritten(c: Config, s: State): State {
    ScrolledTo(c, s, XY(None, None), Some(s.boundaries.y.end))
  }

  /**
   * `scrollBottom` as written never reaches the end: every Bounce it starts
   * runs from the current position back to the current position, and a jump
   * it schedules keeps every position.
   */
  lemma ScrollBottomAsWrittenStaysPut(c: Config, s: State)
    requires Inv(c, s)
    ensures var r := ScrolledBottomAsWritten(c, s);
      var t := ScrollTarget(c, s, XY(None, None));
      && (forall a :: a in c.axes ==> t.Get(a) == s.moveable.Get(a).position)
      && (forall a, from, to, time, e :: AnimateStartOnAxis(a, from, to, time, e) in r.commands[|s.commands|..] ==>
            from == to)
  {
    var r := ScrolledBottomAsWritten(c, s);
    var t := ScrollTarget(c, s, XY(None, None));
    var animateTime := Some(s.boundaries.y.end);
    var added := if Truthy(animateTime) then Collect(c.axes, AnimateToOf(s.moveable, t, animateTime.value))
                 else [RequestFrame(UpdatePosition(t))];
    SplitAppend(s.commands, [MomentumStop, AnimateStop], added);
    forall a, from, to, time, e | AnimateStartOnAxis(a, from, to, time, e) in r.commands[|s.commands|..]
      ensures from == to
    {
      assert AnimateStartOnAxis(a, from, to, time, e) in added;
      InCollect(c.axes, AnimateToOf(s.moveable, t, s.boundaries.y.end), AnimateStartOnAxis(a, from, to, time, e));
    }
  }

  /** What `scrollTop` evidently intends: scroll `y` to the start of its range. */
  function ScrolledTop(c: Config, s: State, animateTime: Option<real>): State {
    ScrolledTo(c, s, XY(None, Some(s.boundaries.y.start)), animateTime)
  }

  /** What `scrollBottom` evidently intends: scroll `y` to the end of its range. */
  function ScrolledBottom(c: Config, s: State, animateTime: Option<real>): State {
    ScrolledTo(c, s, XY(None, Some(s.boundaries.y.end)), animateTime)
  }

  /**
   * The intended `scrollTop` and `scrollBottom` aim `y` at the start and the
   * end of its range and leave `x` where it is.
   */
  lemma ScrollTopAndBottomReachEdges(c: Config, s: State)
    requires Inv(c, s) && Y in c.axes
    ensures ScrollTarget(c, s, XY(None, Some(s.boundaries.y.start))).y == s.boundaries.y.start
    ensures ScrollTarget(c, s, XY(None, Some(s.boundaries.y.end))).y == s.boundaries.y.end
    ensures X in c.axes ==> ScrollTarget(c, s, XY(None, Some(s.boundaries.y.start))).x == s.moveable.x.position
    ensures X in c.axes ==> ScrollTarget(c, s, XY(None, Some(s.boundaries.y.end))).x == s.moveable.x.position
  {
    assert ScrollTarget(c, s, XY(None, Some(s.boundaries.y.start))).Get(Y) == s.boundaries.y.start;
    assert ScrollTarget(c, s, XY(None, Some(s.boundaries.y.end))).Get(Y) == s.boundaries.y.end;
  }

  // ---------------------------------------------------------------------------
  // The remaining public operations

  function ScrollingDisabled(s: State, isDisabled: bool): State {
    s.(commands := s.commands + [MomentumStop, AnimateStop, TouchDisableScrolling(isDisabled)])
  }

  function Refreshed(s: State): State {
    s.(commands := s.commands + [RequestFrame(RecalculateParams)])
  }

  /** `destroy`: listeners are removed, the collaborators are stopped, the DOM references dropped. */
  function Destroyed(s: State): State {
    s.(isDestroyed := true, commands := s.commands + [UnbindEvents, TouchDestroy, MomentumStop, AnimateStop])
  }
}
