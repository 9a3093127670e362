/**
 * Animated scrolling (src/AnimatedScroll.js, duplicated in src/Mustafas.js):
 * scroll towards a valid target at a speed that starts at a maximum, shrinks in
 * proportion to the remaining distance once inside a slowing distance, and
 * stops, writing the exact target, when less than a pixel is left or the speed
 * has dropped below a minimum.
 *
 * The Euclidean distance to the target and the direction weights (the cosine
 * and sine of the direction angle) are inputs: a tick is given the distance `d`
 * with `d * d` equal to the squared distance, and a start is given the weights.
 * `written` logs every position handed to the scroll host.
 */
module AnimatedScrolling {
  import opened Common
  import opened ValidPosition

  /**
   * `minScrollPxPerFrame` and `scrollToSlowingDistance` are `None` when the
   * configuration does not define them; a comparison with an undefined
   * setting is false, so the corresponding rule never fires.
   */
  datatype Config = Config(
    axes: seq<Axis>,
    maxScrollPxPerFrame: real,
    minScrollPxPerFrame: Option<real>,
    scrollToSlowingDistance: Option<real>)

  datatype State = State(
    position: XY<real>,
    positionLimits: XY<real>,
    startingPosition: XY<real>,
    targetPosition: XY<real>,
    direction: XY<real>,
    maxPxPerFrame: real,
    pxPerFrame: real,
    isAnimatedScrolling: bool,
    frameRequested: bool,
    written: seq<XY<real>>)

  /** The speed never exceeds the maximum chosen at start and is never negative. */
  ghost predicate Inv(c: Config, s: State) {
    ValidAxes(c.axes) && c.maxScrollPxPerFrame > 0.0 && 0.0 <= s.pxPerFrame <= s.maxPxPerFrame
  }

  function SquaredDistance(p: XY<real>, q: XY<real>): real {
    (q.x - p.x) * (q.x - p.x) + (q.y - p.y) * (q.y - p.y)
  }

  function TakeOf(xy: XY<real>): Axis -> real {
    a => xy.Get(a)
  }

  /** The target `_startAnimatedScroll` sets: the current position, with configured axes clamped to the valid target. */
  function TargetOf(c: Config, s: State, target: XY<real>): XY<real> {
    UpdateOn(s.position, c.axes, TakeOf(NearestValid(c.axes, s.positionLimits, target)))
  }

  /** `_startAnimatedScroll(target, scrollSpeed)`, with the direction weights given. */
  function Started(c: Config, s: State, target: XY<real>, scrollSpeed: real, direction: XY<real>): State {
    var maxPx := if scrollSpeed > 0.0 then scrollSpeed else c.maxScrollPxPerFrame;
    s.(startingPosition := s.position,
       targetPosition := TargetOf(c, s, target),
       direction := direction,
       maxPxPerFrame := maxPx,
       pxPerFrame := maxPx,
       isAnimatedScrolling := true,
       frameRequested := true)
  }

  /** `_stopAnimatedScroll`. */
  function Stopped(s: State): State {
    s.(pxPerFrame := 0.0, isAnimatedScrolling := false, frameRequested := false)
  }

  /** The speed after the slowing rule, at distance `d` from the target. */
  function Slowed(c: Config, s: State, d: real): real
    requires d >= 0.0
  {
    if c.scrollToSlowingDistance.Some? && d < c.scrollToSlowingDistance.value
    then s.maxPxPerFrame * (d / c.scrollToSlowingDistance.value)
    else s.pxPerFrame
  }

  /** The stop rule: less than a pixel to go, or a speed below the (defined) minimum. */
  predicate ShouldStop(c: Config, d: real, px: real) {
    d < 1.0 || (c.minScrollPxPerFrame.Some? && px < c.minScrollPxPerFrame.value)
  }

  function StepOf(p: XY<real>, direction: XY<real>, px: real): Axis -> real {
    a => p.Get(a) + px * direction.Get(a)
  }

  /** `_runAnimatedScroll` at distance `d` from the target; the frame that runs it is consumed first. */
  function Ticked(c: Config, s: State, d: real): State
    requires d >= 0.0
  {
    var px := Slowed(c, s, d);
    var slowed := s.(pxPerFrame := px, frameRequested := false);
    if ShouldStop(c, d, px) then
      Stopped(slowed).(written := s.written + [s.targetPosition])
    else
      var p := UpdateOn(s.position, c.axes, StepOf(s.position, s.direction, px));
      slowed.(position := p, written := s.written + [p], frameRequested := true)
  }

  /**
   * Starting: the maximum speed is the given speed when positive and the
   * configured maximum otherwise, the current speed starts at that maximum, and
   * the scroll is running with a frame requested. The target keeps the current
   * position on unconfigured axes and takes the nearest valid coordinate of the
   * requested target on configured ones, which lies in `[limit, 0]` when the
   * limit is not positive.
   */
  lemma StartedEffect(c: Config, s: State, target: XY<real>, scrollSpeed: real, direction: XY<real>)
    requires Inv(c, s)
    ensures var r := Started(c, s, target, scrollSpeed, direction);
      && Inv(c, r)
      && r.maxPxPerFrame > 0.0
      && (scrollSpeed > 0.0 ==> r.maxPxPerFrame == scrollSpeed)
      && (scrollSpeed <= 0.0 ==> r.maxPxPerFrame == c.maxScrollPxPerFrame)
      && r.pxPerFrame == r.maxPxPerFrame
      && r.isAnimatedScrolling && r.frameRequested
      && r.startingPosition == s.position && r.position == s.position
      && (forall a :: a !in c.axes ==> r.targetPosition.Get(a) == s.position.Get(a))
      && (forall a :: a in c.axes ==>
            r.targetPosition.Get(a) == NearestValidAxis(s.positionLimits.Get(a), target.Get(a)))
      && (forall a :: a in c.axes && s.positionLimits.Get(a) <= 0.0 ==>
            s.positionLimits.Get(a) <= r.targetPosition.Get(a) <= 0.0)
  {
  }

  /**
   * A tick keeps the speed within `[0, maxPxPerFrame]`: inside the slowing
   * distance the speed is the maximum scaled by the fraction of the slowing
   * distance still to go.
   */
  lemma TickedKeepsSpeedBound(c: Config, s: State, d: real)
    requires Inv(c, s) && d >= 0.0
    ensures 0.0 <= Slowed(c, s, d) <= s.maxPxPerFrame
    ensures Inv(c, Ticked(c, s, d))
    ensures c.scrollToSlowingDistance.Some? && d < c.scrollToSlowingDistance.value
            && !ShouldStop(c, d, Slowed(c, s, d)) ==>
              Ticked(c, s, d).pxPerFrame * c.scrollToSlowingDistance.value == s.maxPxPerFrame * d
  {
    var px := Slowed(c, s, d);
    var r := Ticked(c, s, d);
    SlowedBound(c, s, d);
    if c.scrollToSlowingDistance.Some? && d < c.scrollToSlowingDistance.value {
      var sd := c.scrollToSlowingDistance.value;
      var f := d / sd;
      assert f * sd == d;
      assert px == s.maxPxPerFrame * f;
    }
    assert r.pxPerFrame == if ShouldStop(c, d, px) then 0.0 else px;
    assert r.maxPxPerFrame == s.maxPxPerFrame;
  }

  /**
   * The speed a tick computes lies within `[0, maxPxPerFrame]`: inside the
   * slowing distance it is the maximum scaled by a fraction below one.
   */
  lemma SlowedBound(c: Config, s: State, d: real)
    requires Inv(c, s) && d >= 0.0
    ensures 0.0 <= Slowed(c, s, d) <= s.maxPxPerFrame
  {
    if c.scrollToSlowingDistance.Some? && d < c.scrollToSlowingDistance.value {
      var sd := c.scrollToSlowingDistance.value;
      FractionBelowOne(d, sd);
      ScaledBelow(s.maxPxPerFrame, d / sd);
    }
  }

  lemma FractionBelowOne(d: real, sd: real)
    requires 0.0 <= d < sd
    ensures 0.0 <= d / sd < 1.0
  {
  }

  lemma ScaledBelow(m: real, f: real)
    requires m >= 0.0 && 0.0 <= f <= 1.0
    ensures 0.0 <= m * f <= m
  {
    assert m * f <= m * 1.0;
  }

  /**
   * The stop-and-snap rule: when the stop rule fires, the scroll stops with
   * speed 0 and no frame pending, the position field is left alone, and the
   * position written is exactly the target.
   */
  lemma TickedStopsOnTarget(c: Config, s: State, d: real)
    requires d >= 0.0 && ShouldStop(c, d, Slowed(c, s, d))
    ensures var r := Ticked(c, s, d);
      && !r.isAnimatedScrolling && !r.frameRequested && r.pxPerFrame == 0.0
      && r.position == s.position
      && r.written == s.written + [s.targetPosition]
  {
  }

  /**
   * The step rule: otherwise each configured axis advances by the speed times
   * its direction weight, the others stay, the new position is written, and
   * another frame is requested.
   */
  lemma TickedSteps(c: Config, s: State, d: real)
    requires d >= 0.0 && !ShouldStop(c, d, Slowed(c, s, d))
    ensures var r := Ticked(c, s, d);
      && (forall a :: a in c.axes ==>
            r.position.Get(a) == s.position.Get(a) + r.pxPerFrame * s.direction.Get(a))
      && (forall a :: a !in c.axes ==> r.position.Get(a) == s.position.Get(a))
      && r.written == s.written + [r.position]
      && r.frameRequested && r.isAnimatedScrolling == s.isAnimatedScrolling
      && r.targetPosition == s.targetPosition
  {
  }

  /**
   * A scroll whose target is the current position stops on its first tick
   * without moving and writes that target.
   */
  lemma AtTargetStopsAtOnce(c: Config, s: State, d: real)
    requires s.targetPosition == s.position
    requires d >= 0.0 && d * d == SquaredDistance(s.position, s.targetPosition)
    ensures var r := Ticked(c, s, d);
      && !r.isAnimatedScrolling && r.position == s.position
      && r.written == s.written + [s.position]
  {
    assert SquaredDistance(s.position, s.position) == 0.0;
    SquareBelowOne(d);
  }

  lemma SquareBelowOne(d: real)
    requires d >= 0.0 && d * d < 1.0
    ensures d < 1.0
  {
  }

  class AnimatedScroll {
    const config: Config
    var position: XY<real>
    var positionLimits: XY<real>
    var startingPosition: XY<real>
    var targetPosition: XY<real>
    var direction: XY<real>
    var maxPxPerFrame: real
    var pxPerFrame: real
    var isAnimatedScrolling: bool
    var frameRequested: bool
    var written: seq<XY<real>>

    ghost function Snapshot(): State
      reads this
    {
      State(position, positionLimits, startingPosition, targetPosition, direction,
            maxPxPerFrame, pxPerFrame, isAnimatedScrolling, frameRequested, written)
    }

    ghost predicate Valid()
      reads this
    {
      Inv(config, Snapshot())
    }

    /** An idle scroller at the origin with the given position limits. */
    constructor (config: Config, positionLimits: XY<real>)
      requires ValidAxes(config.axes) && config.maxScrollPxPerFrame > 0.0
      ensures Valid() && this.config == config
      ensures Snapshot() == State(XY(0.0, 0.0), positionLimits, XY(0.0, 0.0), XY(0.0, 0.0), XY(0.0, 0.0),
                                  0.0, 0.0, false, false, [])
    {
      this.config := config;
      position := XY(0.0, 0.0);
      this.positionLimits := positionLimits;
      startingPosition := XY(0.0, 0.0);
      targetPosition := XY(0.0, 0.0);
      direction := XY(0.0, 0.0);
      maxPxPerFrame := 0.0;
      pxPerFrame := 0.0;
      isAnimatedScrolling := false;
      frameRequested := false;
      written := [];
    }

    /** `_startAnimatedScroll`; `weights` are the direction weights towards the target. */
    method StartAnimatedScroll(target: XY<real>, scrollSpeed: real, weights: XY<real>)
      requires Valid()
      modifies this
      ensures Snapshot() == Started(config, old(Snapshot()), target, scrollSpeed, weights)
      ensures Valid()
    {
      frameRequested := false;
      startingPosition := position;
      targetPosition := position;
      var validTarget := GetNearestValidPosition(config.axes, positionLimits, target);
      AimAt(validTarget);
      assert targetPosition == TargetOf(config, old(Snapshot()), target);
      direction := weights;
      maxPxPerFrame := if scrollSpeed > 0.0 then scrollSpeed else config.maxScrollPxPerFrame;
      pxPerFrame := maxPxPerFrame;
      isAnimatedScrolling := true;
      frameRequested := true;
    }

    /** The per-axis loop of `_startAnimatedScroll`: each configured axis takes its coordinate of `validTarget`. */
    method AimAt(validTarget: XY<real>)
      requires targetPosition == position
      modifies this`targetPosition
      ensures targetPosition == UpdateOn(position, config.axes, TakeOf(validTarget))
    {
      for i := 0 to |config.axes|
        invariant targetPosition == UpdateOn(position, config.axes[..i], TakeOf(validTarget))
      {
        UpdateOnStep(position, config.axes, i, TakeOf(validTarget));
        targetPosition := targetPosition.With(config.axes[i], validTarget.Get(config.axes[i]));
      }
      assert config.axes[..|config.axes|] == config.axes;
    }

    /** `_stopAnimatedScroll`. */
    method StopAnimatedScroll()
      requires Valid()
      modifies this
      ensures Valid()
      ensures Snapshot() == Stopped(old(Snapshot()))
    {
      pxPerFrame := 0.0;
      isAnimatedScrolling := false;
      frameRequested := false;
    }

    /** Hands a position to the scroll host. */
    method SetPosition(p: XY<real>)
      modifies this
      ensures Snapshot() == old(Snapshot()).(written := old(written) + [p])
    {
      written := written + [p];
    }

    /** The per-axis step of `_runAnimatedScroll`: each configured axis advances by `px` times its weight. */
    method MoveBy(px: real)
      requires ValidAxes(config.axes)
      modifies this`position
      ensures position == UpdateOn(old(position), config.axes, StepOf(old(position), direction, px))
    {
      ghost var p0 := position;
      ghost var f := StepOf(p0, direction, px);
      for i := 0 to |config.axes|
        invariant position == UpdateOn(p0, config.axes[..i], f)
      {
        UpdateOnStep(p0, config.axes, i, f);
        DistinctPrefix(config.axes, i);
        var a := config.axes[i];
        assert position.Get(a) == p0.Get(a);
        assert f(a) == p0.Get(a) + px * direction.Get(a);
        position := position.With(a, position.Get(a) + px * direction.Get(a));
      }
      assert config.axes[..|config.axes|] == config.axes;
    }

    /** `_runAnimatedScroll`, given the distance `d` from the position to the target. */
    method RunAnimatedScroll(d: real)
      requires Valid()
      requires d >= 0.0 && d * d == SquaredDistance(position, targetPosition)
      modifies this
      ensures Snapshot() == Ticked(config, old(Snapshot()), d)
      ensures Valid()
    {
      ghost var s0 := Snapshot();
      assert Inv(config, s0);
      TickedKeepsSpeedBound(config, s0, d);
      frameRequested := false;
      if config.scrollToSlowingDistance.Some? && d < config.scrollToSlowingDistance.value {
        pxPerFrame := maxPxPerFrame * (d / config.scrollToSlowingDistance.value);
      }
      assert pxPerFrame == Slowed(config, s0, d);
      if d < 1.0 || (config.minScrollPxPerFrame.Some? && pxPerFrame < config.minScrollPxPerFrame.value) {
        StopAnimatedScroll();
        SetPosition(targetPosition);
      } else {
        MoveBy(pxPerFrame);
        SetPosition(position);
        frameRequested := true;
      }
    }
  }
}
