/**
 * The momentum engine (src/Momentum.js): a per-axis speed-decay state machine.
 * Starting clamps each axis speed to a maximum; every tick emits one push per
 * axis at the current speed and lowers that speed by a constant; an axis whose
 * speed is below the minimum is stopped.
 *
 * The class keeps the source's fields. Each method is proved to leave the
 * fields equal to a function of their old values (`Started`, `StoppedOnAxis`,
 * `StoppedOnAxes`, `Ticked`), and the lemmas below state what those functions
 * promise: which axes become active, which events are emitted, and that the
 * decay stops every axis after finitely many ticks.
 */
module MomentumEngine {
  import opened Common

  /** The momentum of one axis: a direction sign and a speed in pixels per frame. */
  datatype AxisMomentum = AxisMomentum(direction: int, pxPerFrame: real)

  /** What `stopMomentumOnAxis` leaves on a stopped axis. */
  const Halted := AxisMomentum(0, 0.0)

  /** The push reported for an axis that does not move this tick. */
  const NoPush := Push(0, 0.0)

  /** The events the engine dispatches, in dispatch order in the `events` log. */
  datatype Event =
    | Start
    | StartOnAxis(axis: Axis)
    | StopOnAxis(axis: Axis)
    | Stop
    | PushBy(pushBy: XY<Push>)

  datatype Config = Config(
    axes: seq<Axis>,
    maxPxPerFrame: real,
    minPxPerFrame: real,
    subtractMomentumPerFrame: real)

  /** The source's defaults: at most 35 px per frame, stop below 0.5, lose 0.2 per frame. */
  const DefaultConfig := Config([X, Y], 35.0, 0.5, 0.2)

  /** The engine's mutable fields as one value. */
  datatype State = State(
    isActive: XY<bool>,
    current: XY<AxisMomentum>,
    frameRequested: bool,
    events: seq<Event>)

  /** Only configured axes are ever active. */
  ghost predicate Inv(c: Config, s: State) {
    ValidAxes(c.axes) && (forall a :: s.isActive.Get(a) ==> a in c.axes)
  }

  // ---------------------------------------------------------------------------
  // Stopping

  /** `stopMomentumOnAxis(a)` on the state `s`. */
  function StoppedOnAxis(s: State, a: Axis): State {
    if !s.isActive.Get(a) then s
    else
      var active := s.isActive.With(a, false);
      var stopped := s.(isActive := active,
                        current := s.current.With(a, Halted),
                        events := s.events + [StopOnAxis(a)]);
      if AnyActive(active) then stopped
      else stopped.(frameRequested := false, events := stopped.events + [Stop])
  }

  /** `stopMomentumOnAxis` applied to each axis of `axes` in order. */
  function StoppedOnAxes(s: State, axes: seq<Axis>): State {
    if axes == [] then s
    else StoppedOnAxis(StoppedOnAxes(s, axes[..|axes| - 1]), axes[|axes| - 1])
  }

  /** The per-axis stop event that `stopMomentumOnAxis` emits when the axis was active. */
  function StopEventOf(wasActive: XY<bool>): Axis -> seq<Event> {
    a => if wasActive.Get(a) then [StopOnAxis(a)] else []
  }

  /**
   * `stopMomentumOnAxis(a)`: only axis `a` loses its flag, and its momentum is
   * zeroed only if it was active, in which case `StopOnAxis(a)` is emitted; the
   * global `Stop` follows, and the frame is cancelled, exactly when the call
   * deactivated the last active axis. An inactive axis leaves everything as is.
   */
  lemma StoppedOnAxisEffect(s: State, a: Axis)
    ensures var r := StoppedOnAxis(s, a);
      var lastStopped := AnyActive(s.isActive) && !AnyActive(r.isActive);
      && (forall b :: r.isActive.Get(b) == (s.isActive.Get(b) && b != a))
      && (forall b :: r.current.Get(b) == if b == a && s.isActive.Get(a) then Halted else s.current.Get(b))
      && r.events == s.events + StopEventOf(s.isActive)(a) + (if lastStopped then [Stop] else [])
      && r.frameRequested == (s.frameRequested && !lastStopped)
      && (!s.isActive.Get(a) ==> r == s)
  {
  }

  /**
   * Stopping every axis of a list in order: the listed axes end inactive and
   * the others keep their flag; the listed axes that were active are zeroed,
   * the others keep their momentum.
   */
  lemma {:induction false} StoppedOnAxesFlags(s: State, axes: seq<Axis>)
    requires ValidAxes(axes)
    ensures var r := StoppedOnAxes(s, axes);
      && (forall a :: r.isActive.Get(a) == (s.isActive.Get(a) && a !in axes))
      && (forall a :: r.current.Get(a) ==
            if a in axes && s.isActive.Get(a) then Halted else s.current.Get(a))
  {
    if axes != [] {
      var init := axes[..|axes| - 1];
      var last := axes[|axes| - 1];
      assert ValidAxes(init);
      assert last !in init by { DistinctPrefix(axes, |axes| - 1); }
      assert forall a :: a in axes <==> a in init || a == last by { PrefixStep(axes, |axes| - 1); }
      StoppedOnAxesFlags(s, init);
      StoppedOnAxisEffect(StoppedOnAxes(s, init), last);
    }
  }

  /**
   * The log of stopping every axis of a list in order: each listed axis that
   * was active emits `StopOnAxis`, in list order; one `Stop` follows iff the
   * calls deactivated the last active axis, and only then is the frame
   * cancelled.
   */
  lemma {:induction false} StoppedOnAxesLog(s: State, axes: seq<Axis>)
    requires ValidAxes(axes)
    ensures var r := StoppedOnAxes(s, axes);
      var lastStopped := AnyActive(s.isActive) && !AnyActive(r.isActive);
      && r.events == s.events + Collect(axes, StopEventOf(s.isActive))
                              + (if lastStopped then [Stop] else [])
      && r.frameRequested == (s.frameRequested && !lastStopped)
  {
    if axes != [] {
      var init := axes[..|axes| - 1];
      var last := axes[|axes| - 1];
      DistinctInit(axes);
      StoppedOnAxesLog(s, init);
      assert StoppedOnAxes(s, init).isActive.Get(last) == s.isActive.Get(last) by {
        StoppedOnAxesFlags(s, init);
      }
      StoppedOnAxesLogStep(s, Collect(init, StopEventOf(s.isActive)), StoppedOnAxes(s, init), last);
    }
  }

  /**
   * One step of `StoppedOnAxesLog`: from the state `t` reached after the
   * earlier axes, stopping `last` extends the log by its stop event and moves
   * the final `Stop` to after it.
   */
  lemma StoppedOnAxesLogStep(s: State, logged: seq<Event>, t: State, last: Axis)
    requires t.isActive.Get(last) == s.isActive.Get(last)
    requires t.events == s.events + logged
               + (if AnyActive(s.isActive) && !AnyActive(t.isActive) then [Stop] else [])
    requires t.frameRequested == (s.frameRequested && !(AnyActive(s.isActive) && !AnyActive(t.isActive)))
    ensures var r := StoppedOnAxis(t, last);
      var lastStopped := AnyActive(s.isActive) && !AnyActive(r.isActive);
      && r.events == s.events + (logged + StopEventOf(s.isActive)(last))
                              + (if lastStopped then [Stop] else [])
      && r.frameRequested == (s.frameRequested && !lastStopped)
  {
    StoppedOnAxisEffect(t, last);
  }

  /** Both halves of the effect of stopping a list of axes. */
  lemma StoppedOnAxesEffect(s: State, axes: seq<Axis>)
    requires ValidAxes(axes)
    ensures var r := StoppedOnAxes(s, axes);
      var lastStopped := AnyActive(s.isActive) && !AnyActive(r.isActive);
      && (forall a :: r.isActive.Get(a) == (s.isActive.Get(a) && a !in axes))
      && (forall a :: r.current.Get(a) ==
            if a in axes && s.isActive.Get(a) then Halted else s.current.Get(a))
      && r.events == s.events + Collect(axes, StopEventOf(s.isActive))
                              + (if lastStopped then [Stop] else [])
      && r.frameRequested == (s.frameRequested && !lastStopped)
  {
    StoppedOnAxesFlags(s, axes);
    StoppedOnAxesLog(s, axes);
  }

  // ---------------------------------------------------------------------------
  // Starting

  /** The speed limit applied to one axis of the momentum handed to `startMomentum`. */
  function Clamp(c: Config, m: AxisMomentum): AxisMomentum {
    if m.pxPerFrame > 0.0 && m.pxPerFrame > c.maxPxPerFrame then m.(pxPerFrame := c.maxPxPerFrame) else m
  }

  function ClampOf(c: Config, m: XY<AxisMomentum>): Axis -> AxisMomentum {
    a => Clamp(c, m.Get(a))
  }

  function ActivatedOf(wasActive: XY<bool>, m: XY<AxisMomentum>): Axis -> bool {
    a => wasActive.Get(a) || m.Get(a).pxPerFrame > 0.0
  }

  function StartEventOf(wasActive: XY<bool>): Axis -> seq<Event> {
    a => if !wasActive.Get(a) then [StartOnAxis(a)] else []
  }

  /** `startMomentum(m)` on the state `s`. */
  function Started(c: Config, s: State, m: XY<AxisMomentum>): State {
    State(UpdateOn(s.isActive, c.axes, ActivatedOf(s.isActive, m)),
          UpdateOn(m, c.axes, ClampOf(c, m)),
          true,
          s.events + Collect(c.axes, StartEventOf(s.isActive))
                   + (if !AnyActive(s.isActive) then [Start] else []))
  }

  /**
   * Starting momentum: a configured axis with a positive speed becomes active,
   * keeps its direction and moves at the smaller of its speed and
   * `maxPxPerFrame`; any other axis keeps its flag and its momentum.
   * `StartOnAxis` is emitted for every configured axis that was inactive
   * before, even one that stays inactive, and `Start` only if no axis was
   * active before. A frame is requested.
   */
  lemma StartedEffect(c: Config, s: State, m: XY<AxisMomentum>)
    requires ValidAxes(c.axes)
    ensures var r := Started(c, s, m);
      var added := r.events[|s.events|..];
      && |r.events| >= |s.events| && r.events[..|s.events|] == s.events
      && (forall a :: a in c.axes && m.Get(a).pxPerFrame > 0.0 ==>
            && r.isActive.Get(a)
            && r.current.Get(a).direction == m.Get(a).direction
            && r.current.Get(a).pxPerFrame <= c.maxPxPerFrame
            && r.current.Get(a).pxPerFrame <= m.Get(a).pxPerFrame
            && (r.current.Get(a).pxPerFrame == m.Get(a).pxPerFrame
                || r.current.Get(a).pxPerFrame == c.maxPxPerFrame))
      && (forall a :: !(a in c.axes && m.Get(a).pxPerFrame > 0.0) ==>
            r.isActive.Get(a) == s.isActive.Get(a) && r.current.Get(a) == m.Get(a))
      && (forall a :: StartOnAxis(a) in added <==> a in c.axes && !s.isActive.Get(a))
      && (Start in added <==> !AnyActive(s.isActive))
      && r.frameRequested
  {
    var r := Started(c, s, m);
    var onAxis := Collect(c.axes, StartEventOf(s.isActive));
    var added := r.events[|s.events|..];
    assert added == onAxis + (if !AnyActive(s.isActive) then [Start] else []);
    forall a
      ensures StartOnAxis(a) in added <==> a in c.axes && !s.isActive.Get(a)
    {
      InCollect(c.axes, StartEventOf(s.isActive), StartOnAxis(a));
    }
    InCollect(c.axes, StartEventOf(s.isActive), Start);
  }

  /** The scenario of a 40 px/frame release with the default 35 px/frame limit. */
  lemma StartClampsToMaximum()
    ensures var m := XY(AxisMomentum(1, 40.0), AxisMomentum(0, 0.0));
      Started(DefaultConfig, State(XY(false, false), XY(Halted, Halted), false, []), m)
        .current.x.pxPerFrame == 35.0
  {
  }

  // ---------------------------------------------------------------------------
  // One tick

  /** The state and the push record while a tick walks the axes. */
  datatype Walk = Walk(state: State, pushBy: XY<Push>)

  /** The body of the tick's per-axis callback. */
  function TickAxis(c: Config, w: Walk, a: Axis): Walk {
    if !AnyActive(w.state.isActive) then w
    else
      var m := w.state.current.Get(a);
      if m.pxPerFrame >= c.minPxPerFrame then
        Walk(w.state.(current := w.state.current.With(a, m.(pxPerFrame := m.pxPerFrame - c.subtractMomentumPerFrame))),
             w.pushBy.With(a, Push(m.direction, m.pxPerFrame)))
      else
        Walk(StoppedOnAxis(w.state, a), w.pushBy)
  }

  function TickAxes(c: Config, w: Walk, axes: seq<Axis>): Walk {
    if axes == [] then w
    else TickAxis(c, TickAxes(c, w, axes[..|axes| - 1]), axes[|axes| - 1])
  }

  /** `_runMomentum` on the state `s`; the frame that runs it is consumed first. */
  function Ticked(c: Config, s: State): State {
    var w := TickAxes(c, Walk(s.(frameRequested := false), XY(NoPush, NoPush)), c.axes);
    if !AnyActive(w.state.isActive) then StoppedOnAxes(w.state, c.axes)
    else w.state.(events := w.state.events + [PushBy(w.pushBy)], frameRequested := true)
  }

  /**
   * Whether axis `b`, active when the tick starts, is still active once the
   * callbacks of the axes in `done` have run: its own callback has not run
   * yet, or it was fast enough to push rather than stop.
   */
  predicate StillActive(c: Config, s: State, done: seq<Axis>, b: Axis) {
    s.isActive.Get(b) && (b !in done || s.current.Get(b).pxPerFrame >= c.minPxPerFrame)
  }

  /**
   * Whether the "nothing active" guard at the head of the tick's callback lets
   * it run, once the callbacks of the axes in `done` have run.
   */
  predicate GuardOpen(c: Config, s: State, done: seq<Axis>) {
    StillActive(c, s, done, X) || StillActive(c, s, done, Y)
  }

  /**
   * One per-axis callback of a tick, on an axis `a`. The guard tests only
   * whether some axis is active, so while one is, `a` itself need not be: at a
   * speed of at least `minPxPerFrame` it reports a push of its direction and
   * speed and loses `subtractMomentumPerFrame`, and below the minimum it is
   * stopped (a no-op on an inactive `a`). With nothing active the callback
   * changes nothing. Other axes are untouched, no axis is activated, and the
   * log is only appended to.
   */
  lemma TickAxisEffect(c: Config, w: Walk, a: Axis)
    ensures var r := TickAxis(c, w, a);
      var m := w.state.current.Get(a);
      && |r.state.events| >= |w.state.events|
      && r.state.events[..|w.state.events|] == w.state.events
      && (forall b :: r.state.isActive.Get(b) ==> w.state.isActive.Get(b))
      && (forall b :: b != a ==>
            && r.state.isActive.Get(b) == w.state.isActive.Get(b)
            && r.state.current.Get(b) == w.state.current.Get(b)
            && r.pushBy.Get(b) == w.pushBy.Get(b))
      && (!AnyActive(w.state.isActive) ==> r == w)
      && (AnyActive(w.state.isActive) && m.pxPerFrame >= c.minPxPerFrame ==>
            && r.state.isActive.Get(a) == w.state.isActive.Get(a)
            && r.pushBy.Get(a) == Push(m.direction, m.pxPerFrame)
            && r.state.current.Get(a) == m.(pxPerFrame := m.pxPerFrame - c.subtractMomentumPerFrame))
      && (AnyActive(w.state.isActive) && m.pxPerFrame < c.minPxPerFrame ==>
            && !r.state.isActive.Get(a)
            && r.state.current.Get(a) == (if w.state.isActive.Get(a) then Halted else m)
            && r.pushBy.Get(a) == w.pushBy.Get(a)
            && (w.state.isActive.Get(a) ==> r.state.events[|w.state.events|] == StopOnAxis(a)))
  {
    StoppedOnAxisEffect(w.state, a);
  }

  /**
   * The per-axis walk of a tick over a list of axes, on the axes active when
   * it starts. Such an axis stays active through the walk until its own turn,
   * so the guard never skips it: at a speed of at least `minPxPerFrame` it
   * reports a push of its direction and speed, loses
   * `subtractMomentumPerFrame` and stays active; below the minimum it is
   * stopped. Axes outside the list are untouched, and the walk never
   * activates an axis.
   */
  lemma {:induction false} TickAxesActive(c: Config, w: Walk, axes: seq<Axis>)
    requires ValidAxes(axes)
    ensures var r := TickAxes(c, w, axes);
      && (forall a :: r.state.isActive.Get(a) == StillActive(c, w.state, axes, a))
      && (forall a :: a !in axes ==>
            && r.state.current.Get(a) == w.state.current.Get(a)
            && r.pushBy.Get(a) == w.pushBy.Get(a))
      && (forall a :: a in axes && w.state.isActive.Get(a)
                      && w.state.current.Get(a).pxPerFrame >= c.minPxPerFrame ==>
            var m := w.state.current.Get(a);
            && r.pushBy.Get(a) == Push(m.direction, m.pxPerFrame)
            && r.state.current.Get(a) == m.(pxPerFrame := m.pxPerFrame - c.subtractMomentumPerFrame))
      && (forall a :: a in axes && w.state.isActive.Get(a)
                      && w.state.current.Get(a).pxPerFrame < c.minPxPerFrame ==>
            && r.state.current.Get(a) == Halted
            && r.pushBy.Get(a) == w.pushBy.Get(a))
  {
    if axes != [] {
      var init := axes[..|axes| - 1];
      var last := axes[|axes| - 1];
      DistinctInit(axes);
      assert forall a :: a in axes <==> a in init || a == last by { PrefixStep(axes, |axes| - 1); }
      TickAxesActive(c, w, init);
      TickAxisEffect(c, TickAxes(c, w, init), last);
    }
  }

  /**
   * The per-axis walk of a tick on the listed axes that are inactive when it
   * starts. The guard still lets the callback of such an axis run whenever
   * some axis is active at its turn (`GuardOpen`); then, at a speed of at
   * least `minPxPerFrame`, it reports a push of its direction and speed and
   * loses `subtractMomentumPerFrame`. Otherwise its push and momentum are left
   * as they were.
   */
  lemma {:induction false} TickAxesIdle(c: Config, w: Walk, axes: seq<Axis>)
    requires ValidAxes(axes)
    ensures var r := TickAxes(c, w, axes);
      forall i :: 0 <= i < |axes| && !w.state.isActive.Get(axes[i]) ==>
        var m := w.state.current.Get(axes[i]);
        if GuardOpen(c, w.state, axes[..i]) && m.pxPerFrame >= c.minPxPerFrame then
          && r.pushBy.Get(axes[i]) == Push(m.direction, m.pxPerFrame)
          && r.state.current.Get(axes[i]) == m.(pxPerFrame := m.pxPerFrame - c.subtractMomentumPerFrame)
        else
          && r.pushBy.Get(axes[i]) == w.pushBy.Get(axes[i])
          && r.state.current.Get(axes[i]) == m
  {
    if axes != [] {
      var n := |axes| - 1;
      var init := axes[..n];
      var last := axes[n];
      DistinctInit(axes);
      TickAxesIdle(c, w, init);
      var w0 := TickAxes(c, w, init);
      TickAxisEffect(c, w0, last);
      forall i | 0 <= i < n
        ensures axes[i] == init[i] && axes[..i] == init[..i] && axes[i] != last
      {
        DistinctPrefix(axes, n);
      }
      if !w.state.isActive.Get(last) {
        TickAxesActive(c, w, init);
        assert AnyActive(w0.state.isActive) == GuardOpen(c, w.state, init);
      }
    }
  }

  /** Both halves of the walk: the axes active when the tick starts and the idle ones. */
  lemma TickAxesFlags(c: Config, w: Walk, axes: seq<Axis>)
    requires ValidAxes(axes)
    ensures var r := TickAxes(c, w, axes);
      && (forall a :: r.state.isActive.Get(a) == StillActive(c, w.state, axes, a))
      && (forall a :: a !in axes ==>
            && r.state.current.Get(a) == w.state.current.Get(a)
            && r.pushBy.Get(a) == w.pushBy.Get(a))
      && (forall a :: a in axes && w.state.isActive.Get(a)
                      && w.state.current.Get(a).pxPerFrame >= c.minPxPerFrame ==>
            var m := w.state.current.Get(a);
            && r.pushBy.Get(a) == Push(m.direction, m.pxPerFrame)
            && r.state.current.Get(a) == m.(pxPerFrame := m.pxPerFrame - c.subtractMomentumPerFrame))
      && (forall a :: a in axes && w.state.isActive.Get(a)
                      && w.state.current.Get(a).pxPerFrame < c.minPxPerFrame ==>
            && r.state.current.Get(a) == Halted
            && r.pushBy.Get(a) == w.pushBy.Get(a))
      && (forall i :: 0 <= i < |axes| && !w.state.isActive.Get(axes[i]) ==>
            var m := w.state.current.Get(axes[i]);
            if GuardOpen(c, w.state, axes[..i]) && m.pxPerFrame >= c.minPxPerFrame then
              && r.pushBy.Get(axes[i]) == Push(m.direction, m.pxPerFrame)
              && r.state.current.Get(axes[i]) == m.(pxPerFrame := m.pxPerFrame - c.subtractMomentumPerFrame)
            else
              && r.pushBy.Get(axes[i]) == w.pushBy.Get(axes[i])
              && r.state.current.Get(axes[i]) == m)
  {
    TickAxesActive(c, w, axes);
    TickAxesIdle(c, w, axes);
  }

  /**
   * The log of the walk: it only appends, and every axis of the list that is
   * active at the start with a speed below `minPxPerFrame` appends its
   * `StopOnAxis`.
   */
  lemma {:induction false} TickAxesLog(c: Config, w: Walk, axes: seq<Axis>)
    requires ValidAxes(axes)
    ensures var r := TickAxes(c, w, axes);
      && |r.state.events| >= |w.state.events|
      && r.state.events[..|w.state.events|] == w.state.events
      && (forall a :: a in axes && w.state.isActive.Get(a)
                      && w.state.current.Get(a).pxPerFrame < c.minPxPerFrame ==>
            StopOnAxis(a) in r.state.events[|w.state.events|..])
  {
    if axes != [] {
      var init := axes[..|axes| - 1];
      var last := axes[|axes| - 1];
      assert ValidAxes(init);
      assert forall a :: a in axes <==> a in init || a == last by { PrefixStep(axes, |axes| - 1); }
      TickAxesLog(c, w, init);
      var w0 := TickAxes(c, w, init);
      var r := TickAxis(c, w0, last);
      var n := |w.state.events|;
      var n0 := |w0.state.events|;
      assert |r.state.events| >= n0 && r.state.events[..n0] == w0.state.events by {
        TickAxisEffect(c, w0, last);
      }
      assert r.state.events[..n] == w.state.events by {
        assert r.state.events[..n] == r.state.events[..n0][..n];
      }
      forall a | a in init && w.state.isActive.Get(a) && w.state.current.Get(a).pxPerFrame < c.minPxPerFrame
        ensures StopOnAxis(a) in r.state.events[n..]
      {
        assert w0.state.events[n..] == r.state.events[n..n0];
      }
      if w.state.isActive.Get(last) && w.state.current.Get(last).pxPerFrame < c.minPxPerFrame {
        assert w0.state.isActive.Get(last) && w0.state.current.Get(last) == w.state.current.Get(last) by {
          DistinctInit(axes);
          TickAxesActive(c, w, init);
        }
        assert r.state.events[n0] == StopOnAxis(last) by { TickAxisEffect(c, w0, last); }
        assert r.state.events[n..][n0 - n] == StopOnAxis(last);
      }
    }
  }

  /**
   * After a tick, a push is dispatched and a new frame requested iff some axis
   * is still active; otherwise the stop path runs and no frame is pending. The
   * push carries, for each configured axis whose callback got past the guard
   * at a speed of at least `minPxPerFrame`, that axis's direction and speed;
   * every other axis reports no push.
   */
  lemma TickedSchedules(c: Config, s: State)
    requires Inv(c, s)
    ensures var r := Ticked(c, s);
      && (r.frameRequested <==> AnyActive(r.isActive))
      && (!AnyActive(s.isActive) ==> r == s.(frameRequested := false))
      && (AnyActive(r.isActive) ==>
            && |r.events| > 0 && r.events[|r.events| - 1].PushBy?
            && var p := r.events[|r.events| - 1].pushBy;
            && (forall a :: a in c.axes && s.isActive.Get(a) ==>
                  var m := s.current.Get(a);
                  p.Get(a) == if m.pxPerFrame >= c.minPxPerFrame then Push(m.direction, m.pxPerFrame) else NoPush)
            && (forall i :: 0 <= i < |c.axes| && !s.isActive.Get(c.axes[i]) ==>
                  var m := s.current.Get(c.axes[i]);
                  p.Get(c.axes[i]) ==
                    if GuardOpen(c, s, c.axes[..i]) && m.pxPerFrame >= c.minPxPerFrame
                    then Push(m.direction, m.pxPerFrame) else NoPush)
            && (forall a :: a !in c.axes ==> p.Get(a) == NoPush))
  {
    var w0 := Walk(s.(frameRequested := false), XY(NoPush, NoPush));
    var w := TickAxes(c, w0, c.axes);
    TickAxesActive(c, w0, c.axes);
    if !AnyActive(w.state.isActive) {
      StoppedOnAxesEffect(w.state, c.axes);
      CollectEmpty(c.axes, StopEventOf(w.state.isActive));
      assert !w.state.frameRequested by {
        if !AnyActive(s.isActive) {
          TickAxesInactive(c, w0, c.axes);
        } else {
          TickAxesFrame(c, w0, c.axes);
        }
      }
    } else {
      WalkPush(c, w0, c.axes);
      assert forall done :: GuardOpen(c, w0.state, done) == GuardOpen(c, s, done);
    }
    if !AnyActive(s.isActive) {
      TickAxesInactive(c, w0, c.axes);
    }
  }

  /** The push record a walk that starts from no push at all ends with. */
  lemma WalkPush(c: Config, w: Walk, axes: seq<Axis>)
    requires ValidAxes(axes) && w.pushBy == XY(NoPush, NoPush)
    ensures var p := TickAxes(c, w, axes).pushBy;
      && (forall a :: a in axes && w.state.isActive.Get(a) ==>
            var m := w.state.current.Get(a);
            p.Get(a) == if m.pxPerFrame >= c.minPxPerFrame then Push(m.direction, m.pxPerFrame) else NoPush)
      && (forall i :: 0 <= i < |axes| && !w.state.isActive.Get(axes[i]) ==>
            var m := w.state.current.Get(axes[i]);
            p.Get(axes[i]) ==
              if GuardOpen(c, w.state, axes[..i]) && m.pxPerFrame >= c.minPxPerFrame
              then Push(m.direction, m.pxPerFrame) else NoPush)
      && (forall a :: a !in axes ==> p.Get(a) == NoPush)
  {
    TickAxesFlags(c, w, axes);
  }

  /** With nothing active, every per-axis callback returns at once. */
  lemma {:induction false} TickAxesInactive(c: Config, w: Walk, axes: seq<Axis>)
    requires !AnyActive(w.state.isActive)
    ensures TickAxes(c, w, axes) == w
  {
    if axes != [] {
      TickAxesInactive(c, w, axes[..|axes| - 1]);
    }
  }

  /** A walk that starts with no frame pending never requests one. */
  lemma {:induction false} TickAxesFrame(c: Config, w: Walk, axes: seq<Axis>)
    requires !w.state.frameRequested
    ensures !TickAxes(c, w, axes).state.frameRequested
  {
    if axes != [] {
      TickAxesFrame(c, w, axes[..|axes| - 1]);
    }
  }

  /**
   * How much decay an axis has left: 0 when inactive, 1 when it will stop on
   * the next tick, and `(speed - min) / subtract + 2` while it still pushes.
   */
  function AxisRank(c: Config, s: State, a: Axis): real
    requires c.subtractMomentumPerFrame > 0.0
  {
    var m := s.current.Get(a);
    if !s.isActive.Get(a) then 0.0
    else if m.pxPerFrame >= c.minPxPerFrame then (m.pxPerFrame - c.minPxPerFrame) / c.subtractMomentumPerFrame + 2.0
    else 1.0
  }

  function Rank(c: Config, s: State): (r: real)
    requires c.subtractMomentumPerFrame > 0.0
    ensures r >= 0.0
    ensures AnyActive(s.isActive) ==> r >= 1.0
  {
    AxisRank(c, s, X) + AxisRank(c, s, Y)
  }

  /**
   * With a positive `subtractMomentumPerFrame`, every tick in which some axis is
   * active lowers the rank by at least one, and a tick keeps the invariant.
   */
  lemma TickedDecreasesRank(c: Config, s: State)
    requires Inv(c, s) && c.subtractMomentumPerFrame > 0.0 && AnyActive(s.isActive)
    ensures Inv(c, Ticked(c, s))
    ensures Rank(c, Ticked(c, s)) <= Rank(c, s) - 1.0
  {
    var w0 := Walk(s.(frameRequested := false), XY(NoPush, NoPush));
    var w := TickAxes(c, w0, c.axes);
    TickAxesActive(c, w0, c.axes);
    var r := Ticked(c, s);
    if !AnyActive(w.state.isActive) {
      StoppedOnAxesEffect(w.state, c.axes);
    }
    assert forall a :: r.isActive.Get(a) == w.state.isActive.Get(a);
    assert forall a :: r.isActive.Get(a) ==> r.current.Get(a) == w.state.current.Get(a);
    AxisRankStep(c, s, r, X);
    AxisRankStep(c, s, r, Y);
  }

  /**
   * One axis of `TickedDecreasesRank`: an axis still active after the tick was
   * active before at a speed of at least `minPxPerFrame` and has lost
   * `subtractMomentumPerFrame`, so its rank drops by at least one.
   */
  lemma AxisRankStep(c: Config, s: State, r: State, a: Axis)
    requires c.subtractMomentumPerFrame > 0.0
    requires !s.isActive.Get(a) ==> !r.isActive.Get(a)
    requires r.isActive.Get(a) ==>
      var m := s.current.Get(a);
      m.pxPerFrame >= c.minPxPerFrame && r.current.Get(a) == m.(pxPerFrame := m.pxPerFrame - c.subtractMomentumPerFrame)
    ensures AxisRank(c, r, a) <= AxisRank(c, s, a) - (if s.isActive.Get(a) then 1.0 else 0.0)
  {
    var m := s.current.Get(a);
    if s.isActive.Get(a) && m.pxPerFrame >= c.minPxPerFrame {
      DivideStep(m.pxPerFrame - c.minPxPerFrame, c.subtractMomentumPerFrame);
    }
  }

  lemma DivideStep(p: real, d: real)
    requires d > 0.0
    ensures (p - d) / d == p / d - 1.0
  {
    var x := (p - d) / d;
    var y := p / d - 1.0;
    assert x * d == p - d;
    assert y * d == p - d;
    assert (x - y) * d == 0.0;
    assert x - y == ((x - y) * d) / d;
  }

  /** `n` ticks in a row. */
  function Ticks(c: Config, s: State, n: nat): State
    decreases n
  {
    if n == 0 then s else Ticks(c, Ticked(c, s), n - 1)
  }

  /** An inactive engine stays inactive, tick after tick. */
  lemma {:induction false} TicksInactive(c: Config, s: State, n: nat)
    requires Inv(c, s) && !AnyActive(s.isActive)
    ensures !AnyActive(Ticks(c, s, n).isActive)
    decreases n
  {
    if n > 0 {
      TickedSchedules(c, s);
      TicksInactive(c, Ticked(c, s), n - 1);
    }
  }

  /**
   * Termination of the decay: with a positive `subtractMomentumPerFrame`, no
   * axis is active any more after as many ticks as the rank.
   */
  lemma {:induction false} MomentumStops(c: Config, s: State, n: nat)
    requires Inv(c, s) && c.subtractMomentumPerFrame > 0.0
    requires n as real >= Rank(c, s)
    ensures !AnyActive(Ticks(c, s, n).isActive)
    decreases n
  {
    if !AnyActive(s.isActive) {
      TicksInactive(c, s, n);
    } else {
      TickedDecreasesRank(c, s);
      MomentumStops(c, Ticked(c, s), n - 1);
    }
  }

  // ---------------------------------------------------------------------------
  // The engine object

  class Momentum {
    const config: Config
    var isActive: XY<bool>
    var currentMomentum: XY<AxisMomentum>
    var frameRequested: bool
    var events: seq<Event>

    ghost function Snapshot(): State
      reads this
    {
      State(isActive, currentMomentum, frameRequested, events)
    }

    ghost predicate Valid()
      reads this
    {
      Inv(config, Snapshot())
    }

    /** A fresh engine: nothing active, no momentum, no frame, no events. */
    constructor (config: Config)
      requires ValidAxes(config.axes)
      ensures Valid() && this.config == config
      ensures Snapshot() == State(XY(false, false), XY(Halted, Halted), false, [])
    {
      this.config := config;
      isActive := XY(false, false);
      currentMomentum := XY(Halted, Halted);
      frameRequested := false;
      events := [];
    }

    /**
     * `startMomentum`: returns the momentum record as the caller's object reads
     * after the call (the source clamps the caller's object in place).
     */
    method StartMomentum(momentum: XY<AxisMomentum>) returns (written: XY<AxisMomentum>)
      requires Valid()
      modifies this
      ensures Valid()
      ensures Snapshot() == Started(config, old(Snapshot()), momentum)
      ensures written == currentMomentum
    {
      ghost var s0 := Snapshot();
      var wasActive := isActive;
      var m := ActivateAxes(momentum);
      currentMomentum := m;
      frameRequested := true;
      DispatchStart(wasActive);
      written := m;
      assert Snapshot() == Started(config, s0, momentum);
    }

    /**
     * The per-axis loop of `startMomentum`: a configured axis with a positive
     * speed is activated, and the returned record has its speed clamped.
     */
    method ActivateAxes(momentum: XY<AxisMomentum>) returns (m: XY<AxisMomentum>)
      requires ValidAxes(config.axes)
      modifies this`isActive
      ensures m == UpdateOn(momentum, config.axes, ClampOf(config, momentum))
      ensures isActive == UpdateOn(old(isActive), config.axes, ActivatedOf(old(isActive), momentum))
    {
      ghost var wasActive := isActive;
      m := momentum;
      for i := 0 to |config.axes|
        invariant m == UpdateOn(momentum, config.axes[..i], ClampOf(config, momentum))
        invariant isActive == UpdateOn(wasActive, config.axes[..i], ActivatedOf(wasActive, momentum))
      {
        var a := config.axes[i];
        UpdateOnStep(momentum, config.axes, i, ClampOf(config, momentum));
        UpdateOnStep(wasActive, config.axes, i, ActivatedOf(wasActive, momentum));
        DistinctPrefix(config.axes, i);
        assert m.Get(a) == momentum.Get(a) && isActive.Get(a) == wasActive.Get(a);
        if m.Get(a).pxPerFrame > 0.0 {
          if m.Get(a).pxPerFrame > config.maxPxPerFrame {
            m := m.With(a, m.Get(a).(pxPerFrame := config.maxPxPerFrame));
          }
          isActive := isActive.With(a, true);
        }
      }
      assert config.axes[..|config.axes|] == config.axes;
    }

    /**
     * The dispatches at the end of `startMomentum`: `StartOnAxis` for each
     * configured axis that was inactive, then `Start` if none was active.
     */
    method DispatchStart(wasActive: XY<bool>)
      modifies this`events
      ensures events == old(events) + Collect(config.axes, StartEventOf(wasActive))
                                    + (if !AnyActive(wasActive) then [Start] else [])
    {
      for i := 0 to |config.axes|
        invariant events == old(events) + Collect(config.axes[..i], StartEventOf(wasActive))
      {
        CollectStep(config.axes, i, StartEventOf(wasActive));
        if !wasActive.Get(config.axes[i]) {
          events := events + [StartOnAxis(config.axes[i])];
        }
      }
      assert config.axes[..|config.axes|] == config.axes;
      if !wasActive.x && !wasActive.y {
        events := events + [Start];
      }
    }

    /** `stopMomentumOnAxis`. */
    method StopMomentumOnAxis(axis: Axis)
      requires Valid()
      modifies this
      ensures Valid()
      ensures Snapshot() == StoppedOnAxis(old(Snapshot()), axis)
    {
      if isActive.Get(axis) {
        currentMomentum := currentMomentum.With(axis, Halted);
        isActive := isActive.With(axis, false);
        events := events + [StopOnAxis(axis)];
        if !isActive.x && !isActive.y {
          frameRequested := false;
          events := events + [Stop];
        }
      }
    }

    /** `stopMomentum`: afterwards no axis is active. */
    method StopMomentum()
      requires Valid()
      modifies this
      ensures Valid()
      ensures Snapshot() == StoppedOnAxes(old(Snapshot()), config.axes)
      ensures !AnyActive(isActive)
    {
      for i := 0 to |config.axes|
        invariant Valid()
        invariant Snapshot() == StoppedOnAxes(old(Snapshot()), config.axes[..i])
      {
        PrefixStep(config.axes, i);
        StopMomentumOnAxis(config.axes[i]);
      }
      assert config.axes[..|config.axes|] == config.axes;
      StoppedOnAxesFlags(old(Snapshot()), config.axes);
      assert old(isActive.Get(X)) ==> X in config.axes;
      assert old(isActive.Get(Y)) ==> Y in config.axes;
      assert !isActive.Get(X) && !isActive.Get(Y);
    }

    /** `_runMomentum`: one tick, run by the frame that was requested. */
    method RunMomentum()
      requires Valid()
      modifies this
      ensures Valid()
      ensures Snapshot() == Ticked(config, old(Snapshot()))
    {
      frameRequested := false;
      var pushBy := XY(NoPush, NoPush);
      ghost var w0 := Walk(Snapshot(), pushBy);
      for i := 0 to |config.axes|
        invariant Valid()
        invariant Walk(Snapshot(), pushBy) == TickAxes(config, w0, config.axes[..i])
      {
        var a := config.axes[i];
        PrefixStep(config.axes, i);
        if isActive.x || isActive.y {
          var m := currentMomentum.Get(a);
          if m.pxPerFrame >= config.minPxPerFrame {
            pushBy := pushBy.With(a, Push(m.direction, m.pxPerFrame));
            currentMomentum := currentMomentum.With(a, m.(pxPerFrame := m.pxPerFrame - config.subtractMomentumPerFrame));
          } else {
            StopMomentumOnAxis(a);
          }
        }
      }
      assert config.axes[..|config.axes|] == config.axes;
      if !isActive.x && !isActive.y {
        StopMomentum();
      } else {
        events := events + [PushBy(pushBy)];
        frameRequested := true;
      }
    }
  }
}
