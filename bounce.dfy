/**
 * The bounce engine (src/Bounce.js): a per-axis eased animation from a start
 * position to a target position over a duration. Each tick moves every active
 * axis along its easing curve, snaps it to the target once the time is up or it
 * is within half a pixel, reports the positions, and only then ends the axes
 * that reached their target.
 *
 * The class keeps the source's fields; each method is proved to leave them
 * equal to a function of their old values (`StartedOnAxis`, `StoppedOnAxis`,
 * `StoppedWhere`, `Ticked`), and the lemmas state what those functions promise.
 * The clock and the easing library are parameters: `now` is the time a call
 * runs at, and `ease` maps an algorithm name and `(t, b, c, d)` to a position.
 */
module BounceEngine {
  import opened Common

  /** An easing library: `ease(name, t, b, c, d)` is algorithm `name` at time `t`. */
  type Ease = (string, real, real, real, real) -> real

  datatype Event =
    | AnimateStart
    | AnimateStartOnAxis(axis: Axis)
    | AnimatePositionChange(position: XY<real>)
    | AnimateEndOnAxis(axis: Axis)
    | AnimateEnd

  /**
   * The configuration; `knownEases` is the set of algorithm names the easing
   * library defines.
   */
  datatype Config = Config(axes: seq<Axis>, animateTime: real, easeAlg: string, knownEases: set<string>)

  datatype State = State(
    isActive: XY<bool>,
    startPosition: XY<real>,
    currentPosition: XY<real>,
    targetPosition: XY<real>,
    animateTime: XY<real>,
    startTime: XY<real>,
    easeAlg: XY<string>,
    frameRequested: bool,
    events: seq<Event>)

  ghost predicate Inv(c: Config, s: State) {
    ValidAxes(c.axes) && (forall a :: s.isActive.Get(a) ==> a in c.axes)
  }

  /** The fields that only `startOnAxis` and a tick's position update write. */
  predicate SameAnimation(s: State, t: State) {
    && s.startPosition == t.startPosition
    && s.currentPosition == t.currentPosition
    && s.targetPosition == t.targetPosition
    && s.animateTime == t.animateTime
    && s.startTime == t.startTime
    && s.easeAlg == t.easeAlg
  }

  // ---------------------------------------------------------------------------
  // Starting

  /** The duration `startOnAxis` uses: the argument when positive, else the configured one. */
  function ChosenTime(c: Config, animateTime: real): real {
    if animateTime > 0.0 then animateTime else c.animateTime
  }

  /** The algorithm `startOnAxis` uses: the named one when given (non-empty) and known to the library, else the configured one. */
  function ChosenEase(c: Config, easeAlg: string): string {
    if easeAlg != "" && easeAlg in c.knownEases then easeAlg else c.easeAlg
  }

  /**
   * `startOnAxis(axis, start, target, animateTime, easeAlg)` at time `now`. An
   * absent `animateTime` is modelled as `0` and an absent `easeAlg` as `""`.
   */
  function StartedOnAxis(c: Config, s: State, axis: Axis, start: real, target: real,
                         animateTime: real, easeAlg: string, now: real): State {
    if axis !in c.axes then s
    else
      State(s.isActive.With(axis, true),
            s.startPosition.With(axis, start),
            s.currentPosition.With(axis, start),
            s.targetPosition.With(axis, target),
            s.animateTime.With(axis, ChosenTime(c, animateTime)),
            s.startTime.With(axis, now),
            s.easeAlg.With(axis, ChosenEase(c, easeAlg)),
            true,
            s.events + (if !AnyActive(s.isActive) then [AnimateStart] else []) + [AnimateStartOnAxis(axis)])
  }

  /**
   * Starting a bounce on a configured axis makes it active at its start
   * position, with a positive duration whenever the configured one is
   * positive, an algorithm the library knows whenever the configured one is
   * known, and a frame requested; `AnimateStart` precedes `AnimateStartOnAxis`
   * exactly when no axis was active. Other axes are untouched, and an
   * unconfigured axis changes nothing.
   */
  lemma StartedOnAxisEffect(c: Config, s: State, axis: Axis, start: real, target: real,
                            animateTime: real, easeAlg: string, now: real)
    requires Inv(c, s)
    ensures var r := StartedOnAxis(c, s, axis, start, target, animateTime, easeAlg, now);
      && Inv(c, r)
      && (axis !in c.axes ==> r == s)
      && (axis in c.axes ==>
            && r.isActive.Get(axis) && r.frameRequested
            && r.currentPosition.Get(axis) == start
            && r.targetPosition.Get(axis) == target
            && r.startTime.Get(axis) == now
            && (c.animateTime > 0.0 ==> r.animateTime.Get(axis) > 0.0)
            && (c.easeAlg in c.knownEases ==> r.easeAlg.Get(axis) in c.knownEases)
            && r.events[..|s.events|] == s.events
            && r.events[|s.events|..] ==
                 (if AnyActive(s.isActive) then [AnimateStartOnAxis(axis)]
                  else [AnimateStart, AnimateStartOnAxis(axis)])
            && (forall b :: b != axis ==>
                  r.isActive.Get(b) == s.isActive.Get(b)
                  && r.currentPosition.Get(b) == s.currentPosition.Get(b)))
  {
    var r := StartedOnAxis(c, s, axis, start, target, animateTime, easeAlg, now);
    if axis in c.axes {
      assert r.events[..|s.events|] == s.events;
    }
  }

  // ---------------------------------------------------------------------------
  // Stopping

  /** `stopOnAxis(a)` on the state `s`. */
  function StoppedOnAxis(s: State, a: Axis): State {
    if !s.isActive.Get(a) then s
    else
      var active := s.isActive.With(a, false);
      var ended := s.(isActive := active, events := s.events + [AnimateEndOnAxis(a)]);
      if AnyActive(active) then ended
      else ended.(events := ended.events + [AnimateEnd], frameRequested := false)
  }

  /** `stopOnAxis` called, in the order of `axes`, on each axis whose flag is set in `which`. */
  function StoppedWhere(s: State, axes: seq<Axis>, which: XY<bool>): State {
    if axes == [] then s
    else
      var t := StoppedWhere(s, axes[..|axes| - 1], which);
      var last := axes[|axes| - 1];
      if which.Get(last) then StoppedOnAxis(t, last) else t
  }

  /** The per-axis end event that stopping the axes in `which` emits. */
  function EndEventOf(wasActive: XY<bool>, which: XY<bool>): Axis -> seq<Event> {
    a => if which.Get(a) && wasActive.Get(a) then [AnimateEndOnAxis(a)] else []
  }

  /**
   * `stopOnAxis(a)`: only the flag of `a` is cleared; `AnimateEndOnAxis(a)` is
   * emitted iff `a` was active, and `AnimateEnd` follows, with the frame
   * cancelled, exactly when that was the last active axis.
   */
  lemma StoppedOnAxisEffect(s: State, a: Axis)
    ensures var r := StoppedOnAxis(s, a);
      var lastStopped := AnyActive(s.isActive) && !AnyActive(r.isActive);
      && SameAnimation(s, r)
      && (forall b :: r.isActive.Get(b) == (s.isActive.Get(b) && b != a))
      && r.events == s.events + (if s.isActive.Get(a) then [AnimateEndOnAxis(a)] else [])
                              + (if lastStopped then [AnimateEnd] else [])
      && r.frameRequested == (s.frameRequested && !lastStopped)
  {
  }

  /**
   * Stopping the axes selected by `which`: exactly those lose their flag, no
   * position changes.
   */
  lemma {:induction false} StoppedWhereFlags(s: State, axes: seq<Axis>, which: XY<bool>)
    ensures var r := StoppedWhere(s, axes, which);
      && SameAnimation(s, r)
      && (forall a :: r.isActive.Get(a) == (s.isActive.Get(a) && !(a in axes && which.Get(a))))
  {
    if axes != [] {
      var init := axes[..|axes| - 1];
      assert forall a :: a in axes <==> a in init || a == axes[|axes| - 1] by { PrefixStep(axes, |axes| - 1); }
      StoppedWhereFlags(s, init, which);
      StoppedOnAxisEffect(StoppedWhere(s, init, which), axes[|axes| - 1]);
    }
  }

  /**
   * The log of stopping the axes selected by `which`: `AnimateEndOnAxis` for
   * each selected axis that was active, in list order, then one `AnimateEnd`
   * iff the calls ended the last active axis, which is also exactly when the
   * frame is cancelled.
   */
  lemma {:induction false} StoppedWhereLog(s: State, axes: seq<Axis>, which: XY<bool>)
    requires ValidAxes(axes)
    ensures var r := StoppedWhere(s, axes, which);
      var lastStopped := AnyActive(s.isActive) && !AnyActive(r.isActive);
      && r.events == s.events + Collect(axes, EndEventOf(s.isActive, which))
                              + (if lastStopped then [AnimateEnd] else [])
      && r.frameRequested == (s.frameRequested && !lastStopped)
  {
    if axes != [] {
      var init := axes[..|axes| - 1];
      var last := axes[|axes| - 1];
      DistinctInit(axes);
      StoppedWhereLog(s, init, which);
      assert StoppedWhere(s, init, which).isActive.Get(last) == s.isActive.Get(last) by {
        StoppedWhereFlags(s, init, which);
      }
      StoppedWhereLogStep(s, Collect(init, EndEventOf(s.isActive, which)), StoppedWhere(s, init, which), last, which);
    }
  }

  /**
   * One step of `StoppedWhereLog`: from the state `t` reached after the earlier
   * axes, stopping `last` (if selected) extends the log by its end event and
   * moves the final `AnimateEnd` to after it.
   */
  lemma StoppedWhereLogStep(s: State, logged: seq<Event>, t: State, last: Axis, which: XY<bool>)
    requires t.isActive.Get(last) == s.isActive.Get(last)
    requires t.events == s.events + logged
               + (if AnyActive(s.isActive) && !AnyActive(t.isActive) then [AnimateEnd] else [])
    requires t.frameRequested == (s.frameRequested && !(AnyActive(s.isActive) && !AnyActive(t.isActive)))
    ensures var r := if which.Get(last) then StoppedOnAxis(t, last) else t;
      var lastStopped := AnyActive(s.isActive) && !AnyActive(r.isActive);
      && r.events == s.events + (logged + EndEventOf(s.isActive, which)(last))
                              + (if lastStopped then [AnimateEnd] else [])
      && r.frameRequested == (s.frameRequested && !lastStopped)
  {
    if which.Get(last) && t.isActive.Get(last) {
      StoppedOnAxisEffect(t, last);
    }
  }

  // ---------------------------------------------------------------------------
  // One tick

  /** An axis keeps animating at time `now` while time is left and it is more than half a pixel from its target. */
  predicate Continues(s: State, a: Axis, now: real) {
    now - s.startTime.Get(a) < s.animateTime.Get(a)
    && Abs(s.targetPosition.Get(a) - s.currentPosition.Get(a)) > 0.5
  }

  /** The eased position of axis `a` at time `now`. */
  function Eased(s: State, a: Axis, now: real, ease: Ease): real {
    ease(s.easeAlg.Get(a), now - s.startTime.Get(a), s.startPosition.Get(a),
         s.targetPosition.Get(a) - s.startPosition.Get(a), s.animateTime.Get(a))
  }

  function MovedOf(s: State, now: real, ease: Ease): Axis -> real {
    a => if !s.isActive.Get(a) then s.currentPosition.Get(a)
         else if Continues(s, a, now) then Eased(s, a, now, ease)
         else s.targetPosition.Get(a)
  }

  function EndingOf(s: State, now: real): Axis -> bool {
    a => s.isActive.Get(a) && !Continues(s, a, now)
  }

  /** `_runAnimate` at time `now`; the frame that runs it is consumed first. */
  function Ticked(c: Config, s: State, now: real, ease: Ease): State {
    var moved := UpdateOn(s.currentPosition, c.axes, MovedOf(s, now, ease));
    var ending := UpdateOn(XY(false, false), c.axes, EndingOf(s, now));
    var shown := s.(currentPosition := moved, frameRequested := false,
                    events := s.events + [AnimatePositionChange(moved)]);
    var stopped := StoppedWhere(shown, c.axes, ending);
    if AnyActive(stopped.isActive) then stopped.(frameRequested := true) else stopped
  }

  /**
   * The positions after a tick: an active axis with time left and more than
   * half a pixel to go moves to its eased position and stays active; any other
   * active axis lands exactly on its target and ends; inactive axes neither
   * move nor start. A frame is requested iff some axis is still active.
   */
  lemma TickedPositions(c: Config, s: State, now: real, ease: Ease)
    requires Inv(c, s)
    ensures var r := Ticked(c, s, now, ease);
      && Inv(c, r)
      && (forall a :: s.isActive.Get(a) && Continues(s, a, now) ==>
            r.isActive.Get(a) && r.currentPosition.Get(a) == Eased(s, a, now, ease))
      && (forall a :: s.isActive.Get(a) && !Continues(s, a, now) ==>
            !r.isActive.Get(a) && r.currentPosition.Get(a) == s.targetPosition.Get(a))
      && (forall a :: !s.isActive.Get(a) ==>
            !r.isActive.Get(a) && r.currentPosition.Get(a) == s.currentPosition.Get(a))
      && r.targetPosition == s.targetPosition && r.startPosition == s.startPosition
      && (r.frameRequested <==> AnyActive(r.isActive))
  {
    var moved := UpdateOn(s.currentPosition, c.axes, MovedOf(s, now, ease));
    var ending := UpdateOn(XY(false, false), c.axes, EndingOf(s, now));
    var shown := s.(currentPosition := moved, frameRequested := false,
                    events := s.events + [AnimatePositionChange(moved)]);
    StoppedWhereFlags(shown, c.axes, ending);
    StoppedWhereLog(shown, c.axes, ending);
  }

  /**
   * The log of a tick: first one `AnimatePositionChange` carrying the positions
   * the tick leaves, so an ending axis is reported at its target; then
   * `AnimateEndOnAxis` for exactly the axes that end, and `AnimateEnd` iff the
   * tick ended the last active axis.
   */
  lemma TickedLog(c: Config, s: State, now: real, ease: Ease)
    requires Inv(c, s)
    ensures var r := Ticked(c, s, now, ease);
      var n := |s.events|;
      && |r.events| > n
      && r.events[..n] == s.events
      && r.events[n] == AnimatePositionChange(r.currentPosition)
      && (forall a :: AnimateEndOnAxis(a) in r.events[n + 1..] <==> s.isActive.Get(a) && !Continues(s, a, now))
      && (AnimateEnd in r.events[n + 1..] <==> AnyActive(s.isActive) && !AnyActive(r.isActive))
  {
    var moved := UpdateOn(s.currentPosition, c.axes, MovedOf(s, now, ease));
    var ending := UpdateOn(XY(false, false), c.axes, EndingOf(s, now));
    var shown := s.(currentPosition := moved, frameRequested := false,
                    events := s.events + [AnimatePositionChange(moved)]);
    var r := Ticked(c, s, now, ease);
    var lastStopped := AnyActive(s.isActive) && !AnyActive(r.isActive);
    var logged := Collect(c.axes, EndEventOf(s.isActive, ending));
    var ended := if lastStopped then [AnimateEnd] else [];
    assert r.currentPosition == moved by {
      StoppedWhereFlags(shown, c.axes, ending);
    }
    assert r.events == shown.events + logged + ended by {
      StoppedWhereLog(shown, c.axes, ending);
    }
    SplitAppend(shown.events, logged, ended);
    EndLogMembers(s.isActive, ending, c.axes, lastStopped);
  }

  /** Which events a stop log holds: the end of each selected axis that was active, and `AnimateEnd` iff the last one ended. */
  lemma EndLogMembers(wasActive: XY<bool>, which: XY<bool>, axes: seq<Axis>, lastStopped: bool)
    ensures var tail := Collect(axes, EndEventOf(wasActive, which)) + (if lastStopped then [AnimateEnd] else []);
      && (forall a :: AnimateEndOnAxis(a) in tail <==> a in axes && which.Get(a) && wasActive.Get(a))
      && (AnimateEnd in tail <==> lastStopped)
  {
    var f := EndEventOf(wasActive, which);
    forall a
      ensures AnimateEndOnAxis(a) in Collect(axes, f) <==> a in axes && which.Get(a) && wasActive.Get(a)
    {
      InCollect(axes, f, AnimateEndOnAxis(a));
    }
    InCollect(axes, f, AnimateEnd);
  }

  /** A tick at or after the end of every active axis's duration ends the whole bounce. */
  lemma TimeUpEndsBounce(c: Config, s: State, now: real, ease: Ease)
    requires Inv(c, s)
    requires forall a :: s.isActive.Get(a) ==> now >= s.startTime.Get(a) + s.animateTime.Get(a)
    ensures !AnyActive(Ticked(c, s, now, ease).isActive)
    ensures !Ticked(c, s, now, ease).frameRequested
  {
    TickedPositions(c, s, now, ease);
  }

  /** A bounce started at its own target lands and ends on the first tick, whatever the time. */
  lemma BounceToSelfEndsAtOnce(c: Config, s: State, a: Axis, p: real, animateTime: real,
                               easeAlg: string, t0: real, now: real, ease: Ease)
    requires Inv(c, s) && a in c.axes
    ensures var r := Ticked(c, StartedOnAxis(c, s, a, p, p, animateTime, easeAlg, t0), now, ease);
      !r.isActive.Get(a) && r.currentPosition.Get(a) == p
  {
    var s1 := StartedOnAxis(c, s, a, p, p, animateTime, easeAlg, t0);
    StartedOnAxisEffect(c, s, a, p, p, animateTime, easeAlg, t0);
    assert !Continues(s1, a, now);
    TickedPositions(c, s1, now, ease);
  }

  // ---------------------------------------------------------------------------
  // The engine object

  class Bounce {
    const config: Config
    var isActive: XY<bool>
    var startPosition: XY<real>
    var currentPosition: XY<real>
    var targetPosition: XY<real>
    var animateTime: XY<real>
    var startTime: XY<real>
    var easeAlg: XY<string>
    var frameRequested: bool
    var events: seq<Event>

    ghost function Snapshot(): State
      reads this
    {
      State(isActive, startPosition, currentPosition, targetPosition, animateTime,
            startTime, easeAlg, frameRequested, events)
    }

    ghost predicate Valid()
      reads this
    {
      Inv(config, Snapshot())
    }

    /** A fresh engine: nothing active, every position and time zero, no algorithm chosen yet. */
    constructor (config: Config)
      requires ValidAxes(config.axes)
      ensures Valid() && this.config == config
      ensures Snapshot() == State(XY(false, false), XY(0.0, 0.0), XY(0.0, 0.0), XY(0.0, 0.0),
                                  XY(0.0, 0.0), XY(0.0, 0.0), XY("", ""), false, [])
    {
      this.config := config;
      isActive := XY(false, false);
      startPosition := XY(0.0, 0.0);
      currentPosition := XY(0.0, 0.0);
      targetPosition := XY(0.0, 0.0);
      animateTime := XY(0.0, 0.0);
      startTime := XY(0.0, 0.0);
      easeAlg := XY("", "");
      frameRequested := false;
      events := [];
    }

    /** `startOnAxis`, called at time `now`. */
    method StartOnAxis(axis: Axis, start: real, target: real, animateTime: real, easeAlg: string, now: real)
      requires Valid()
      modifies this
      ensures Valid()
      ensures Snapshot() == StartedOnAxis(config, old(Snapshot()), axis, start, target, animateTime, easeAlg, now)
    {
      if axis !in config.axes {
        return;
      }
      frameRequested := false;
      if !isActive.x && !isActive.y {
        events := events + [AnimateStart];
      }
      isActive := isActive.With(axis, true);
      events := events + [AnimateStartOnAxis(axis)];
      SetAnimation(axis, start, target, animateTime, easeAlg, now);
      frameRequested := true;
    }

    /** The per-axis animation parameters written by `startOnAxis`. */
    method SetAnimation(axis: Axis, start: real, target: real, animateTime: real, easeAlg: string, now: real)
      modifies this`startPosition, this`currentPosition, this`targetPosition, this`animateTime, this`startTime, this`easeAlg
      ensures startPosition == old(startPosition).With(axis, start)
      ensures currentPosition == old(currentPosition).With(axis, start)
      ensures targetPosition == old(targetPosition).With(axis, target)
      ensures startTime == old(startTime).With(axis, now)
      ensures this.animateTime == old(this.animateTime).With(axis, ChosenTime(config, animateTime))
      ensures this.easeAlg == old(this.easeAlg).With(axis, ChosenEase(config, easeAlg))
    {
      startPosition := startPosition.With(axis, start);
      currentPosition := currentPosition.With(axis, start);
      targetPosition := targetPosition.With(axis, target);
      startTime := startTime.With(axis, now);
      this.animateTime := this.animateTime.With(axis, ChosenTime(config, animateTime));
      this.easeAlg := this.easeAlg.With(axis, ChosenEase(config, easeAlg));
    }

    /** `stopOnAxis`. */
    method StopOnAxis(axis: Axis)
      requires Valid()
      modifies this
      ensures Valid()
      ensures Snapshot() == StoppedOnAxis(old(Snapshot()), axis)
    {
      if !isActive.Get(axis) {
        return;
      }
      isActive := isActive.With(axis, false);
      events := events + [AnimateEndOnAxis(axis)];
      if !isActive.x && !isActive.y {
        events := events + [AnimateEnd];
        frameRequested := false;
      }
    }

    /** `stop`: afterwards no axis is active. */
    method Stop()
      requires Valid()
      modifies this
      ensures Valid()
      ensures Snapshot() == StoppedWhere(old(Snapshot()), config.axes, XY(true, true))
      ensures !AnyActive(isActive)
    {
      for i := 0 to |config.axes|
        invariant Valid()
        invariant Snapshot() == StoppedWhere(old(Snapshot()), config.axes[..i], XY(true, true))
      {
        PrefixStep(config.axes, i);
        StopOnAxis(config.axes[i]);
      }
      assert config.axes[..|config.axes|] == config.axes;
      StoppedWhereFlags(old(Snapshot()), config.axes, XY(true, true));
      assert old(isActive.Get(X)) ==> X in config.axes;
      assert old(isActive.Get(Y)) ==> Y in config.axes;
      assert !isActive.Get(X) && !isActive.Get(Y);
    }

    /** `_runAnimate`, run by the requested frame at time `now`. */
    method RunAnimate(now: real, ease: Ease)
      requires Valid()
      modifies this
      ensures Valid()
      ensures Snapshot() == Ticked(config, old(Snapshot()), now, ease)
    {
      var shouldAnimateEnd := MoveAxes(now, ease);
      frameRequested := false;
      events := events + [AnimatePositionChange(currentPosition)];
      StopEnding(shouldAnimateEnd);
      if isActive.x || isActive.y {
        frameRequested := true;
      }
    }

    /** The first per-axis loop of `_runAnimate`: each active axis moves, and the ones that end are marked. */
    method MoveAxes(now: real, ease: Ease) returns (shouldAnimateEnd: XY<bool>)
      requires Valid()
      modifies this`currentPosition
      ensures currentPosition == UpdateOn(old(currentPosition), config.axes, MovedOf(old(Snapshot()), now, ease))
      ensures shouldAnimateEnd == UpdateOn(XY(false, false), config.axes, EndingOf(old(Snapshot()), now))
    {
      ghost var s0 := Snapshot();
      shouldAnimateEnd := XY(false, false);
      for i := 0 to |config.axes|
        invariant currentPosition == UpdateOn(s0.currentPosition, config.axes[..i], MovedOf(s0, now, ease))
        invariant shouldAnimateEnd == UpdateOn(XY(false, false), config.axes[..i], EndingOf(s0, now))
      {
        var a := config.axes[i];
        UpdateOnStep(s0.currentPosition, config.axes, i, MovedOf(s0, now, ease));
        UpdateOnStep(XY(false, false), config.axes, i, EndingOf(s0, now));
        DistinctPrefix(config.axes, i);
        assert currentPosition.Get(a) == s0.currentPosition.Get(a);
        if isActive.Get(a) {
          var timePassed := now - startTime.Get(a);
          if timePassed < animateTime.Get(a) && Abs(targetPosition.Get(a) - currentPosition.Get(a)) > 0.5 {
            currentPosition := currentPosition.With(a, ease(easeAlg.Get(a), timePassed, startPosition.Get(a),
                                                            targetPosition.Get(a) - startPosition.Get(a), animateTime.Get(a)));
          } else {
            currentPosition := currentPosition.With(a, targetPosition.Get(a));
            shouldAnimateEnd := shouldAnimateEnd.With(a, true);
          }
        }
      }
      assert config.axes[..|config.axes|] == config.axes;
    }

    /** The second per-axis loop of `_runAnimate`: the marked axes are stopped. */
    method StopEnding(which: XY<bool>)
      requires Valid()
      modifies this
      ensures Valid()
      ensures Snapshot() == StoppedWhere(old(Snapshot()), config.axes, which)
    {
      for i := 0 to |config.axes|
        invariant Valid()
        invariant Snapshot() == StoppedWhere(old(Snapshot()), config.axes[..i], which)
      {
        PrefixStep(config.axes, i);
        if which.Get(config.axes[i]) {
          StopOnAxis(config.axes[i]);
        }
      }
      assert config.axes[..|config.axes|] == config.axes;
    }
  }
}
