/**
 * Values shared by every part of the scroll kernel: the two axes, a value per
 * axis (the `{ x: …, y: … }` records of the source), pushes, and the two folds
 * over the configured axis list that model the source's `_forXY` loops.
 */
module Common {

  datatype Option<T> = None | Some(value: T) {
    function GetOr(default: T): T {
      if Some? then value else default
    }
  }

  /** One of the two scroll dimensions. */
  datatype Axis = X | Y

  /** One value per axis. */
  datatype XY<T> = XY(x: T, y: T) {

    function Get(a: Axis): T {
      if a == X then x else y
    }

    /** The same pair with the value on axis `a` replaced. */
    function With(a: Axis, v: T): (r: XY<T>)
      ensures r.Get(a) == v
      ensures forall b :: b != a ==> r.Get(b) == Get(b)
    {
      if a == X then this.(x := v) else this.(y := v)
    }
  }

  /** True when the flag is set on either axis (`isActive.x || isActive.y`). */
  predicate AnyActive(flags: XY<bool>) {
    flags.x || flags.y
  }

  /** A push as the input collaborators and Momentum report it: a direction sign and a magnitude. */
  datatype Push = Push(direction: int, px: real)

  function Abs(r: real): real {
    if r < 0.0 then -r else r
  }

  /**
   * A configured axis list, as the source's `axis.split('')` produces it from
   * `'x'`, `'y'` or `'xy'`: every axis appears at most once.
   */
  predicate ValidAxes(axes: seq<Axis>) {
    forall i, j :: 0 <= i < j < |axes| ==> axes[i] != axes[j]
  }

  /** The pair after a per-axis loop has written `f(a)` on each axis of `axes`. */
  function UpdateOn<T>(xy: XY<T>, axes: seq<Axis>, f: Axis -> T): (r: XY<T>)
    ensures forall a :: r.Get(a) == if a in axes then f(a) else xy.Get(a)
  {
    XY(if X in axes then f(X) else xy.x, if Y in axes then f(Y) else xy.y)
  }

  /** True when `f` holds on some axis of the list (a flag a per-axis loop raises). */
  predicate OnSome(axes: seq<Axis>, f: Axis -> bool) {
    (X in axes && f(X)) || (Y in axes && f(Y))
  }

  /** What a per-axis loop appends to a log, in the order of `axes`. */
  function Collect<T>(axes: seq<Axis>, f: Axis -> seq<T>): seq<T> {
    if axes == [] then [] else Collect(axes[..|axes| - 1], f) + f(axes[|axes| - 1])
  }

  lemma PrefixStep(axes: seq<Axis>, i: nat)
    requires i < |axes|
    ensures axes[..i + 1] == axes[..i] + [axes[i]]
    ensures axes[..i + 1][..i] == axes[..i]
    ensures forall a :: a in axes[..i + 1] <==> a in axes[..i] || a == axes[i]
  {
    assert axes[..i + 1] == axes[..i] + [axes[i]];
  }

  lemma DistinctPrefix(axes: seq<Axis>, i: nat)
    requires ValidAxes(axes) && i < |axes|
    ensures axes[i] !in axes[..i]
  {
  }

  /** A log built as `p + a + b` starts with `p` and continues with `a + b`. */
  lemma SplitAppend<T>(p: seq<T>, a: seq<T>, b: seq<T>)
    ensures (p + a + b)[..|p|] == p
    ensures (p + a + b)[|p|..] == a + b
  {
    assert (p + a + b)[|p|..] == a + b;
  }

  /** Dropping the last axis of a valid list leaves a valid list that does not hold it. */
  lemma DistinctInit(axes: seq<Axis>)
    requires ValidAxes(axes) && axes != []
    ensures ValidAxes(axes[..|axes| - 1])
    ensures axes[|axes| - 1] !in axes[..|axes| - 1]
  {
  }

  lemma UpdateOnStep<T>(xy: XY<T>, axes: seq<Axis>, i: nat, f: Axis -> T)
    requires i < |axes|
    ensures UpdateOn(xy, axes[..i + 1], f) == UpdateOn(xy, axes[..i], f).With(axes[i], f(axes[i]))
  {
    PrefixStep(axes, i);
  }

  lemma OnSomeStep(axes: seq<Axis>, i: nat, f: Axis -> bool)
    requires i < |axes|
    ensures OnSome(axes[..i + 1], f) == (OnSome(axes[..i], f) || f(axes[i]))
  {
    PrefixStep(axes, i);
    assert X in axes[..i + 1] <==> X in axes[..i] || X == axes[i];
    assert Y in axes[..i + 1] <==> Y in axes[..i] || Y == axes[i];
    if axes[i] == X {
      assert f(axes[i]) == f(X);
    } else {
      assert f(axes[i]) == f(Y);
    }
  }

  lemma CollectStep<T>(axes: seq<Axis>, i: nat, f: Axis -> seq<T>)
    requires i < |axes|
    ensures Collect(axes[..i + 1], f) == Collect(axes[..i], f) + f(axes[i])
  {
    PrefixStep(axes, i);
  }

  lemma CollectAll<T>(axes: seq<Axis>, f: Axis -> seq<T>)
    ensures Collect(axes[..|axes|], f) == Collect(axes, f)
  {
    assert axes[..|axes|] == axes;
  }

  /** A value is appended by the loop exactly when some axis of the list contributes it. */
  lemma {:induction false} InCollect<T>(axes: seq<Axis>, f: Axis -> seq<T>, v: T)
    ensures v in Collect(axes, f) <==> exists a :: a in axes && v in f(a)
  {
    if axes != [] {
      var init := axes[..|axes| - 1];
      var last := axes[|axes| - 1];
      InCollect(init, f, v);
      assert axes == init + [last];
      assert forall a :: a in axes <==> a in init || a == last;
    }
  }

  /** When every axis contributes nothing, the loop appends nothing. */
  lemma {:induction false} CollectEmpty<T>(axes: seq<Axis>, f: Axis -> seq<T>)
    requires forall a :: a in axes ==> f(a) == []
    ensures Collect(axes, f) == []
  {
    if axes != [] {
      var init := axes[..|axes| - 1];
      assert forall a :: a in init ==> a in axes;
      CollectEmpty(init, f);
    }
  }
}
