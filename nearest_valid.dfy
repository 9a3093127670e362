/**
 * `_getNearestValidPosition` of the older coordinator (src/Mustafas.js). That
 * coordinator uses a negative-coordinate convention: a valid scroll position on
 * an axis lies between the axis limit (at most 0) and 0.
 */
module ValidPosition {
  import opened Common

  /**
   * The nearest valid coordinate on one axis: a positive value becomes 0, a
   * value below the limit becomes the limit, any other value is kept.
   */
  function NearestValidAxis(limit: real, v: real): (r: real)
    ensures limit <= 0.0 ==> limit <= r <= 0.0
    ensures limit <= v <= 0.0 ==> r == v
    ensures r == v || r == 0.0 || r == limit
    ensures v > 0.0 ==> r == 0.0
    ensures v <= 0.0 && v < limit ==> r == limit
  {
    if v > 0.0 then 0.0
    else if v < limit then limit
    else v
  }

  /** Clamping a coordinate that is already clamped changes nothing. */
  lemma NearestValidAxisIdempotent(limit: real, v: real)
    requires limit <= 0.0
    ensures NearestValidAxis(limit, NearestValidAxis(limit, v)) == NearestValidAxis(limit, v)
  {
  }

  function ClampOf(limits: XY<real>, position: XY<real>): Axis -> real {
    a => NearestValidAxis(limits.Get(a), position.Get(a))
  }

  /** The nearest valid position: configured axes are clamped, the others are 0. */
  function NearestValid(axes: seq<Axis>, limits: XY<real>, position: XY<real>): (r: XY<real>)
    ensures forall a :: r.Get(a) == if a in axes then NearestValidAxis(limits.Get(a), position.Get(a)) else 0.0
  {
    UpdateOn(XY(0.0, 0.0), axes, ClampOf(limits, position))
  }

  /**
   * With non-positive limits, every configured axis of the result lies between
   * its limit and 0, and clamping the result again gives the same position.
   */
  lemma NearestValidInRange(axes: seq<Axis>, limits: XY<real>, position: XY<real>)
    requires limits.x <= 0.0 && limits.y <= 0.0
    ensures var r := NearestValid(axes, limits, position);
      && (forall a :: limits.Get(a) <= r.Get(a) <= 0.0)
      && NearestValid(axes, limits, r) == r
  {
    var r := NearestValid(axes, limits, position);
    var r2 := NearestValid(axes, limits, r);
    assert r2.Get(X) == r.Get(X) && r2.Get(Y) == r.Get(Y);
  }

  /** `_getNearestValidPosition`, with the position limits passed in. */
  method GetNearestValidPosition(axes: seq<Axis>, limits: XY<real>, position: XY<real>) returns (result: XY<real>)
    ensures result == NearestValid(axes, limits, position)
  {
    result := XY(0.0, 0.0);
    for i := 0 to |axes|
      invariant result == UpdateOn(XY(0.0, 0.0), axes[..i], ClampOf(limits, position))
    {
      var a := axes[i];
      UpdateOnStep(XY(0.0, 0.0), axes, i, ClampOf(limits, position));
      if position.Get(a) > 0.0 {
        result := result.With(a, 0.0);
      } else if position.Get(a) < limits.Get(a) {
        result := result.With(a, limits.Get(a));
      } else {
        result := result.With(a, position.Get(a));
      }
    }
    assert axes[..|axes|] == axes;
  }
}
