/** The linear easing function, used as a damping multiplier by both coordinators. */
module Utils {

  /**
   * `easeLinear(t, b, c, d)`: the value at time `t` of a linear transition that
   * starts at `b`, changes by `c` and lasts `d`.
   */
  function EaseLinear(t: real, b: real, c: real, d: real): (r: real)
    requires d != 0.0
    ensures (r - b) * d == c * t
  {
    c * t / d + b
  }

  /** At time 0 the transition is at its start value. */
  lemma EaseLinearAtStart(b: real, c: real, d: real)
    requires d != 0.0
    ensures EaseLinear(0.0, b, c, d) == b
  {
  }

  /** At time `d` the transition has changed by exactly `c`. */
  lemma EaseLinearAtEnd(b: real, c: real, d: real)
    requires d != 0.0
    ensures EaseLinear(d, b, c, d) == b + c
  {
  }

  /**
   * Used as a damping multiplier (`b = 1`, `c = -1`), the factor lies in
   * `[0, 1]` while `0 <= t <= d`.
   */
  lemma DampingInUnitRange(t: real, d: real)
    requires d > 0.0 && 0.0 <= t <= d
    ensures 0.0 <= EaseLinear(t, 1.0, -1.0, d) <= 1.0
  {
  }

  /** The damping multiplier never grows as `t` grows. */
  lemma DampingNonIncreasing(t1: real, t2: real, d: real)
    requires d > 0.0 && t1 <= t2
    ensures EaseLinear(t2, 1.0, -1.0, d) <= EaseLinear(t1, 1.0, -1.0, d)
  {
  }

  /** Scaling by a non-negative factor keeps the order of two values. */
  lemma MonotoneScale(k: real, f: real, g: real)
    requires k >= 0.0 && f <= g
    ensures k * f <= k * g
  {
  }

  /** Scaling by a non-positive factor reverses the order of two values. */
  lemma MonotoneScaleNegative(k: real, f: real, g: real)
    requires k <= 0.0 && f <= g
    ensures k * g <= k * f
  {
  }

  /** Scaling by a factor in `[0, 1]` keeps the sign and never increases the magnitude. */
  lemma ScaledByFraction(x: real, f: real)
    requires 0.0 <= f <= 1.0
    ensures x >= 0.0 ==> 0.0 <= x * f <= x
    ensures x <= 0.0 ==> x <= x * f <= 0.0
  {
    if x >= 0.0 {
      MonotoneScale(x, 0.0, f);
      MonotoneScale(x, f, 1.0);
    } else {
      MonotoneScaleNegative(x, 0.0, f);
      MonotoneScaleNegative(x, f, 1.0);
    }
  }
}
