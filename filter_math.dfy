/** Arithmetic building blocks of the responsive analog filter.
    The firmware computes in `float`/`double`; here every such quantity is a
    `real`, and the places where the firmware converts to an integer
    are written out as explicit truncations. */
module FilterMath {

  /** The smoothing factor of the error EMA. */
  const ErrorEmaFactor: real := 0.4

  /** The coefficient applied to snap when sleep is enabled. The firmware
      writes it as `0.5 + 0.5`, so it has no numeric effect; it is kept as a
      named hook. */
  const SleepSnapBoost: real := 0.5 + 0.5

  function Abs(x: real): (r: real)
    ensures 0.0 <= r && (r == x || r == -x)
  {
    if x < 0.0 then -x else x
  }

  /** A C++ float-to-int conversion: truncation toward zero (unlike `.Floor`,
      which rounds negative values down). */
  function Trunc(x: real): (r: int)
    ensures 0.0 <= x ==> 0 <= r && r as real <= x < r as real + 1.0
    ensures x < 0.0 ==> r <= 0 && r as real - 1.0 < x <= r as real
  {
    if x >= 0.0 then x.Floor else -((-x).Floor)
  }

  /** `unsigned int diff = std::abs(sample - smooth)`: the distance, truncated
      to a natural number. */
  function UnsignedDiff(sample: int, smooth: real): (d: nat)
    ensures d as real <= Abs(sample as real - smooth) < d as real + 1.0
    ensures sample as real == smooth ==> d == 0
  {
    Trunc(Abs(sample as real - smooth))
  }

  /** The saturating response curve `min(1, 2 * (1 - 1/(x + 1)))`.
      The only undefined point of the firmware's formula is `x == -1`. */
  function SnapCurve(x: real): (r: real)
    requires x != -1.0
    ensures 0.0 <= x ==> 0.0 <= r <= 1.0
    ensures x == 0.0 ==> r == 0.0
    ensures 0.0 <= x ==> (r == 1.0 <==> 1.0 <= x)
  {
    var y := 1.0 / (x + 1.0);
    var y2 := (1.0 - y) * 2.0;
    SnapCurveSaturation(x);
    if y2 > 1.0 then 1.0 else y2
  }

  /** The unclamped curve reaches 1 exactly at `x == 1`. */
  lemma SnapCurveSaturation(x: real)
    requires x != -1.0
    ensures 0.0 <= x ==> 0.0 <= (1.0 - 1.0 / (x + 1.0)) * 2.0
    ensures 0.0 <= x ==> ((1.0 - 1.0 / (x + 1.0)) * 2.0 < 1.0 <==> x < 1.0)
    ensures 0.0 <= x ==> ((1.0 - 1.0 / (x + 1.0)) * 2.0 == 1.0 <==> x == 1.0)
  {
    if 0.0 <= x {
      ReciprocalAntitone(1.0, x + 1.0);
      if x < 1.0 {
        ReciprocalAntitone(x + 1.0, 2.0);
      } else if x > 1.0 {
        ReciprocalAntitone(2.0, x + 1.0);
      }
    }
  }

  /** Below saturation the curve is the hyperbola `2x / (x + 1)`. */
  lemma SnapCurveBelowOne(x: real)
    requires 0.0 <= x <= 1.0
    ensures SnapCurve(x) == 2.0 * x / (x + 1.0)
  {
    var y := 1.0 / (x + 1.0);
    assert y * (x + 1.0) == 1.0;
    assert (1.0 - y) * 2.0 == 2.0 * x / (x + 1.0) by {
      assert (1.0 - y) * (x + 1.0) == x;
    }
  }

  /** `1/b <= 1/a` for `0 < a <= b`, strictly when `a < b`. */
  lemma ReciprocalAntitone(a: real, b: real)
    requires 0.0 < a <= b
    ensures 1.0 / b <= 1.0 / a
    ensures a < b ==> 1.0 / b < 1.0 / a
  {
    assert (1.0 / a) * a == 1.0;
    assert (1.0 / b) * b == 1.0;
    assert 1.0 / a - 1.0 / b == (b - a) / (a * b);
  }

  /** The snap curve never decreases on the non-negative half line. */
  lemma SnapCurveMonotone(x: real, y: real)
    requires 0.0 <= x <= y
    ensures SnapCurve(x) <= SnapCurve(y)
  {
    ReciprocalAntitone(x + 1.0, y + 1.0);
  }

  /** Below saturation the snap curve is strictly increasing. */
  lemma SnapCurveStrictlyIncreasing(x: real, y: real)
    requires 0.0 <= x < y <= 1.0
    ensures SnapCurve(x) < SnapCurve(y)
  {
    SnapCurveBelowOne(x);
    SnapCurveBelowOne(y);
    assert 2.0 * x / (x + 1.0) == 2.0 - 2.0 / (x + 1.0);
    assert 2.0 * y / (y + 1.0) == 2.0 - 2.0 / (y + 1.0);
    ReciprocalAntitone(x + 1.0, y + 1.0);
  }

  /** `setSnapMultiplier`'s clamp to the unit interval. */
  function ClampUnit(m: real): (r: real)
    ensures 0.0 <= r <= 1.0
    ensures 0.0 <= m <= 1.0 ==> r == m
    ensures 1.0 < m ==> r == 1.0
    ensures m < 0.0 ==> r == 0.0
  {
    var c := if m > 1.0 then 1.0 else m;
    if c < 0.0 then 0.0 else c
  }

  /** The output-bounds clamp of the smoothed value into `[0, resolution - 1]`.
      The lower bound is tested first, so a resolution below 1 yields
      `resolution - 1` for every non-negative input. */
  function ClampRange(x: real, resolution: int): (r: real)
    ensures 1 <= resolution ==> 0.0 <= r <= (resolution - 1) as real
    ensures 0.0 <= x <= (resolution - 1) as real ==> r == x
    ensures x < 0.0 ==> r == 0.0
    ensures 0.0 <= x && (resolution - 1) as real < x ==> r == (resolution - 1) as real
  {
    if x < 0.0 then 0.0
    else if x > (resolution - 1) as real then (resolution - 1) as real
    else x
  }

  /** A clamped value is non-negative or the integer `resolution - 1`, so
      truncating it toward zero is taking its floor. */
  lemma ClampRangeTruncIsFloor(x: real, resolution: int)
    ensures Trunc(ClampRange(x, resolution)) == ClampRange(x, resolution).Floor
  {
  }

  /** One exponential-moving-average step `prev + (sample - prev) * alpha`.
      For a factor in `[0, 1]` the result lies between the previous value and
      the sample; factor 1 jumps to the sample and factor 0 keeps the value. */
  function Ema(prev: real, sample: real, alpha: real): (r: real)
    ensures 0.0 <= alpha <= 1.0 && prev <= sample ==> prev <= r <= sample
    ensures 0.0 <= alpha <= 1.0 && sample <= prev ==> sample <= r <= prev
    ensures alpha == 1.0 ==> r == sample
    ensures alpha == 0.0 ==> r == prev
  {
    ScaledBetween(sample - prev, alpha);
    prev + (sample - prev) * alpha
  }

  lemma MulNonNegative(a: real, b: real)
    requires 0.0 <= a && 0.0 <= b
    ensures 0.0 <= a * b
  {
  }

  /** Scaling by a factor in `[0, 1]` moves toward zero. */
  lemma ScaledBetween(d: real, alpha: real)
    ensures 0.0 <= alpha <= 1.0 && 0.0 <= d ==> 0.0 <= d * alpha <= d
    ensures 0.0 <= alpha <= 1.0 && d <= 0.0 ==> d <= d * alpha <= 0.0
    ensures alpha == 1.0 ==> d * alpha == d
    ensures alpha == 0.0 ==> d * alpha == 0.0
  {
    if 0.0 <= alpha <= 1.0 {
      var e := d * (1.0 - alpha);
      assert d * alpha + e == d;
      if 0.0 <= d {
        MulNonNegative(d, alpha);
        MulNonNegative(d, 1.0 - alpha);
      } else {
        MulNonNegative(-d, alpha);
        MulNonNegative(-d, 1.0 - alpha);
        assert (-d) * alpha == -(d * alpha);
        assert (-d) * (1.0 - alpha) == -e;
      }
    }
  }

  /** Edge snap: a sample below the activity threshold `t`, or above
      `resolution - t`, is pushed twice as far past that limit, then truncated
      back to an int. It never moves a sample inward. */
  function EdgeAdjust(v: int, resolution: int, t: real): (r: int)
    ensures (v as real) < t ==> r <= v && r == Trunc((v * 2) as real - t)
    ensures !((v as real) < t) && (v as real) > resolution as real - t ==>
              v <= r && r == Trunc((v * 2 - resolution) as real + t)
    ensures !((v as real) < t) && !((v as real) > resolution as real - t) ==> r == v
  {
    if (v as real) < t then Trunc((v * 2) as real - t)
    else if (v as real) > resolution as real - t then Trunc((v * 2 - resolution) as real + t)
    else v
  }
}
