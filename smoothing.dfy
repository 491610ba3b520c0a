/** Easing of the flight parameter: Perlin's quintic smootherstep, and the
    fractional-part wrap that turns unbounded flight time into a loop. */
module Smoothing {
  import opened Geometry

  /** glm::clamp(x, 0, 1). */
  function Clamp01(x: real): (r: real)
    ensures 0.0 <= r <= 1.0
    ensures 0.0 <= x <= 1.0 ==> r == x
    ensures x <= 0.0 ==> r == 0.0
    ensures x >= 1.0 ==> r == 1.0
  {
    if x < 0.0 then 0.0 else if x > 1.0 then 1.0 else x
  }

  /** The quintic t^3 (6t^2 - 15t + 10) in the nested form the program
      evaluates; it runs from 0 at t = 0 through 1/2 at t = 1/2 to 1 at t = 1. */
  function Quintic(t: real): (r: real)
    ensures t == 0.0 ==> r == 0.0
    ensures t == 1.0 ==> r == 1.0
  {
    t * t * t * (t * (t * 6.0 - 15.0) + 10.0)
  }

  /** 1 - Quintic(t) factors as (1-t)^3 (6t^2 + 3t + 1). */
  lemma QuinticComplement(t: real)
    ensures 1.0 - Quintic(t) == (1.0 - t) * (1.0 - t) * (1.0 - t) * (6.0 * t * t + 3.0 * t + 1.0)
  {
    calc {
      (1.0 - t) * (1.0 - t) * (1.0 - t) * (6.0 * t * t + 3.0 * t + 1.0);
      (1.0 - 3.0 * t + 3.0 * t * t - t * t * t) * (6.0 * t * t + 3.0 * t + 1.0);
      1.0 - 10.0 * t * t * t + 15.0 * t * t * t * t - 6.0 * t * t * t * t * t;
      1.0 - Quintic(t);
    }
  }

  /** On [0,1] the quintic stays within [0,1], and strictly inside (0,1) it
      stays strictly inside: it touches 0 only at t = 0 and 1 only at t = 1. */
  lemma QuinticRange(t: real)
    requires 0.0 <= t <= 1.0
    ensures 0.0 <= Quintic(t) <= 1.0
    ensures 0.0 < t ==> 0.0 < Quintic(t)
    ensures t < 1.0 ==> Quintic(t) < 1.0
  {
    // lower bound: t^3 >= 0 and 6t^2 - 15t + 10 == 6(t - 5/4)^2 + 5/8 > 0
    var inner := t * (t * 6.0 - 15.0) + 10.0;
    assert 0.0 < inner by {
      assert inner == 6.0 * (t - 1.25) * (t - 1.25) + 0.625;
      SquareNonNegative(t - 1.25);
    }
    assert 0.0 <= Quintic(t) && (0.0 < t ==> 0.0 < Quintic(t)) by {
      if 0.0 < t {
        MulPositive(t, t);
        assert 0.0 < t * t * t;
        MulPositive(t * t * t, inner);
        assert Quintic(t) == t * t * t * inner;
      } else {
        assert Quintic(t) == 0.0;
      }
    }
    // upper bound: 1 - Quintic(t) == (1-t)^3 (6t^2 + 3t + 1) >= 0
    var u, w := 1.0 - t, 6.0 * t * t + 3.0 * t + 1.0;
    assert 0.0 < w by {
      MulNonNegative(t, t);
    }
    assert Quintic(t) <= 1.0 && (t < 1.0 ==> Quintic(t) < 1.0) by {
      if t < 1.0 {
        QuinticComplement(t);
        MulPositive(u, u);
        assert 0.0 < u * u * u;
        MulPositive(u * u * u, w);
        assert 1.0 - Quintic(t) == u * u * u * w;
      } else {
        assert Quintic(t) == 1.0;
      }
    }
  }

  /** The quintic's slope t (1 - t) before squaring: Quintic' == 30 Arch(t)^2. */
  function Arch(s: real): real
  {
    s * (1.0 - s)
  }

  /** Boole's quadrature sum of the slope over five equally spaced points
      x, x + h, ..., x + 4h (up to the factor 30 / 90); every weight is
      positive and every term a square, so the sum is never negative. */
  function BooleSum(x: real, h: real): (r: real)
    ensures 0.0 <= r
  {
    SquareNonNegative(Arch(x));
    SquareNonNegative(Arch(x + h));
    SquareNonNegative(Arch(x + 2.0 * h));
    SquareNonNegative(Arch(x + 3.0 * h));
    SquareNonNegative(Arch(x + 4.0 * h));
    7.0 * Arch(x) * Arch(x) + 32.0 * Arch(x + h) * Arch(x + h)
    + 12.0 * Arch(x + 2.0 * h) * Arch(x + 2.0 * h)
    + 32.0 * Arch(x + 3.0 * h) * Arch(x + 3.0 * h) + 7.0 * Arch(x + 4.0 * h) * Arch(x + 4.0 * h)
  }

  /** Boole's rule is exact on the quintic's degree-4 slope 30 t^2 (1-t)^2, so
      the increment of the quintic over [x, x + 4h] is 4h/3 times BooleSum. */
  lemma QuinticIncrement(x: real, h: real)
    ensures Quintic(x + 4.0 * h) - Quintic(x) == 4.0 * h * BooleSum(x, h) / 3.0
  {
    var y := x + 4.0 * h;
    assert Quintic(y) == y * y * y * (y * (y * 6.0 - 15.0) + 10.0);
    assert Quintic(x) == x * x * x * (x * (x * 6.0 - 15.0) + 10.0);
  }

  /** The quintic never decreases, on the whole real line. */
  lemma QuinticMonotone(x: real, y: real)
    requires x <= y
    ensures Quintic(x) <= Quintic(y)
  {
    var h := (y - x) / 4.0;
    QuinticIncrement(x, h);
    assert x + 4.0 * h == y;
    MulNonNegative(4.0 * h / 3.0, BooleSum(x, h));
    assert 4.0 * h * BooleSum(x, h) / 3.0 == (4.0 * h / 3.0) * BooleSum(x, h);
  }

  /** Ken Perlin's smootherstep on the clamped input. Total over the reals,
      with values in [0,1]: exactly 0 at and below 0, exactly 1 at and above 1,
      strictly between them inside, and 1/2 at 1/2. */
  function SmootherStep(x: real): (r: real)
    ensures 0.0 <= r <= 1.0
    ensures r == 0.0 <==> x <= 0.0
    ensures r == 1.0 <==> x >= 1.0
    ensures x == 0.5 ==> r == 0.5
  {
    var t := Clamp01(x);
    QuinticRange(t);
    Quintic(t)
  }

  /** The ease is a monotonic remapping: a later input is never eased to an
      earlier value. */
  lemma SmootherStepMonotone(x: real, y: real)
    requires x <= y
    ensures SmootherStep(x) <= SmootherStep(y)
  {
    QuinticMonotone(Clamp01(x), Clamp01(y));
  }

  /** The ease is point-symmetric about (1/2, 1/2): easing the mirrored input
      gives the mirrored output, for every real input. */
  lemma SmootherStepSymmetric(x: real)
    ensures SmootherStep(1.0 - x) == 1.0 - SmootherStep(x)
  {
    var t := Clamp01(x);
    assert Clamp01(1.0 - x) == 1.0 - t;
    QuinticComplement(t);
    var u := 1.0 - t;
    calc {
      Quintic(u);
      u * u * u * (6.0 * u * u - 15.0 * u + 10.0);
      { assert 6.0 * u * u - 15.0 * u + 10.0 == 6.0 * t * t + 3.0 * t + 1.0; }
      u * u * u * (6.0 * t * t + 3.0 * t + 1.0);
      1.0 - Quintic(t);
    }
  }

  /** The fractional part x - floor(x), as the frame update computes it with floor. */
  function Frac(x: real): (r: real)
    ensures 0.0 <= r < 1.0
    ensures (x - r).Floor as real == x - r
    ensures 0.0 <= x < 1.0 ==> r == x
  {
    x - x.Floor as real
  }

  /** Shifting the input by a whole number leaves the fractional part unchanged. */
  lemma {:induction false} FracPeriodic(x: real, k: int)
    ensures Frac(x + k as real) == Frac(x)
  {
    var n := x.Floor;
    assert n as real <= x < n as real + 1.0;
    assert (n + k) as real <= x + k as real < (n + k) as real + 1.0;
    assert (x + k as real).Floor == n + k;
  }

  /** The per-frame path parameter: flight time wrapped to its fractional part,
      then eased. Always in [0,1) -- the wrap is below 1 and the ease keeps
      it there -- and 0 whenever the flight time is a whole number. */
  function EasedProgress(flightTime: real): (r: real)
    ensures 0.0 <= r < 1.0
    ensures flightTime.Floor as real == flightTime ==> r == 0.0
  {
    SmootherStep(Frac(flightTime))
  }

  /** Each whole unit of flight time is one lap: the eased parameter repeats. */
  lemma {:induction false} EasedProgressPeriodic(flightTime: real, laps: int)
    ensures EasedProgress(flightTime + laps as real) == EasedProgress(flightTime)
  {
    FracPeriodic(flightTime, laps);
  }
}
