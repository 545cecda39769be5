/** The envelope generator: the Gaussian helper with its NaN defaults, and the
    weights that `computeNormalCurve` writes into the sketch's `normalCurve`. */
module Envelope {
  import opened Numbers

  /** What the model assumes of `Math.pow(Math.E, t)`: `e^0 = 1`, every value
      is positive, and it never decreases. Nothing else about the exponential
      is used. */
  ghost predicate IsExp(exp: real -> real) {
    && exp(0.0) == 1.0
    && (forall t :: exp(t) > 0.0)
    && (forall s, t :: s <= t ==> exp(s) <= exp(t))
  }

  /** `defaultTo`: the default replaces NaN and nothing else. */
  function DefaultTo(value: Num, defaultValue: real): (r: real)
    ensures value.NaN? ==> r == defaultValue
    ensures value.Finite? ==> r == value.v
  {
    if value.NaN? then defaultValue else value.v
  }

  /** The exponent `-(x - m)^2 / (2 * s^2)` of the Gaussian. */
  function Exponent(m: real, s: real, x: real): real
    requires s != 0.0
  {
    SquarePositive(s);
    -Square(x - m) / (2.0 * Square(s))
  }

  /** The Gaussian once its mean, sd and height are numbers. With sd = 0 the
      exponent is `-d^2 / 0`: minus infinity (so the power is 0) when `d != 0`,
      and `-0 / 0`, NaN, when `x` is the mean. */
  function GaussianValue(m: real, s: real, h: real, x: Num, exp: real -> real): Num
  {
    if x.NaN? then NaN
    else if s == 0.0 then (if x.v == m then NaN else Finite(0.0))
    else Finite(h * exp(Exponent(m, s, x.v)))
  }

  /** `getGaussianFunction(mean, standardDeviation, maxHeight, x)`:
      `maxHeight * e^(-(x - mean)^2 / (2 * sd^2))`, after NaN mean, sd and
      maxHeight have been replaced by 0, 1 and 1; `x` is never defaulted. */
  function Gaussian(mean: Num, standardDeviation: Num, maxHeight: Num, x: Num, exp: real -> real): (r: Num)
    ensures x.NaN? ==> r == NaN
    ensures x.Finite? && DefaultTo(standardDeviation, 1.0) != 0.0 ==> r.Finite?
  {
    GaussianValue(DefaultTo(mean, 0.0), DefaultTo(standardDeviation, 1.0), DefaultTo(maxHeight, 1.0), x, exp)
  }

  /** The NaN defaults: NaN mean, sd and height act as 0, 1 and 1, numbers are
      used as they are, and a NaN `x` always gives NaN. */
  lemma GaussianDefaults(mean: Num, sd: Num, maxHeight: Num, x: Num, exp: real -> real)
    ensures Gaussian(NaN, NaN, NaN, x, exp) == Gaussian(Finite(0.0), One, One, x, exp)
    ensures mean.Finite? && sd.Finite? && maxHeight.Finite? ==>
      Gaussian(mean, sd, maxHeight, x, exp) == GaussianValue(mean.v, sd.v, maxHeight.v, x, exp)
    ensures x.NaN? ==> Gaussian(mean, sd, maxHeight, x, exp) == NaN
    ensures mean.NaN? ==> Gaussian(mean, sd, maxHeight, x, exp) == Gaussian(Finite(0.0), sd, maxHeight, x, exp)
    ensures sd.NaN? ==> Gaussian(mean, sd, maxHeight, x, exp) == Gaussian(mean, One, maxHeight, x, exp)
    ensures maxHeight.NaN? ==> Gaussian(mean, sd, maxHeight, x, exp) == Gaussian(mean, sd, One, x, exp)
  {
  }

  /** At the mean the Gaussian is its height (NaN when sd = 0). */
  lemma GaussianAtMean(m: real, s: real, h: real, exp: real -> real)
    requires IsExp(exp)
    ensures Gaussian(Finite(m), Finite(s), Finite(h), Finite(m), exp) == if s == 0.0 then NaN else Finite(h)
  {
    if s != 0.0 {
      SquarePositive(s);
      calc { Exponent(m, s, m); == -Square(m - m) / (2.0 * Square(s)); == 0.0 / (2.0 * Square(s)); == 0.0; }
    }
  }

  lemma ExponentSymmetric(m: real, s: real, x: real)
    requires s != 0.0
    ensures Exponent(m, s, 2.0 * m - x) == Exponent(m, s, x)
  {
    assert (2.0 * m - x) - m == -(x - m);
    SquareNegate(x - m);
  }

  /** The Gaussian is symmetric about its (defaulted) mean. */
  lemma GaussianSymmetric(mean: Num, sd: Num, maxHeight: Num, x: real, exp: real -> real)
    ensures var m := DefaultTo(mean, 0.0);
      Gaussian(mean, sd, maxHeight, Finite(x), exp) == Gaussian(mean, sd, maxHeight, Finite(2.0 * m - x), exp)
  {
    var m, s := DefaultTo(mean, 0.0), DefaultTo(sd, 1.0);
    if s != 0.0 {
      ExponentSymmetric(m, s, x);
    }
  }

  /** The exponent is never positive and shrinks as x moves away from m. */
  lemma ExponentFallsOff(m: real, s: real, x1: real, x2: real)
    requires s != 0.0
    requires Square(x1 - m) <= Square(x2 - m)
    ensures Exponent(m, s, x2) <= Exponent(m, s, x1) <= 0.0
  {
    SquareNonnegative(x1 - m);
    SquarePositive(s);
    QuotientOrder(Square(x1 - m), Square(x2 - m), 2.0 * Square(s));
  }

  /** With a positive height and sd != 0 every value lies in (0, height]. */
  lemma GaussianBounds(m: real, s: real, h: real, x: real, exp: real -> real)
    requires IsExp(exp) && s != 0.0 && h > 0.0
    ensures var g := Gaussian(Finite(m), Finite(s), Finite(h), Finite(x), exp);
      g.Finite? && 0.0 < g.v <= h
  {
    var t := Exponent(m, s, x);
    ExponentFallsOff(m, s, x, x);
    assert t <= 0.0;
    var et := exp(t);
    assert et > 0.0;
    assert et <= exp(0.0);
    assert et <= 1.0;
    ScaleBelowOne(h, et);
    ProductPositive(h, et);
    assert Gaussian(Finite(m), Finite(s), Finite(h), Finite(x), exp) == Finite(h * et);
  }

  /** The farther x is from the mean, the smaller the value (for height >= 0,
      sd != 0): the Gaussian peaks at the mean. */
  lemma GaussianFallsOff(m: real, s: real, h: real, x1: real, x2: real, exp: real -> real)
    requires IsExp(exp) && s != 0.0 && h >= 0.0
    requires Square(x1 - m) <= Square(x2 - m)
    ensures var g1 := Gaussian(Finite(m), Finite(s), Finite(h), Finite(x1), exp);
      var g2 := Gaussian(Finite(m), Finite(s), Finite(h), Finite(x2), exp);
      g1.Finite? && g2.Finite? && g2.v <= g1.v
  {
    var t1, t2 := Exponent(m, s, x1), Exponent(m, s, x2);
    ExponentFallsOff(m, s, x1, x2);
    assert exp(t2) <= exp(t1);
    ScaleOrder(h, exp(t2), exp(t1));
    assert Gaussian(Finite(m), Finite(s), Finite(h), Finite(x1), exp) == Finite(h * exp(t1));
    assert Gaussian(Finite(m), Finite(s), Finite(h), Finite(x2), exp) == Finite(h * exp(t2));
  }

  /** The number of entries `computeNormalCurve` writes: one per integer
      `i >= 0` below the fractional bound `width / resolution`, i.e.
      ceil(width / resolution) for a positive width. */
  function SampleCount(width: nat, resolution: int): nat
    requires resolution >= 1
  {
    StepsBelow(width, resolution)
  }

  /** SampleCount is ceil(width / resolution): no entries for an empty
      frame, and otherwise the least n with n * resolution >= width. */
  lemma SampleCountIsCeiling(width: nat, resolution: int)
    requires resolution >= 1
    ensures width == 0 ==> SampleCount(width, resolution) == 0
    ensures width > 0 ==> var n := SampleCount(width, resolution);
      (n - 1) * resolution < width <= n * resolution
  {
    var n := SampleCount(width, resolution);
    StepsBelowSpec(width, resolution, n);
    if n > 0 {
      StepsBelowSpec(width, resolution, n - 1);
    }
  }

  /** The fractional position `newStep * i` of entry i, with
      `newStep = 1 / (width / resolution)`. */
  function SamplePosition(i: nat, width: nat, resolution: int): real
    requires resolution >= 1 && width > 0
  {
    (1.0 / ((width as real) / (resolution as real))) * (i as real)
  }

  /** Entry i of the envelope: `getGaussianFunction(0.5, curveDeviation, 1, newStep * i)`. */
  function EnvelopeWeight(i: nat, width: nat, resolution: int, deviation: real, exp: real -> real): Num
    requires resolution >= 1 && width > 0
  {
    Gaussian(Finite(0.5), Finite(deviation), One, Finite(SamplePosition(i, width, resolution)), exp)
  }

  /** The loop `for (i = 0; i < width / resolution; i++)` visits exactly the
      indices below SampleCount, and there is one only when the width is
      positive. */
  lemma SampleCountIsLoopBound(width: nat, resolution: int, i: nat)
    requires resolution >= 1
    ensures (i as real) < (width as real) / (resolution as real) <==> i < SampleCount(width, resolution)
    ensures i < SampleCount(width, resolution) ==> width > 0
  {
    StepsBelowRealBound(width, resolution, i);
  }

  /** `newStep * i` is `i * resolution / width`. */
  lemma SamplePositionIs(i: nat, width: nat, resolution: int)
    requires resolution >= 1 && width > 0
    ensures SamplePosition(i, width, resolution) == ((i * resolution) as real) / (width as real)
  {
    var w, r, n := width as real, resolution as real, i as real;
    calc {
      SamplePosition(i, width, resolution);
    ==
      (1.0 / (w / r)) * n;
    ==
      (r / w) * n;
    ==
      (n * r) / w;
    ==
      ((i * resolution) as real) / w;
    }
  }

  /** Every written entry sits at a position in [0, 1). */
  lemma SamplePositionInUnitInterval(i: nat, width: nat, resolution: int)
    requires resolution >= 1 && i < SampleCount(width, resolution)
    ensures width > 0
    ensures 0.0 <= SamplePosition(i, width, resolution) < 1.0
  {
    StepsBelowSpec(width, resolution, i);
    SamplePositionIs(i, width, resolution);
    var a, w := (i * resolution) as real, width as real;
    assert 0.0 <= a < w;
    assert a / w < 1.0 by {
      assert (w - a) / w > 0.0;
      assert w / w - a / w == (w - a) / w;
    }
  }

  /** With a deviation other than 0, every envelope weight is in (0, 1]. */
  lemma EnvelopeWeightBounds(i: nat, width: nat, resolution: int, deviation: real, exp: real -> real)
    requires IsExp(exp) && resolution >= 1 && width > 0 && deviation != 0.0
    ensures var e := EnvelopeWeight(i, width, resolution, deviation, exp);
      e.Finite? && 0.0 < e.v <= 1.0
  {
    GaussianBounds(0.5, deviation, 1.0, SamplePosition(i, width, resolution), exp);
  }

  /** Entries whose positions are mirror images about 0.5 (`i*R + j*R == width`)
      carry the same weight. */
  lemma EnvelopeSymmetric(i: nat, j: nat, width: nat, resolution: int, deviation: real, exp: real -> real)
    requires resolution >= 1 && width > 0
    requires i * resolution + j * resolution == width
    ensures EnvelopeWeight(i, width, resolution, deviation, exp) == EnvelopeWeight(j, width, resolution, deviation, exp)
  {
    var pi, pj := SamplePosition(i, width, resolution), SamplePosition(j, width, resolution);
    var a, b, w := (i * resolution) as real, (j * resolution) as real, width as real;
    SamplePositionIs(i, width, resolution);
    SamplePositionIs(j, width, resolution);
    assert a + b == w;
    assert pi + pj == 1.0 by {
      calc { pi + pj; == a / w + b / w; == (a + b) / w; == w / w; == 1.0; }
    }
    assert pj == 2.0 * 0.5 - pi;
    GaussianSymmetric(Finite(0.5), Finite(deviation), One, pi, exp);
  }

  /** The weight never increases as the position moves away from the centre
      0.5 of the line (deviation != 0). */
  lemma EnvelopeCentreHeaviest(i: nat, j: nat, width: nat, resolution: int, deviation: real, exp: real -> real)
    requires IsExp(exp) && resolution >= 1 && width > 0 && deviation != 0.0
    requires Square(SamplePosition(i, width, resolution) - 0.5) <= Square(SamplePosition(j, width, resolution) - 0.5)
    ensures var ei, ej := EnvelopeWeight(i, width, resolution, deviation, exp), EnvelopeWeight(j, width, resolution, deviation, exp);
      ei.Finite? && ej.Finite? && ej.v <= ei.v
  {
    GaussianFallsOff(0.5, deviation, 1.0, SamplePosition(i, width, resolution), SamplePosition(j, width, resolution), exp);
  }
}
