/** JavaScript numbers as the sketch uses them, and the counting of the
    integer steps a `for` loop with a fractional or integer bound takes. */
module Numbers {

  /** A JavaScript number: a finite value or NaN. Reading `undefined` (an
      unset variable, an array index past the end) and using it in arithmetic
      gives NaN, so `undefined` is NaN here too. IEEE rounding is not modelled:
      finite values are exact reals. */
  datatype Num = Finite(v: real) | NaN

  const One: Num := Finite(1.0)

  function Add(a: Num, b: Num): Num {
    if a.Finite? && b.Finite? then Finite(a.v + b.v) else NaN
  }

  function Sub(a: Num, b: Num): Num {
    if a.Finite? && b.Finite? then Finite(a.v - b.v) else NaN
  }

  function Mul(a: Num, b: Num): Num {
    if a.Finite? && b.Finite? then Finite(a.v * b.v) else NaN
  }

  /** The number of integers `k >= 0` with `k * step < bound`: how many times
      `for (k = 0; k * step < bound; k++)` runs its body. */
  function StepsBelow(bound: int, step: int): nat
    requires step >= 1
  {
    if bound <= 0 then 0 else (bound - 1) / step + 1
  }

  lemma MulMonotone(a: int, b: int, c: int)
    requires a <= b && c >= 0
    ensures a * c <= b * c
  {
  }

  lemma MulSucc(a: int, b: int)
    ensures (a + 1) * b == a * b + b
  {
  }

  /** StepsBelow counts exactly the steps below the bound. */
  lemma StepsBelowSpec(bound: int, step: int, k: nat)
    requires step >= 1
    ensures k * step < bound <==> k < StepsBelow(bound, step)
  {
    if bound > 0 {
      var q, r := (bound - 1) / step, (bound - 1) % step;
      assert bound - 1 == q * step + r && 0 <= r < step;
      if k <= q {
        MulMonotone(k, q, step);
      } else {
        MulMonotone(q + 1, k, step);
        assert (q + 1) * step == q * step + step;
      }
    }
  }

  /** The same count, read off a bound written as a quotient of reals: the
      integers `i >= 0` with `i < w / R` are exactly those with `i * R < w`. */
  lemma StepsBelowRealBound(w: int, step: int, i: nat)
    requires step >= 1
    ensures (i as real) < (w as real) / (step as real) <==> i < StepsBelow(w, step)
  {
    StepsBelowSpec(w, step, i);
    var s := step as real;
    assert (i * step) as real == (i as real) * s;
    if (i as real) < (w as real) / s {
      assert (i as real) * s < ((w as real) / s) * s;
    } else {
      assert (i as real) * s >= ((w as real) / s) * s;
    }
  }

  /** The multiple `k * step`, divided by `step`, gives back `k`. */
  lemma MultipleDiv(k: int, step: int)
    requires step >= 1
    ensures (k * step) / step == k && (k * step) % step == 0
  {
    var q, r := (k * step) / step, (k * step) % step;
    assert k * step == q * step + r && 0 <= r < step;
    assert (k - q) * step == r;
    if k - q >= 1 {
      MulMonotone(1, k - q, step);
    } else if k - q <= -1 {
      MulMonotone(k - q, -1, step);
    }
  }

  // Real arithmetic helpers. Each nonlinear step is kept in a lemma of its own.

  function Square(a: real): real {
    a * a
  }

  lemma ProductPositive(a: real, b: real)
    requires a > 0.0 && b > 0.0
    ensures a * b > 0.0
  {
  }

  lemma SquareNonnegative(a: real)
    ensures Square(a) >= 0.0
  {
  }

  lemma SquarePositive(a: real)
    requires a != 0.0
    ensures Square(a) > 0.0
  {
    if a > 0.0 {
      calc { Square(a); == a * a; > { ProductPositive(a, a); } 0.0; }
    } else {
      calc { Square(a); == (-a) * (-a); > { ProductPositive(-a, -a); } 0.0; }
    }
  }

  lemma ScaleOrder(k: real, a: real, b: real)
    requires k >= 0.0 && a <= b
    ensures k * a <= k * b
  {
    calc { k * b - k * a; == k * (b - a); >= 0.0; }
  }

  lemma SquareNegate(a: real)
    ensures Square(-a) == Square(a)
  {
    calc { Square(-a); == (-a) * (-a); == a * a; == Square(a); }
  }

  lemma ScaleBelowOne(h: real, e: real)
    requires h >= 0.0 && e <= 1.0
    ensures h * e <= h
  {
    calc { h * e; <= { ScaleOrder(h, e, 1.0); } h * 1.0; == h; }
  }

  lemma QuotientOrder(a: real, b: real, d: real)
    requires d > 0.0 && 0.0 <= a <= b
    ensures -b / d <= -a / d <= 0.0
  {
    assert (b - a) / d >= 0.0;
    assert a / d >= 0.0;
  }
}
