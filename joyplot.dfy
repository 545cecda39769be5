/** The sketch itself: its mutable state, the handlers that update it, the
    envelope recomputation, the `plot` projection and the frame scan of
    `draw`, which turns one captured frame into a list of closed shapes, one
    per scan line. The p5 drawing calls are replaced by the returned shapes:
    each shape is the sequence of its `vertex` calls between `beginShape` and
    `endShape`. */
module Joyplot {
  import opened Numbers
  import opened Envelope
  import opened Geometry

  type Byte = b: int | 0 <= b < 256

  /** A captured frame after `loadPixels`: its size and its RGBA bytes, four
      per pixel, row by row. */
  datatype Capture = Capture(width: nat, height: nat, pixels: seq<Byte>)

  /** The two numbers a `vertex(i, j)` call receives. */
  datatype Point = Point(x: Num, y: Num)

  function Max(a: int, b: int): int {
    if a < b then b else a
  }

  /** `capture.pixels[idx]`: the byte, or `undefined` (NaN) past either end. */
  function PixelAt(cap: Capture, idx: int): (r: Num)
    ensures 0 <= idx < |cap.pixels| ==> r == Finite(cap.pixels[idx] as real)
    ensures !(0 <= idx < |cap.pixels|) ==> r == NaN
  {
    if 0 <= idx < |cap.pixels| then Finite(cap.pixels[idx] as real) else NaN
  }

  lemma AppendAfterBase<T>(shape: seq<T>, base: T, before: seq<T>, v: T)
    requires shape == [base] + before
    ensures shape + [v] == [base] + (before + [v])
  {
  }

  /** `4 * (x + y * capture.width)`: the index of the red byte of pixel
      (x, y) in the RGBA array. */
  function RedIndex(cap: Capture, x: int, y: int): int {
    4 * (x + y * cap.width)
  }

  /** The first multiple index k with `k * resolution > startX`: the first
      column of the scan that gets a vertex. */
  function FirstColumn(startX: int, resolution: int): nat
    requires resolution >= 1
  {
    if startX < 0 then 0 else startX / resolution + 1
  }

  lemma FirstColumnSpec(startX: int, resolution: int, k: nat)
    requires resolution >= 1
    ensures k * resolution > startX <==> k >= FirstColumn(startX, resolution)
  {
    if startX >= 0 {
      var q, r := startX / resolution, startX % resolution;
      assert startX == q * resolution + r && 0 <= r < resolution;
      if k <= q {
        MulMonotone(k, q, resolution);
      } else {
        MulMonotone(q + 1, k, resolution);
        assert (q + 1) * resolution == q * resolution + resolution;
      }
    }
  }

  /** The integers a <= k < b. */
  function RangeSet(a: int, b: int): set<int>
    decreases b - a
  {
    if a < b then {a} + RangeSet(a + 1, b) else {}
  }

  lemma {:induction false} RangeSetSpec(a: int, b: int)
    ensures forall k :: k in RangeSet(a, b) <==> a <= k < b
    ensures |RangeSet(a, b)| == Max(b - a, 0)
    decreases b - a
  {
    if a < b {
      RangeSetSpec(a + 1, b);
      assert a !in RangeSet(a + 1, b);
    }
  }

  /** The x of a vertex once every input is a number:
      `scalePointX + (x * renderWidthScale) * centreScaling`. */
  function LineX(scalePointX: real, x: real, renderScale: real, centreScaling: real): real
  {
    scalePointX + (x * renderScale) * centreScaling
  }

  /** With positive scales, a column further right is plotted further right. */
  lemma LineXIncreasing(sx: real, x1: real, x2: real, rs: real, c: real)
    requires x1 < x2 && rs > 0.0 && c > 0.0
    ensures LineX(sx, x1, rs, c) < LineX(sx, x2, rs, c)
  {
    var d := x2 - x1;
    var e := d * rs;
    ProductPositive(d, rs);
    ProductPositive(e, c);
    calc {
      LineX(sx, x2, rs, c) - LineX(sx, x1, rs, c);
    ==
      (x2 * rs) * c - (x1 * rs) * c;
    ==
      (x2 * rs - x1 * rs) * c;
    ==
      e * c;
    >
      0.0;
    }
  }

  /** The y of a vertex once every input is a number:
      `scalePointY + ((y - pixel * (envelope * curveStrength) * lineHeightScale) * renderHeightScale) * centreScaling`. */
  function LineY(scalePointY: real, y: real, pixel: real, envelope: real, strength: real,
                 heightScale: real, renderScale: real, centreScaling: real): real
  {
    scalePointY + ((y - pixel * (envelope * strength) * heightScale) * renderScale) * centreScaling
  }

  lemma ScaleOrderRight(a: real, b: real, k: real)
    requires k >= 0.0 && a <= b
    ensures a * k <= b * k
  {
    ScaleOrder(k, a, b);
    assert a * k == k * a && b * k == k * b;
  }

  lemma ProductNonnegative(a: real, b: real)
    requires a >= 0.0 && b >= 0.0
    ensures a * b >= 0.0
  {
    ScaleOrder(a, 0.0, b);
  }

  /** A brighter pixel never lowers the line: with non-negative envelope,
      strength and scales, the y coordinate does not increase with the pixel
      value (screen y grows downwards, so peaks go up). */
  lemma LineYMonotone(sy: real, y: real, p1: real, p2: real, e: real, cs: real, hs: real, rs: real, c: real)
    requires p1 <= p2
    requires e >= 0.0 && cs >= 0.0 && hs >= 0.0 && rs >= 0.0 && c >= 0.0
    ensures LineY(sy, y, p2, e, cs, hs, rs, c) <= LineY(sy, y, p1, e, cs, hs, rs, c)
  {
    var k := e * cs;
    ProductNonnegative(e, cs);
    ScaleOrderRight(p1, p2, k);
    ScaleOrderRight(p1 * k, p2 * k, hs);
    var d1, d2 := y - p1 * k * hs, y - p2 * k * hs;
    assert d2 <= d1;
    ScaleOrderRight(d2, d1, rs);
    ScaleOrderRight(d2 * rs, d1 * rs, c);
  }

  lemma ScaleStrictRight(a: real, b: real, k: real)
    requires k > 0.0 && a < b
    ensures a * k < b * k
  {
    ProductPositive(b - a, k);
    assert b * k - a * k == (b - a) * k;
  }

  /** With positive envelope, strength and scales, a strictly brighter pixel
      is plotted strictly higher. */
  lemma LineYStrict(sy: real, y: real, p1: real, p2: real, e: real, cs: real, hs: real, rs: real, c: real)
    requires p1 < p2
    requires e > 0.0 && cs > 0.0 && hs > 0.0 && rs > 0.0 && c > 0.0
    ensures LineY(sy, y, p2, e, cs, hs, rs, c) < LineY(sy, y, p1, e, cs, hs, rs, c)
  {
    var k := e * cs;
    ProductPositive(e, cs);
    ScaleStrictRight(p1, p2, k);
    ScaleStrictRight(p1 * k, p2 * k, hs);
    var d1, d2 := y - p1 * k * hs, y - p2 * k * hs;
    assert d2 < d1;
    ScaleStrictRight(d2, d1, rs);
    ScaleStrictRight(d2 * rs, d1 * rs, c);
  }

  /** A pixel of value 0 leaves the line at its own row:
      `scalePointY + (y * renderHeightScale) * centreScaling`. */
  lemma LineYDark(sy: real, y: real, e: real, cs: real, hs: real, rs: real, c: real)
    ensures LineY(sy, y, 0.0, e, cs, hs, rs, c) == sy + (y * rs) * c
  {
    assert 0.0 * (e * cs) * hs == 0.0;
  }

  /** A crop short of 1 can also leave the envelope no longer than the
      columns below endX: a 480-pixel frame at resolution 2 and crop 0.999
      has endX = 479, 240 columns below it and 240 envelope entries. */
  lemma NearFullCropEnvelopeLength()
    ensures CropEnd(480, 0.999) == 479
    ensures SampleCount(480, 2) == StepsBelow(479, 2) == 240
  {
  }

  /** The x of a plotted point depends only on the column and on
      `scalePointX`, `renderWidthScale` and `centreScaling`: two sketches
      that agree on those plot it at the same x, whatever their envelopes,
      rows, indices and captures. */
  lemma PlotXIgnoresEnvelope(s1: Sketch, s2: Sketch, x: int, y1: int, y2: int, i1: int, i2: int, c1: Capture, c2: Capture)
    requires s1.scalePointX == s2.scalePointX && s1.renderWidthScale == s2.renderWidthScale
    requires s1.centreScaling == s2.centreScaling
    ensures s1.Plot(x, y1, i1, c1).x == s2.Plot(x, y2, i2, c2).x
  {
  }

  /** The sketch's global state. The unset globals `renderWidthScale`,
      `renderHeightScale`, `scalePointX` and `scalePointY` start as NaN;
      `lineMaxPeakHeight` only survives as `lineHeightScale`. */
  class Sketch {
    var normalCurve: seq<Num>
    var lineSpacing: int
    var lineResolution: int
    var lineHeightScale: real
    var curveStrength: real
    var curveDeviation: real
    var widthCrop: real
    var startX: int
    var endX: int
    var centreScaling: real
    var scalePointX: Num
    var scalePointY: Num
    var renderWidthScale: Num
    var renderHeightScale: Num

    /** The spacing and resolution sliders start at 1, so both steps are
        positive and both loops of `draw` terminate. */
    ghost predicate Valid()
      reads this
    {
      lineSpacing >= 1 && lineResolution >= 1
    }

    /** The initial values of the globals and what `setup` assigns to them;
        `mobile` is the answer of `isMobileDevice()`. */
    constructor(mobile: bool)
      ensures Valid()
      ensures normalCurve == [] && lineSpacing == 5 && lineResolution == 2
      ensures lineHeightScale == PeakHeightScale(70)
      ensures curveStrength == 1.0 && curveDeviation == 0.15
      ensures widthCrop == (if mobile then 0.95 else 0.75)
      ensures startX == 0 && endX == 480 && centreScaling == 0.75
      ensures scalePointX == NaN && scalePointY == NaN
      ensures renderWidthScale == NaN && renderHeightScale == NaN
    {
      normalCurve := [];
      lineSpacing := 5;
      lineResolution := 2;
      lineHeightScale := PeakHeightScale(70);
      curveStrength := 1.0;
      curveDeviation := 0.15;
      widthCrop := if mobile then 0.95 else 0.75;
      startX := 0;
      endX := 480;
      centreScaling := 0.75;
      scalePointX := NaN;
      scalePointY := NaN;
      renderWidthScale := NaN;
      renderHeightScale := NaN;
    }

    /** `computeNormalCurve`: entries 0 .. SampleCount - 1 become the envelope
        weights for the current capture width, resolution and deviation;
        entries beyond them, left from an earlier finer resolution, stay as
        they were, so the array never shrinks. */
    method ComputeNormalCurve(captureWidth: nat, exp: real -> real)
      requires Valid()
      modifies this`normalCurve
      ensures |normalCurve| == Max(|old(normalCurve)|, SampleCount(captureWidth, lineResolution))
      ensures captureWidth > 0 ==> forall i :: 0 <= i < SampleCount(captureWidth, lineResolution) ==>
                normalCurve[i] == EnvelopeWeight(i, captureWidth, lineResolution, curveDeviation, exp)
      ensures forall i :: SampleCount(captureWidth, lineResolution) <= i < |old(normalCurve)| ==>
                normalCurve[i] == old(normalCurve)[i]
    {
      var count := SampleCount(captureWidth, lineResolution);
      var newLength := (captureWidth as real) / (lineResolution as real);
      // For a zero width JavaScript computes Infinity here; the loop then
      // runs no iteration, so the value is never used.
      var newStep := if newLength == 0.0 then 0.0 else 1.0 / newLength;
      var i: nat := 0;
      SampleCountIsLoopBound(captureWidth, lineResolution, i);
      while (i as real) < newLength
        invariant i <= count
        invariant (i as real) < newLength <==> i < count
        invariant |normalCurve| == Max(|old(normalCurve)|, i)
        invariant forall j :: 0 <= j < i ==>
                    (captureWidth > 0 && normalCurve[j] == EnvelopeWeight(j, captureWidth, lineResolution, curveDeviation, exp))
        invariant forall j :: i <= j < |old(normalCurve)| ==> normalCurve[j] == old(normalCurve)[j]
        decreases count - i
      {
        SampleCountIsLoopBound(captureWidth, lineResolution, i);
        assert newStep * (i as real) == SamplePosition(i, captureWidth, lineResolution);
        var g := Gaussian(Finite(0.5), Finite(curveDeviation), One, Finite(newStep * (i as real)), exp);
        if i < |normalCurve| {
          normalCurve := normalCurve[i := g];
        } else {
          normalCurve := normalCurve + [g];
        }
        i := i + 1;
        SampleCountIsLoopBound(captureWidth, lineResolution, i);
      }
    }

    /** `windowResized` for a canvas of `canvasWidth` x `canvasHeight`, a
        capture of `captureWidth` x `captureHeight` and display density
        `density`: render scales, scale point and crop window are recomputed,
        then the envelope. */
    method WindowResized(canvasWidth: nat, canvasHeight: nat, captureWidth: nat, captureHeight: nat,
                         density: real, exp: real -> real)
      requires Valid() && captureWidth > 0 && captureHeight > 0 && density > 0.0
      modifies this`renderWidthScale, this`renderHeightScale, this`scalePointX, this`scalePointY,
               this`startX, this`endX, this`normalCurve
      ensures Valid()
      ensures renderWidthScale == Finite(RenderScale(canvasWidth, captureWidth, density))
      ensures renderHeightScale == Finite(RenderScale(canvasHeight, captureHeight, density))
      ensures scalePointX == Finite(ScalePoint(centreScaling, canvasWidth, density))
      ensures scalePointY == Finite(ScalePoint(centreScaling, canvasHeight, density))
      ensures startX == CropStart(captureWidth, widthCrop) && endX == CropEnd(captureWidth, widthCrop)
      ensures |normalCurve| == Max(|old(normalCurve)|, SampleCount(captureWidth, lineResolution))
      ensures forall i :: 0 <= i < SampleCount(captureWidth, lineResolution) ==>
                normalCurve[i] == EnvelopeWeight(i, captureWidth, lineResolution, curveDeviation, exp)
      ensures forall i :: SampleCount(captureWidth, lineResolution) <= i < |old(normalCurve)| ==>
                normalCurve[i] == old(normalCurve)[i]
    {
      renderWidthScale := Finite(RenderScale(canvasWidth, captureWidth, density));
      renderHeightScale := Finite(RenderScale(canvasHeight, captureHeight, density));
      scalePointX := Finite(ScalePoint(centreScaling, canvasWidth, density));
      scalePointY := Finite(ScalePoint(centreScaling, canvasHeight, density));
      startX := CropStart(captureWidth, widthCrop);
      endX := CropEnd(captureWidth, widthCrop);
      ComputeNormalCurve(captureWidth, exp);
    }

    /** `onLineSpacingSliderChanged`; the slider's values are 1 to 50. */
    method OnLineSpacingSliderChanged(value: int)
      requires value >= 1
      modifies this`lineSpacing
      ensures lineSpacing == value
    {
      lineSpacing := value;
    }

    /** `onLineResolutionSliderChanged`: the new resolution, then the envelope
        for it. */
    method OnLineResolutionSliderChanged(value: int, captureWidth: nat, exp: real -> real)
      requires Valid() && value >= 1
      modifies this`lineResolution, this`normalCurve
      ensures Valid() && lineResolution == value
      ensures |normalCurve| == Max(|old(normalCurve)|, SampleCount(captureWidth, value))
      ensures captureWidth > 0 ==> forall i :: 0 <= i < SampleCount(captureWidth, value) ==>
                normalCurve[i] == EnvelopeWeight(i, captureWidth, value, curveDeviation, exp)
      ensures forall i :: SampleCount(captureWidth, value) <= i < |old(normalCurve)| ==>
                normalCurve[i] == old(normalCurve)[i]
    {
      lineResolution := value;
      ComputeNormalCurve(captureWidth, exp);
    }

    /** `onLineMaxPeakHeightSliderChanged`. */
    method OnLineMaxPeakHeightSliderChanged(value: int)
      modifies this`lineHeightScale
      ensures lineHeightScale == PeakHeightScale(value)
    {
      lineHeightScale := PeakHeightScale(value);
    }

    /** `onCurveStrengthSliderChanged`. */
    method OnCurveStrengthSliderChanged(value: real)
      modifies this`curveStrength
      ensures curveStrength == value
    {
      curveStrength := value;
    }

    /** `onCurveDeviationSliderChanged`: the new deviation, then the envelope
        for it. */
    method OnCurveDeviationSliderChanged(value: real, captureWidth: nat, exp: real -> real)
      requires Valid()
      modifies this`curveDeviation, this`normalCurve
      ensures Valid() && curveDeviation == value
      ensures |normalCurve| == Max(|old(normalCurve)|, SampleCount(captureWidth, lineResolution))
      ensures captureWidth > 0 ==> forall i :: 0 <= i < SampleCount(captureWidth, lineResolution) ==>
                normalCurve[i] == EnvelopeWeight(i, captureWidth, lineResolution, value, exp)
      ensures forall i :: SampleCount(captureWidth, lineResolution) <= i < |old(normalCurve)| ==>
                normalCurve[i] == old(normalCurve)[i]
    {
      curveDeviation := value;
      ComputeNormalCurve(captureWidth, exp);
    }

    /** `onCentreScalingSliderChanged`: the new scaling and the scale point
        for it. */
    method OnCentreScalingSliderChanged(value: real, canvasWidth: nat, canvasHeight: nat, density: real)
      requires density > 0.0
      modifies this`centreScaling, this`scalePointX, this`scalePointY
      ensures centreScaling == value
      ensures scalePointX == Finite(ScalePoint(value, canvasWidth, density))
      ensures scalePointY == Finite(ScalePoint(value, canvasHeight, density))
    {
      centreScaling := value;
      scalePointX := Finite(ScalePoint(centreScaling, canvasWidth, density));
      scalePointY := Finite(ScalePoint(centreScaling, canvasHeight, density));
    }

    /** `onWidthCropSliderChanged`: the new crop and the crop window for it. */
    method OnWidthCropSliderChanged(value: real, captureWidth: nat)
      modifies this`widthCrop, this`startX, this`endX
      ensures widthCrop == value
      ensures startX == CropStart(captureWidth, value) && endX == CropEnd(captureWidth, value)
    {
      widthCrop := value;
      startX := CropStart(captureWidth, widthCrop);
      endX := CropEnd(captureWidth, widthCrop);
    }

    /** `normalCurve[k]`: the entry, or `undefined` (NaN) past the end. */
    function EnvelopeAt(k: int): (r: Num)
      reads this
      ensures 0 <= k < |normalCurve| ==> r == normalCurve[k]
      ensures !(0 <= k < |normalCurve|) ==> r == NaN
    {
      if 0 <= k < |normalCurve| then normalCurve[k] else NaN
    }

    /** `plot(x, y, xIndex)`: the canvas position of capture column x on scan
        line y, raised by the brightness (red byte) of pixel (x, y) weighted
        by envelope entry xIndex. No index is checked: an out-of-range pixel
        or envelope read is NaN, and so is every coordinate computed from a
        NaN (PlotIsNumberArithmetic). */
    function Plot(x: int, y: int, xIndex: int, cap: Capture): Point
      reads this
    {
      var p := PixelAt(cap, RedIndex(cap, x, y));
      var e := EnvelopeAt(xIndex);
      Point(if scalePointX.Finite? && renderWidthScale.Finite?
            then Finite(LineX(scalePointX.v, x as real, renderWidthScale.v, centreScaling))
            else NaN,
            if scalePointY.Finite? && p.Finite? && e.Finite? && renderHeightScale.Finite?
            then Finite(LineY(scalePointY.v, y as real, p.v, e.v, curveStrength, lineHeightScale,
                              renderHeightScale.v, centreScaling))
            else NaN)
    }

    /** Plot is the source's arithmetic on JavaScript numbers, operation by
        operation, with NaN spreading through every operation. */
    lemma PlotIsNumberArithmetic(x: int, y: int, xIndex: int, cap: Capture)
      ensures Plot(x, y, xIndex, cap).x ==
        Add(scalePointX, Mul(Mul(Finite(x as real), renderWidthScale), Finite(centreScaling)))
      ensures Plot(x, y, xIndex, cap).y ==
        Add(scalePointY,
            Mul(Mul(Sub(Finite(y as real),
                        Mul(Mul(PixelAt(cap, RedIndex(cap, x, y)), Mul(EnvelopeAt(xIndex), Finite(curveStrength))),
                            Finite(lineHeightScale))),
                    renderHeightScale),
                Finite(centreScaling)))
    {
      var p, e := PixelAt(cap, RedIndex(cap, x, y)), EnvelopeAt(xIndex);
      if scalePointY.Finite? && p.Finite? && e.Finite? && renderHeightScale.Finite? {
        var t := Mul(Mul(p, Mul(e, Finite(curveStrength))), Finite(lineHeightScale));
        var tv := p.v * (e.v * curveStrength) * lineHeightScale;
        assert t == Finite(tv);
        var d := Sub(Finite(y as real), t);
        assert d == Finite(y as real - tv);
        var m := Mul(Mul(d, renderHeightScale), Finite(centreScaling));
        assert m == Finite(((y as real - tv) * renderHeightScale.v) * centreScaling);
        assert Add(scalePointY, m) == Finite(LineY(scalePointY.v, y as real, p.v, e.v, curveStrength,
          lineHeightScale, renderHeightScale.v, centreScaling));
      }
    }

    /** The vertex `draw` emits for scan column k (x = k * lineResolution):
        its envelope index is the loop counter `xCounter`, which is k + 1. */
    function Vertex(y: int, cap: Capture, k: nat): Point
      reads this
      requires Valid()
    {
      Plot(k * lineResolution, y, k + 1, cap)
    }

    /** The interior vertices among the first k scan columns: those whose x
        lies strictly right of startX, in order. */
    function InteriorPrefix(y: int, cap: Capture, k: nat): seq<Point>
      reads this
      requires Valid()
    {
      if k <= FirstColumn(startX, lineResolution) then []
      else InteriorPrefix(y, cap, k - 1) + [Vertex(y, cap, k - 1)]
    }

    /** All interior vertices of scan line y: the columns below endX. */
    function Interior(y: int, cap: Capture): seq<Point>
      reads this
      requires Valid()
    {
      InteriorPrefix(y, cap, StepsBelow(endX, lineResolution))
    }

    /** The shape of scan line y: a left base vertex 1px below the plotted
        point at startX, the interior vertices, and a right base vertex at
        the x of endX and the height of the left one. */
    function Shape(y: int, cap: Capture): seq<Point>
      reads this
      requires Valid()
    {
      var left := Plot(startX, y, 0, cap);
      var right := Plot(endX, y, StepsBelow(endX, lineResolution) + 1, cap);
      [Point(left.x, Add(left.y, One))] + Interior(y, cap) + [Point(right.x, Add(left.y, One))]
    }

    /** One iteration of `draw`'s outer loop: the shape of scan line y. */
    method DrawLine(y: int, cap: Capture) returns (shape: seq<Point>)
      requires Valid()
      ensures shape == Shape(y, cap)
    {
      var left := Plot(startX, y, 0, cap);
      var leftY := left.y;
      var base := Point(left.x, Add(leftY, One));
      shape := [base];
      var xCounter := 1;
      var x := 0;
      StepsBelowSpec(endX, lineResolution, 0);
      while x < endX
        invariant xCounter >= 1 && x == (xCounter - 1) * lineResolution
        invariant xCounter - 1 <= StepsBelow(endX, lineResolution)
        invariant shape == [base] + InteriorPrefix(y, cap, xCounter - 1)
        decreases endX - x
      {
        ghost var k := xCounter - 1;
        StepsBelowSpec(endX, lineResolution, k);
        InteriorPrefixStep(y, cap, k, x);
        if x > startX {
          ghost var before := InteriorPrefix(y, cap, k);
          var v := Plot(x, y, xCounter, cap);
          AppendAfterBase(shape, base, before, v);
          shape := shape + [v];
        }
        MulSucc(k, lineResolution);
        xCounter := xCounter + 1;
        x := x + lineResolution;
      }
      StepsBelowSpec(endX, lineResolution, xCounter - 1);
      assert xCounter == StepsBelow(endX, lineResolution) + 1;
      assert shape == [base] + Interior(y, cap);
      var right := Plot(endX, y, xCounter, cap);
      shape := shape + [Point(right.x, Add(leftY, One))];
    }

    /** `draw`, after `capture.loadPixels()`: one shape per scan line
        y = 0, lineSpacing, 2 * lineSpacing, ... below the capture height. */
    method Draw(cap: Capture) returns (shapes: seq<seq<Point>>)
      requires Valid()
      ensures |shapes| == StepsBelow(cap.height, lineSpacing)
      ensures forall n :: 0 <= n < |shapes| ==> shapes[n] == Shape(n * lineSpacing, cap)
    {
      shapes := [];
      var y := 0;
      while y < cap.height
        invariant y == |shapes| * lineSpacing
        invariant |shapes| <= StepsBelow(cap.height, lineSpacing)
        invariant forall n :: 0 <= n < |shapes| ==> shapes[n] == Shape(n * lineSpacing, cap)
        decreases cap.height - y
      {
        StepsBelowSpec(cap.height, lineSpacing, |shapes|);
        var shape := DrawLine(y, cap);
        MulSucc(|shapes|, lineSpacing);
        shapes := shapes + [shape];
        y := y + lineSpacing;
      }
      StepsBelowSpec(cap.height, lineSpacing, |shapes|);
    }

    /** One more column adds its vertex exactly when it lies right of startX. */
    lemma InteriorPrefixStep(y: int, cap: Capture, k: nat, x: int)
      requires Valid() && x == k * lineResolution
      ensures InteriorPrefix(y, cap, k + 1) ==
        if x > startX then InteriorPrefix(y, cap, k) + [Plot(x, y, k + 1, cap)]
        else InteriorPrefix(y, cap, k)
    {
      FirstColumnSpec(startX, lineResolution, k);
      if k + 1 > FirstColumn(startX, lineResolution) {
        assert InteriorPrefix(y, cap, k + 1) == InteriorPrefix(y, cap, k) + [Vertex(y, cap, k)];
      } else if k > 0 {
        assert InteriorPrefix(y, cap, k) == [];
      }
    }

    /** The interior of the first k columns holds one vertex per column from
        FirstColumn on, each the plot of that column with index column + 1. */
    lemma {:induction false} InteriorPrefixElements(y: int, cap: Capture, k: nat)
      requires Valid()
      ensures var first := FirstColumn(startX, lineResolution);
        |InteriorPrefix(y, cap, k)| == Max(k - first, 0)
      ensures var first := FirstColumn(startX, lineResolution);
        forall i :: 0 <= i < |InteriorPrefix(y, cap, k)| ==>
          InteriorPrefix(y, cap, k)[i] == Plot((first + i) * lineResolution, y, first + i + 1, cap)
    {
      if k > FirstColumn(startX, lineResolution) {
        InteriorPrefixElements(y, cap, k - 1);
      }
    }

    /** The columns that get an interior vertex are exactly the multiples
        k * lineResolution strictly between startX and endX. */
    lemma InteriorColumnsExact(k: nat)
      requires Valid()
      ensures startX < k * lineResolution < endX <==>
              FirstColumn(startX, lineResolution) <= k < StepsBelow(endX, lineResolution)
    {
      FirstColumnSpec(startX, lineResolution, k);
      StepsBelowSpec(endX, lineResolution, k);
    }

    /** Vertex i of the interior is the plot of column FirstColumn + i, which
        lies strictly between startX and endX, with envelope index one past
        its column and at most StepsBelow(endX, lineResolution). */
    lemma InteriorVertex(y: int, cap: Capture, i: nat)
      requires Valid() && i < |Interior(y, cap)|
      ensures var k := FirstColumn(startX, lineResolution) + i;
        && startX < k * lineResolution < endX
        && (k * lineResolution) / lineResolution + 1 == k + 1
        && k + 1 <= StepsBelow(endX, lineResolution)
        && Interior(y, cap)[i] == Plot(k * lineResolution, y, k + 1, cap)
    {
      InteriorPrefixElements(y, cap, StepsBelow(endX, lineResolution));
      InteriorColumnsExact(FirstColumn(startX, lineResolution) + i);
      MultipleDiv(FirstColumn(startX, lineResolution) + i, lineResolution);
    }

    /** A shape has its two base vertices around the interior ones, and both
        base vertices sit 1px below the plotted point at startX. */
    lemma ShapeLayout(y: int, cap: Capture)
      requires Valid()
      ensures var s := Shape(y, cap);
        && |s| == |Interior(y, cap)| + 2
        && s[1..|s| - 1] == Interior(y, cap)
        && s[0].y == s[|s| - 1].y == Add(Plot(startX, y, 0, cap).y, One)
        && s[0].x == Plot(startX, y, 0, cap).x
        && s[|s| - 1].x == Plot(endX, y, StepsBelow(endX, lineResolution) + 1, cap).x
    {
      var s := Shape(y, cap);
      assert s[1..|s| - 1] == Interior(y, cap);
    }

    /** The shape of scan line y has two base vertices plus one vertex per
        multiple k * lineResolution strictly between startX and endX. (The
        bound k <= endX only makes the set visibly finite; every such k
        meets it.) */
    lemma ShapeVertexCount(y: int, cap: Capture)
      requires Valid()
      ensures |Shape(y, cap)| ==
        2 + |set k: nat | k <= endX && startX < k * lineResolution < endX|
    {
      var first, count := FirstColumn(startX, lineResolution), StepsBelow(endX, lineResolution);
      var columns := set k: nat | k <= endX && startX < k * lineResolution < endX;
      forall k: nat
        ensures k in columns <==> first <= k < count
      {
        InteriorColumnsExact(k);
        if startX < k * lineResolution < endX {
          MulMonotone(1, lineResolution, k);
        }
      }
      RangeSetSpec(first, count);
      assert columns == RangeSet(first, count);
      InteriorPrefixElements(y, cap, count);
      ShapeLayout(y, cap);
    }

    /** When columns map to the canvas with a positive scale, the interior
        vertices of a shape run strictly left to right. */
    lemma InteriorXIncreasing(y: int, cap: Capture, i: nat, j: nat)
      requires Valid() && i < j < |Interior(y, cap)|
      requires scalePointX.Finite? && renderWidthScale.Finite? && renderWidthScale.v > 0.0 && centreScaling > 0.0
      ensures Interior(y, cap)[i].x.Finite? && Interior(y, cap)[j].x.Finite?
      ensures Interior(y, cap)[i].x.v < Interior(y, cap)[j].x.v
    {
      var first := FirstColumn(startX, lineResolution);
      InteriorVertex(y, cap, i);
      InteriorVertex(y, cap, j);
      MulMonotone(first + i + 1, first + j, lineResolution);
      assert (first + i + 1) * lineResolution == (first + i) * lineResolution + lineResolution;
      LineXIncreasing(scalePointX.v, ((first + i) * lineResolution) as real, ((first + j) * lineResolution) as real,
        renderWidthScale.v, centreScaling);
    }

    /** The x of a plotted point depends only on the column, not on the
        pixels, the row or the envelope. */
    lemma PlotXIgnoresPixels(x: int, y1: int, y2: int, i1: int, i2: int, cap1: Capture, cap2: Capture)
      ensures Plot(x, y1, i1, cap1).x == Plot(x, y2, i2, cap2).x
    {
    }

    /** Until `windowResized` has run, the render scales are unset (and so
        is the scale point unless the centre-scaling slider has moved), and
        every plotted vertex is NaN in both coordinates (`draw` does not wait
        for the capture). */
    lemma UnresizedPlotIsNaN(x: int, y: int, xIndex: int, cap: Capture)
      requires scalePointX == NaN || renderWidthScale == NaN
      ensures Plot(x, y, xIndex, cap).x == NaN
      ensures scalePointY == NaN || renderHeightScale == NaN ==> Plot(x, y, xIndex, cap).y == NaN
    {
    }

    /** `draw` reads the pixel buffer whether or not the capture has
        delivered a frame: with no pixels, every plotted y is NaN. */
    lemma EmptyFramePlotsNaN(x: int, y: int, xIndex: int, cap: Capture)
      requires cap.pixels == []
      ensures Plot(x, y, xIndex, cap).y == NaN
    {
    }

    /** When the envelope has no more entries than the columns below endX
        (as after `windowResized` with `widthCrop = 1`, where endX is the
        capture width), the last interior vertex reads one past its end and
        its y is NaN. */
    lemma LastInteriorReadsPastEnvelope(y: int, cap: Capture)
      requires Valid() && |Interior(y, cap)| > 0
      requires |normalCurve| <= StepsBelow(endX, lineResolution)
      ensures Interior(y, cap)[|Interior(y, cap)| - 1].y == NaN
    {
      var n := |Interior(y, cap)|;
      InteriorPrefixElements(y, cap, StepsBelow(endX, lineResolution));
      assert FirstColumn(startX, lineResolution) + (n - 1) + 1 == StepsBelow(endX, lineResolution);
    }

    /** A full-width crop after `windowResized` meets the condition of
        LastInteriorReadsPastEnvelope when the envelope has not been computed
        for a finer resolution before. */
    lemma FullCropEnvelopeLength(captureWidth: nat)
      requires Valid() && endX == CropEnd(captureWidth, 1.0)
      requires |normalCurve| == SampleCount(captureWidth, lineResolution)
      ensures |normalCurve| <= StepsBelow(endX, lineResolution)
    {
      ScaledFloorEnds(captureWidth);
    }

    /** Every interior vertex reads a present envelope entry when the
        envelope is longer than the columns below endX. */
    lemma InteriorEnvelopeInRange(y: int, cap: Capture, i: nat)
      requires Valid() && i < |Interior(y, cap)|
      requires |normalCurve| > StepsBelow(endX, lineResolution)
      ensures FirstColumn(startX, lineResolution) + i + 1 < |normalCurve|
    {
      InteriorVertex(y, cap, i);
    }

    /** Once the state holds numbers, the y of a plotted point is LineY of
        those numbers, the pixel's red byte and the envelope entry. */
    lemma PlotY(x: int, y: int, xIndex: int, cap: Capture)
      requires scalePointY.Finite? && renderHeightScale.Finite?
      requires 0 <= xIndex < |normalCurve| && normalCurve[xIndex].Finite?
      requires 0 <= RedIndex(cap, x, y) < |cap.pixels|
      ensures Plot(x, y, xIndex, cap).y == Finite(LineY(scalePointY.v, y as real,
        cap.pixels[RedIndex(cap, x, y)] as real, normalCurve[xIndex].v, curveStrength,
        lineHeightScale, renderHeightScale.v, centreScaling))
    {
    }

    /** A brighter pixel raises the line: for non-negative parameters, of two
        frames of the same width the one with the brighter pixel at (x, y)
        plots it no lower. */
    lemma PlotBrightnessMonotone(x: int, y: int, xIndex: int, cap1: Capture, cap2: Capture)
      requires scalePointY.Finite? && renderHeightScale.Finite? && renderHeightScale.v >= 0.0
      requires 0 <= xIndex < |normalCurve| && normalCurve[xIndex].Finite? && normalCurve[xIndex].v >= 0.0
      requires curveStrength >= 0.0 && lineHeightScale >= 0.0 && centreScaling >= 0.0
      requires cap1.width == cap2.width
      requires 0 <= RedIndex(cap1, x, y) < |cap1.pixels| && RedIndex(cap2, x, y) < |cap2.pixels|
      requires cap1.pixels[RedIndex(cap1, x, y)] <= cap2.pixels[RedIndex(cap1, x, y)]
      ensures Plot(x, y, xIndex, cap1).y.Finite? && Plot(x, y, xIndex, cap2).y.Finite?
      ensures Plot(x, y, xIndex, cap2).y.v <= Plot(x, y, xIndex, cap1).y.v
      ensures cap1.pixels[RedIndex(cap1, x, y)] < cap2.pixels[RedIndex(cap1, x, y)] &&
              renderHeightScale.v > 0.0 && normalCurve[xIndex].v > 0.0 &&
              curveStrength > 0.0 && lineHeightScale > 0.0 && centreScaling > 0.0 ==>
                Plot(x, y, xIndex, cap2).y.v < Plot(x, y, xIndex, cap1).y.v
    {
      var idx := RedIndex(cap1, x, y);
      PlotY(x, y, xIndex, cap1);
      PlotY(x, y, xIndex, cap2);
      LineYMonotone(scalePointY.v, y as real, cap1.pixels[idx] as real, cap2.pixels[idx] as real,
        normalCurve[xIndex].v, curveStrength, lineHeightScale, renderHeightScale.v, centreScaling);
      if cap1.pixels[idx] < cap2.pixels[idx] && renderHeightScale.v > 0.0 && normalCurve[xIndex].v > 0.0 &&
         curveStrength > 0.0 && lineHeightScale > 0.0 && centreScaling > 0.0 {
        LineYStrict(scalePointY.v, y as real, cap1.pixels[idx] as real, cap2.pixels[idx] as real,
          normalCurve[xIndex].v, curveStrength, lineHeightScale, renderHeightScale.v, centreScaling);
      }
    }

    /** A black pixel leaves the line at its scan row, whatever the envelope
        and strength: `scalePointY + (y * renderHeightScale) * centreScaling`. */
    lemma PlotDarkPixel(x: int, y: int, xIndex: int, cap: Capture)
      requires scalePointY.Finite? && renderHeightScale.Finite?
      requires 0 <= xIndex < |normalCurve| && normalCurve[xIndex].Finite?
      requires 0 <= RedIndex(cap, x, y) < |cap.pixels| && cap.pixels[RedIndex(cap, x, y)] == 0
      ensures Plot(x, y, xIndex, cap).y == Finite(scalePointY.v + ((y as real) * renderHeightScale.v) * centreScaling)
    {
      PlotY(x, y, xIndex, cap);
      LineYDark(scalePointY.v, y as real, normalCurve[xIndex].v, curveStrength, lineHeightScale,
        renderHeightScale.v, centreScaling);
    }

    /** After `windowResized`, with 0 <= centreScaling <= 1, every column
        0 <= x <= capture width is plotted inside the canvas. */
    lemma PlotXInCanvas(canvasWidth: nat, captureWidth: nat, density: real, x: int, y: int, xIndex: int, cap: Capture)
      requires captureWidth > 0 && density > 0.0 && 0.0 <= centreScaling <= 1.0
      requires renderWidthScale == Finite(RenderScale(canvasWidth, captureWidth, density))
      requires scalePointX == Finite(ScalePoint(centreScaling, canvasWidth, density))
      requires 0 <= x <= captureWidth
      ensures var p := Plot(x, y, xIndex, cap).x;
        p.Finite? && 0.0 <= p.v <= (canvasWidth as real) / density
    {
      ColumnInCanvas(centreScaling, canvasWidth, captureWidth, density, x as real);
    }
  }
}
