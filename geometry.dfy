/** The derived geometry the sketch recomputes when the window, the capture or
    a slider changes: the horizontal crop window, the render scales, the
    origin the drawing is scaled about, and the peak-height scale. */
module Geometry {
  import opened Numbers

  /** `Math.floor(size * fraction)`. */
  function ScaledFloor(size: int, fraction: real): int {
    ((size as real) * fraction).Floor
  }

  /** A fraction in [0, 1] of a size, floored, lies between 0 and the size. */
  lemma ScaledFloorBounds(size: int, fraction: real)
    ensures size >= 0 && 0.0 <= fraction <= 1.0 ==> 0 <= ScaledFloor(size, fraction) <= size
  {
    FractionBetween(fraction, size as real);
  }

  /** `startX = Math.floor(capture.width * (1 - widthCrop))`: a column of
      the frame for every crop in [0, 1]. */
  function CropStart(width: int, crop: real): (r: int)
    ensures width >= 0 && 0.0 <= crop <= 1.0 ==> 0 <= r <= width
  {
    ScaledFloorBounds(width, 1.0 - crop);
    ScaledFloor(width, 1.0 - crop)
  }

  /** `endX = Math.floor(capture.width * widthCrop)`: a column of the frame
      for every crop in [0, 1]. */
  function CropEnd(width: int, crop: real): (r: int)
    ensures width >= 0 && 0.0 <= crop <= 1.0 ==> 0 <= r <= width
  {
    ScaledFloorBounds(width, crop);
    ScaledFloor(width, crop)
  }

  /** Scaling a non-negative size and flooring keeps the order of fractions. */
  lemma ScaledFloorMonotone(size: nat, a: real, b: real)
    requires a <= b
    ensures ScaledFloor(size, a) <= ScaledFloor(size, b)
  {
    var w := size as real;
    ScaleOrder(w, a, b);
    assert (w * a).Floor <= (w * b).Floor;
  }

  lemma ScaledFloorEnds(size: nat)
    ensures ScaledFloor(size, 0.0) == 0 && ScaledFloor(size, 1.0) == size
  {
    assert (size as real) * 0.0 == 0.0;
    assert (size as real) * 1.0 == size as real;
  }

  /** For a crop of at least one half the window lies inside the frame:
      `0 <= startX <= endX <= width`. The slider keeps the crop in [0.6, 1]. */
  lemma CropWindowInBounds(width: nat, crop: real)
    requires 0.5 <= crop <= 1.0
    ensures 0 <= CropStart(width, crop) <= CropEnd(width, crop) <= width
  {
    ScaledFloorEnds(width);
    ScaledFloorMonotone(width, 0.0, 1.0 - crop);
    ScaledFloorMonotone(width, 1.0 - crop, crop);
    ScaledFloorMonotone(width, crop, 1.0);
  }

  /** For a crop of at least 0.6 the window is non-empty on every frame at
      least 5 pixels wide, and on frames 2 and 4 pixels wide. */
  lemma CropWindowNonEmpty(width: nat, crop: real)
    requires (width >= 5 || width == 2 || width == 4) && 0.6 <= crop <= 1.0
    ensures CropStart(width, crop) < CropEnd(width, crop)
  {
    var w := width as real;
    var a, b := w * (1.0 - crop), w * crop;
    if width >= 5 {
      assert b - a >= 1.0 by {
        calc { b - a; == w * (2.0 * crop - 1.0); >= { ScaleOrder(w, 0.2, 2.0 * crop - 1.0); } w * 0.2; >= 1.0; }
      }
      assert a.Floor + 1 <= b.Floor;
    } else if width == 2 {
      assert a < 1.0 && b >= 1.0;
    } else {
      assert a < 2.0 && b >= 2.0;
    }
  }

  /** On frames 1 and 3 pixels wide the two ends can coincide, leaving an
      empty window. */
  lemma CropWindowCollapses(crop: real)
    requires 0.6 <= crop < 1.0
    ensures CropStart(1, crop) == CropEnd(1, crop) == 0
    ensures CropStart(3, 0.6) == CropEnd(3, 0.6) == 1
  {
    assert (1 as real) * (1.0 - crop) < 1.0 && (1 as real) * crop < 1.0;
    assert (3 as real) * (1.0 - 0.6) == 1.2 && (3 as real) * 0.6 == 1.8;
  }

  /** Raising the crop never narrows the window. */
  lemma CropWidthGrows(width: nat, crop1: real, crop2: real)
    requires crop1 <= crop2
    ensures CropEnd(width, crop1) - CropStart(width, crop1) <= CropEnd(width, crop2) - CropStart(width, crop2)
  {
    ScaledFloorMonotone(width, crop1, crop2);
    ScaledFloorMonotone(width, 1.0 - crop2, 1.0 - crop1);
  }

  /** The sketch's defaults: a 480-pixel frame cropped to 0.75 keeps columns
      120 to 360. */
  lemma CropDefault()
    ensures CropStart(480, 0.75) == 120 && CropEnd(480, 0.75) == 360
  {
  }

  lemma FractionBetween(k: real, q: real)
    ensures q >= 0.0 && 0.0 <= k <= 1.0 ==> 0.0 <= k * q <= q
  {
    if q >= 0.0 && 0.0 <= k <= 1.0 {
      ScaleOrder(q, 0.0, k);
      ScaleOrder(q, k, 1.0);
      assert q * k == k * q;
    }
  }

  /** `scalePoint = (1 - centreScaling) * (canvasSize * 0.5) / displayDensity()`:
      no shift at full scale, the canvas centre at scale 0, and in between a
      point between the two. */
  function ScalePoint(centreScaling: real, canvasSize: nat, density: real): (r: real)
    requires density > 0.0
    ensures centreScaling == 1.0 ==> r == 0.0
    ensures centreScaling == 0.0 ==> r == (canvasSize as real) * 0.5 / density
    ensures 0.0 <= centreScaling <= 1.0 ==> 0.0 <= r <= (canvasSize as real) * 0.5 / density
  {
    var half := (canvasSize as real) * 0.5;
    var k := 1.0 - centreScaling;
    assert k * half / density == k * (half / density);
    FractionBetween(k, half / density);
    k * half / density
  }

  /** `renderScale = (canvasSize / captureSize) / displayDensity()`: the whole
      capture dimension maps onto the whole canvas dimension in CSS pixels. */
  function RenderScale(canvasSize: nat, captureSize: nat, density: real): (r: real)
    requires captureSize > 0 && density > 0.0
    ensures r * (captureSize as real) == (canvasSize as real) / density
    ensures r >= 0.0
  {
    var c, k := canvasSize as real, captureSize as real;
    assert ((c / k) / density) * k == c / density by {
      calc { ((c / k) / density) * k; == (c / k) * k / density; == c / density; }
    }
    (c / k) / density
  }

  /** The scaled drawing stays centred: the middle column of the capture maps
      to the middle of the canvas, whatever the centre scaling. */
  lemma DrawingCentred(centreScaling: real, canvasSize: nat, captureSize: nat, density: real)
    requires captureSize > 0 && density > 0.0
    ensures ScalePoint(centreScaling, canvasSize, density)
          + (((captureSize as real) * 0.5) * RenderScale(canvasSize, captureSize, density)) * centreScaling
         == (canvasSize as real) * 0.5 / density
  {
    var k := captureSize as real;
    var r := RenderScale(canvasSize, captureSize, density);
    var half := 0.5 * ((canvasSize as real) / density);
    assert (k * 0.5) * r == half by {
      calc { (k * 0.5) * r; == 0.5 * (r * k); == half; }
    }
    ScalePointIsShare(centreScaling, canvasSize, density);
    calc { (1.0 - centreScaling) * half + half * centreScaling; == half; }
  }

  /** The column term `(x * renderScale) * centreScaling` lies between 0
      and `centreScaling * canvasSize / displayDensity()`. */
  lemma ColumnOffsetBounds(centreScaling: real, canvasSize: nat, captureSize: nat, density: real, x: real)
    requires captureSize > 0 && density > 0.0
    requires 0.0 <= centreScaling && 0.0 <= x <= captureSize as real
    ensures var r := RenderScale(canvasSize, captureSize, density);
      0.0 <= (x * r) * centreScaling <= centreScaling * ((canvasSize as real) / density)
  {
    var r := RenderScale(canvasSize, captureSize, density);
    var k := captureSize as real;
    var full := (canvasSize as real) / density;
    ScaleOrder(r, x, k);
    assert r * k == full;
    ScaleOrder(r, 0.0, x);
    var xr := x * r;
    assert 0.0 <= xr <= full by { assert xr == r * x; }
    ScaleOrder(centreScaling, xr, full);
    ScaleOrder(centreScaling, 0.0, xr);
    assert xr * centreScaling == centreScaling * xr;
  }

  /** `scalePoint` is `(1 - centreScaling)` times half the canvas size in CSS
      pixels. */
  lemma ScalePointIsShare(centreScaling: real, canvasSize: nat, density: real)
    requires density > 0.0
    ensures ScalePoint(centreScaling, canvasSize, density) == (1.0 - centreScaling) * (0.5 * ((canvasSize as real) / density))
  {
    var c := canvasSize as real;
    calc {
      ScalePoint(centreScaling, canvasSize, density);
    ==
      (1.0 - centreScaling) * (c * 0.5) / density;
    ==
      (1.0 - centreScaling) * (0.5 * (c / density));
    }
  }

  /** With 0 <= centreScaling <= 1, every column 0 <= x <= capture width is
      drawn inside the canvas: `0 <= scalePoint + (x * renderScale) * centreScaling <= canvasSize / displayDensity()`. */
  lemma ColumnInCanvas(centreScaling: real, canvasSize: nat, captureSize: nat, density: real, x: real)
    requires captureSize > 0 && density > 0.0
    requires 0.0 <= centreScaling <= 1.0 && 0.0 <= x <= captureSize as real
    ensures var p := ScalePoint(centreScaling, canvasSize, density) + (x * RenderScale(canvasSize, captureSize, density)) * centreScaling;
      0.0 <= p <= (canvasSize as real) / density
  {
    var full := (canvasSize as real) / density;
    var sp := ScalePoint(centreScaling, canvasSize, density);
    var off := (x * RenderScale(canvasSize, captureSize, density)) * centreScaling;
    ColumnOffsetBounds(centreScaling, canvasSize, captureSize, density, x);
    ScalePointIsShare(centreScaling, canvasSize, density);
    assert full >= 0.0;
    var half := 0.5 * full;
    ScaleOrder(1.0 - centreScaling, 0.0, half);
    ScaleBelowOne(half, centreScaling);
    assert half * centreScaling == centreScaling * half;
    calc {
      sp + off;
    <=
      (1.0 - centreScaling) * half + centreScaling * full;
    ==
      half + centreScaling * half;
    <=
      full;
    }
  }

  /** `lineHeightScale = lineMaxPeakHeight / 255`: maps the byte 255 onto the
      chosen peak height. In `plot` the envelope weight and `curveStrength`
      then multiply that height. */
  function PeakHeightScale(maxPeakHeight: int): (r: real)
    ensures r * 255.0 == maxPeakHeight as real
    ensures 0 <= maxPeakHeight <= 255 ==> 0.0 <= r <= 1.0
  {
    (maxPeakHeight as real) / 255.0
  }
}
