# Unknown Pleasures joyplot: a verified model of the sketch core

The sketch turns a live webcam frame into a "joyplot" in the style of the
*Unknown Pleasures* album cover. The frame is scanned in horizontal lines
every `lineSpacing` pixels. Each line samples the frame every
`lineResolution` columns inside a crop window `[startX, endX)`. The
brightness (red byte) of each sampled pixel lifts the line upwards, weighted
by a Gaussian envelope `normalCurve` that is strongest in the middle of the
frame. Each line is drawn as a closed shape with a flat base, then scaled
about a point that keeps the drawing centred on the canvas.

The project models this core in Dafny:

- `numbers.dfy` (module `Numbers`): JavaScript numbers as `Finite(real) | NaN`
  (reading `undefined` acts as NaN in arithmetic), the NaN-spreading
  operations, and the iteration count of a stepping `for` loop.
- `envelope.dfy` (module `Envelope`): `defaultTo`, `getGaussianFunction`,
  and the envelope weights that `computeNormalCurve` writes.
- `geometry.dfy` (module `Geometry`): the crop window, the render scales, the
  scale point and the peak-height scale.
- `joyplot.dfy` (module `Joyplot`): class `Sketch`. Its fields are the
  sketch's module-level state, and its methods are `computeNormalCurve`,
  `windowResized` and the slider handlers. It also holds `plot` and the frame
  scan of `draw`. `draw` returns the shapes it would draw: each shape is the
  list of its `vertex` calls.
- `timestamp.dfy` (module `Timestamp`): `pad2` and the `YYYYMMDDHHMMSS`
  extension of `Date`.

A few things the code does are easy to miss. The model follows the code in
each case:

- The envelope gets one entry for every integer `i < width / lineResolution`.
  That is ceil(width / R) entries, not floor.
- The envelope is only ever written into, never truncated. A coarser
  resolution therefore leaves stale entries beyond the new count.
- `draw` does not skip frames before the capture has loaded. Until
  `windowResized` has run, the scale fields are unset, so every vertex is
  NaN (`UnresizedPlotIsNaN`). With an empty pixel buffer every y is NaN
  (`EmptyFramePlotsNaN`).
- `draw` passes `xCounter = x / R + 1` as the envelope index, one more than
  the entry computed for column `x`. Whenever the envelope has at most
  StepsBelow(endX, R) entries (the number of columns `k * R < endX`), the
  last interior vertex reads one entry past the envelope, so its y is NaN
  (`LastInteriorReadsPastEnvelope`). A full crop on an envelope computed for
  the current width is one such state (`FullCropEnvelopeLength`), but not
  the only one: a 480-pixel frame with R = 2 and crop 0.999 has endX = 479
  and still 240 envelope entries. An envelope left longer by an earlier,
  finer resolution avoids it (`InteriorEnvelopeInRange`).
- For crops from 0.6 to 1 the crop window is non-empty (`startX < endX`)
  on every frame at least 5 pixels wide and on frames 2 and 4 pixels wide
  (`CropWindowNonEmpty`). On frames 1 and 3 pixels wide both ends can
  coincide (`CropWindowCollapses`), and on an empty frame they are both 0.

`Math.pow(Math.E, t)` is a parameter `exp`. The lemmas that need it assume
only `IsExp(exp)`: `exp(0) = 1`, every value is positive, and it is monotone.
`displayDensity()`, the canvas size and the capture size are also
parameters.

## Model

| member | source | states |
|---|---|---|
| `Numbers.StepsBelowSpec` | sketch.js:280 | A loop `for (k = 0; k * step < bound; k++)` runs its body for exactly the k below StepsBelow(bound, step) |
| `Numbers.StepsBelowRealBound` | sketch.js:245-247 | The fractional bound `i < width / R` admits exactly the integers below StepsBelow(width, R) |
| `Numbers.MultipleDiv` | sketch.js:299-305 | Column `k * R` divided by R gives back k, with no remainder |
| `Envelope.DefaultTo` | sketch.js:262-264 | The result is the default exactly when the value is NaN, and otherwise the value itself |
| `Envelope.Gaussian` | sketch.js:253-260 | `getGaussianFunction`: a NaN x gives NaN, and a number x gives a number whenever the defaulted sd is not 0. Its shape is stated by GaussianDefaults, GaussianAtMean, GaussianSymmetric, GaussianBounds and GaussianFallsOff |
| `Envelope.GaussianDefaults` | sketch.js:253-258 | Each NaN argument among mean, sd and height is defaulted on its own, to 0, 1 and 1, whatever the other arguments are. Numbers are used as given. `x` is never defaulted, so a NaN x gives NaN |
| `Envelope.GaussianAtMean` | sketch.js:253-258 | At x = mean the Gaussian equals its height. It is NaN when sd = 0 (0/0) |
| `Envelope.GaussianSymmetric` | sketch.js:258 | The value at x equals the value at 2·mean − x, with the mean after defaulting |
| `Envelope.GaussianBounds` | sketch.js:258 | With sd ≠ 0 and a positive height, every value is a number in (0, height] |
| `Envelope.GaussianFallsOff` | sketch.js:258 | The farther x is from the mean, the smaller the value: the curve peaks at its mean |
| `Envelope.SampleCount` | sketch.js:245-247 | The number of entries `computeNormalCurve` writes. What it counts is stated by SampleCountIsLoopBound and SampleCountIsCeiling |
| `Envelope.SampleCountIsCeiling` | sketch.js:245-247 | The count is ceil(width / R): 0 for an empty frame, otherwise the least n with n·R >= width |
| `Envelope.SampleCountIsLoopBound` | sketch.js:245-247 | The envelope loop visits exactly the indices below SampleCount, and visits any only when the width is positive |
| `Envelope.SamplePositionIs` | sketch.js:245-248 | Entry i sits at `newStep * i = i·R / width` |
| `Envelope.SamplePositionInUnitInterval` | sketch.js:246-248 | Every written entry sits at a position in [0, 1) |
| `Envelope.EnvelopeWeight` | sketch.js:248 | Entry i of the envelope, the Gaussian with mean 0.5 and height 1 at `newStep * i`. Its values are stated by EnvelopeWeightBounds, EnvelopeSymmetric and EnvelopeCentreHeaviest, and ComputeNormalCurve writes it |
| `Envelope.EnvelopeWeightBounds` | sketch.js:248 | With deviation ≠ 0 every envelope weight is a number in (0, 1] |
| `Envelope.EnvelopeSymmetric` | sketch.js:248 | Entries at mirror positions (i·R + j·R = width) have equal weights |
| `Envelope.EnvelopeCentreHeaviest` | sketch.js:248 | The weight does not increase as the position moves away from the centre 0.5 |
| `Geometry.ScaledFloorBounds` | sketch.js:190-191 | `Math.floor(size * f)` for f in [0, 1] lies between 0 and the size |
| `Geometry.CropStart` | sketch.js:232 | `startX` is a column of the frame, between 0 and the width, for every crop in [0, 1] |
| `Geometry.CropEnd` | sketch.js:234 | `endX` is between 0 and the width for every crop in [0, 1] |
| `Geometry.CropWindowInBounds` | sketch.js:232-234 | For crop in [0.5, 1], `0 <= startX <= endX <= width` |
| `Geometry.CropWindowNonEmpty` | sketch.js:232-234 | For crop in [0.6, 1], `startX < endX` on every frame at least 5 pixels wide and on frames 2 and 4 pixels wide |
| `Geometry.CropWindowCollapses` | sketch.js:232-234 | On a 1-pixel frame every crop in [0.6, 1) gives `startX = endX = 0`, and on a 3-pixel frame crop 0.6 gives `startX = endX = 1` |
| `Geometry.CropWidthGrows` | sketch.js:190-191 | A larger crop never narrows the window `endX − startX` |
| `Geometry.CropDefault` | sketch.js:27-30 | The defaults (a 480-pixel frame, crop 0.75) give the window 120 to 360 |
| `Geometry.ScalePoint` | sketch.js:228-229 | The scale point is 0 at scaling 1 and half the CSS canvas size at scaling 0. For scaling in [0, 1] it lies between the two |
| `Geometry.RenderScale` | sketch.js:222-223 | The render scale maps the whole capture dimension onto the whole canvas dimension in CSS pixels |
| `Geometry.DrawingCentred` | sketch.js:222-229 | The capture's middle column maps to the canvas middle, whatever the centre scaling |
| `Geometry.ColumnOffsetBounds` | sketch.js:339 | The column term `(x · renderScale) · scaling` lies between 0 and scaling times the CSS canvas size |
| `Geometry.ColumnInCanvas` | sketch.js:339 | For scaling in [0, 1], every column between 0 and the capture width is plotted inside the canvas |
| `Geometry.PeakHeightScale` | sketch.js:164 | `lineHeightScale` maps the byte 255 onto the chosen peak height; the envelope weight and `curveStrength` then multiply it. Peak heights in [0, 255] give a scale in [0, 1] |
| `Joyplot.PixelAt` | sketch.js:340 | A pixel read gives the byte inside the buffer and NaN outside it |
| `Joyplot.FirstColumnSpec` | sketch.js:304 | The filter `x > startX` keeps exactly the columns from FirstColumn on |
| `Joyplot.RangeSetSpec` | sketch.js:303-307 | RangeSet(a, b) holds exactly the integers a <= k < b, and there are max(b − a, 0) of them |
| `Joyplot.LineXIncreasing` | sketch.js:339 | With positive scales, a column further right is plotted further right |
| `Joyplot.LineYMonotone` | sketch.js:340 | For non-negative envelope, strength and scales, a brighter pixel never gives a larger y |
| `Joyplot.LineYStrict` | sketch.js:340 | For positive envelope, strength and scales, a strictly brighter pixel gives a strictly smaller y |
| `Joyplot.LineYDark` | sketch.js:340 | A pixel of value 0 leaves the line at its scan row |
| `Joyplot.Sketch.constructor` | sketch.js:3-35 | The globals' initial values and what `setup` assigns: a 70/255 height scale, crop 0.95 on mobile devices and 0.75 elsewhere, unset scales (NaN) |
| `Joyplot.Sketch.ComputeNormalCurve` | sketch.js:244-250 | Entries below SampleCount become the envelope weights for the current width, resolution and deviation. Higher entries are unchanged. The length is the larger of the old length and SampleCount |
| `Joyplot.Sketch.WindowResized` | sketch.js:216-241 | Sets the render scales, scale point and crop window from the new sizes, then recomputes the envelope as ComputeNormalCurve does |
| `Joyplot.Sketch.OnLineSpacingSliderChanged` | sketch.js:153-155 | The new spacing is stored |
| `Joyplot.Sketch.OnLineResolutionSliderChanged` | sketch.js:157-161 | The new resolution is stored, and the envelope is recomputed for it |
| `Joyplot.Sketch.OnLineMaxPeakHeightSliderChanged` | sketch.js:163-165 | The height scale becomes value / 255 |
| `Joyplot.Sketch.OnCurveStrengthSliderChanged` | sketch.js:167-169 | The new strength is stored |
| `Joyplot.Sketch.OnCurveDeviationSliderChanged` | sketch.js:171-175 | The new deviation is stored, and the envelope is recomputed with it |
| `Joyplot.Sketch.OnCentreScalingSliderChanged` | sketch.js:177-185 | The new scaling is stored, and both scale-point coordinates are recomputed for it |
| `Joyplot.Sketch.OnWidthCropSliderChanged` | sketch.js:187-192 | The new crop is stored, and the crop window is recomputed for it |
| `Joyplot.Sketch.EnvelopeAt` | sketch.js:340 | An envelope read gives the entry inside the array and NaN past its end |
| `Joyplot.Sketch.Plot` | sketch.js:337-341 | `plot(x, y, xIndex)`. Its meaning is stated by PlotIsNumberArithmetic, PlotXIgnoresPixels, PlotXIgnoresEnvelope, UnresizedPlotIsNaN, EmptyFramePlotsNaN, PlotBrightnessMonotone, PlotDarkPixel and PlotXInCanvas |
| `Joyplot.Sketch.PlotIsNumberArithmetic` | sketch.js:337-341 | Plot is the source's number arithmetic, operation by operation, with NaN spreading through each operation |
| `Joyplot.Sketch.DrawLine` | sketch.js:282-316 | One outer iteration emits exactly Shape(y, cap): the left base, the vertices of the filtered columns in order, then the right base |
| `Joyplot.Sketch.Draw` | sketch.js:266-318 | A frame emits one shape per y = 0, S, 2S, … below the capture height, and shape n is Shape(n·S, cap) |
| `Joyplot.Sketch.InteriorPrefixStep` | sketch.js:303-309 | One more inner iteration adds its column's vertex exactly when `x > startX` |
| `Joyplot.Sketch.InteriorPrefixElements` | sketch.js:303-309 | After k iterations the interior holds one vertex per column from FirstColumn to k − 1, each plotted with its column and column + 1 |
| `Joyplot.Sketch.InteriorColumnsExact` | sketch.js:303-307 | A column gets an interior vertex exactly when `startX < k·R < endX` |
| `Joyplot.Sketch.InteriorVertex` | sketch.js:299-309 | Interior vertex i plots column k = FirstColumn + i. That column lies strictly between startX and endX. Its envelope index is `x / R + 1 = k + 1`, at most StepsBelow(endX, R) |
| `Joyplot.Sketch.Shape` | sketch.js:282-316 | The vertices one outer iteration of `draw` emits. DrawLine and Draw are proved to emit it, and ShapeLayout, ShapeVertexCount, InteriorVertex and InteriorXIncreasing state its structure |
| `Joyplot.Sketch.ShapeLayout` | sketch.js:295-313 | A shape is the left base, the interior, then the right base. Both base vertices have y = leftY + 1. The base x values are those of startX and endX |
| `Joyplot.Sketch.ShapeVertexCount` | sketch.js:295-313 | A shape has 2 + #{k : startX < k·R < endX} vertices |
| `Joyplot.Sketch.InteriorXIncreasing` | sketch.js:303-306 | With positive scales, the interior vertices run strictly left to right |
| `Joyplot.Sketch.PlotXIgnoresPixels` | sketch.js:339 | Within one sketch, a plotted x depends only on the column, never on the pixels, the row or the envelope index |
| `Joyplot.PlotXIgnoresEnvelope` | sketch.js:339 | Two sketches that agree on `scalePointX`, `renderWidthScale` and `centreScaling` plot a column at the same x, whatever their envelopes, rows, indices and captures |
| `Joyplot.Sketch.UnresizedPlotIsNaN` | sketch.js:337-339 | While `renderWidthScale` or `scalePointX` is unset (before `windowResized`, even after the centre-scaling slider has set `scalePointX`), every plotted x is NaN. If `scalePointY` or `renderHeightScale` is also unset, every plotted y is NaN too |
| `Joyplot.Sketch.EmptyFramePlotsNaN` | sketch.js:337-341 | With an empty pixel buffer, every plotted y is NaN |
| `Joyplot.Sketch.LastInteriorReadsPastEnvelope` | sketch.js:303-309 | If the envelope has at most StepsBelow(endX, R) entries, the last interior vertex reads past it and has a NaN y |
| `Joyplot.Sketch.FullCropEnvelopeLength` | sketch.js:234 | With crop 1 and an envelope computed for this width, the envelope has no entry beyond StepsBelow(endX, R) |
| `Joyplot.NearFullCropEnvelopeLength` | sketch.js:234 | On a 480-pixel frame at resolution 2, crop 0.999 gives endX = 479 with 240 columns below it and 240 envelope entries, so LastInteriorReadsPastEnvelope applies short of a full crop |
| `Joyplot.Sketch.InteriorEnvelopeInRange` | sketch.js:305 | If the envelope is longer than StepsBelow(endX, R), every interior vertex reads an entry that is present |
| `Joyplot.Sketch.PlotBrightnessMonotone` | sketch.js:337-341 | Of two equally wide frames, the brighter pixel at (x, y) is plotted no lower, and strictly higher when every factor is positive |
| `Joyplot.Sketch.PlotDarkPixel` | sketch.js:337-341 | A black pixel is plotted at `scalePointY + (y · renderHeightScale) · centreScaling` |
| `Joyplot.Sketch.PlotXInCanvas` | sketch.js:339 | After `windowResized`, with scaling in [0, 1], every column between 0 and the capture width is plotted inside the canvas |
| `Timestamp.NatToString` | sketch.js:324 | Number to string gives decimal digits that read back as the number, with a leading "0" only for 0 itself. Its length is 1, 2, 3 or 4 for numbers with that many digits |
| `Timestamp.Pad2` | sketch.js:323-325 | For 0 <= n < 100, `pad2(n)` is exactly two digits that read back as n |
| `Timestamp.Format` | sketch.js:321-333 | `date.YYYYMMDDHHMMSS()`. FormatParse states that it is 14 digits from which every field reads back |
| `Timestamp.FormatParse` | sketch.js:321-333 | For a four-digit year and in-range fields the timestamp is 14 digits, and every field reads back from its fixed position. The month is stored as getMonth() + 1 |

## Left out

- Video capture and its loaded and metadata events (`captureLoaded`, `resizeCaptureAgain`). The capture's width, height and pixel buffer are parameters of the operations that read them.
- The canvas, sliders, paragraphs, button, strokes and fills created in `setup`, and widget positioning in `windowResized`. These are user-interface glue.
- The idle timer, UI fade in and out, and `isMobileDevice`. The constructor takes the mobile test's answer as a Boolean.
- `takeSnapshot` and `saveCanvas`: file export. Only the timestamp it builds is modelled.
- `apply_prewitt_filter`: its only call site is commented out.
- IEEE floating point: values are exact reals and Infinity is not a value.
- `Joyplot.Sketch.WindowResized`: requires positive capture dimensions and density. With a zero capture dimension JavaScript would compute Infinity render scales, which the number model does not have.
- `Envelope.GaussianValue`: for sd = 0 it uses the IEEE limits (NaN at the mean, 0 elsewhere) and does not model Infinity.
- `Math.pow(Math.E, t)`: a parameter `exp`, constrained only by `IsExp`. Exact envelope weights are not computed.
- The p5 primitives `background`, `loadPixels`, `beginShape`, `vertex` and `endShape`. Draw returns the shapes instead of drawing them.
- `Joyplot.Sketch.OnLineSpacingSliderChanged`: requires a spacing of at least 1, the slider's minimum. A spacing of 0 would make `draw` loop forever.
- `Joyplot.Sketch.OnLineResolutionSliderChanged`: requires a resolution of at least 1, the slider's minimum, for the same reason.
