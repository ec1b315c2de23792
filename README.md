# ColorMapInterface curve engine, in Dafny

A model of the computational core of ColorMapInterface, a small JavaScript
application that edits colour maps. Each of the red, green and blue channels of
a map is a curve through user-placed checkpoints. The model covers:

- the curve engine:
  - the open uniform quadratic B-spline of `BSplines.js`: the matrix helper, the
    knot vector, the choice of curve segment, the evaluation by basis matrices
    and the discretisation;
  - the De Casteljau evaluation and discretisation of a Bezier curve in
    `DeCasteljau.js`;
- the value classes around it: `Point` and `Checkpoint`, and `RGBColor`;
- the colour map (`ColorMap.js`). It fills an array of colours in place from
  three channel curves;
- the checkpoint hit test of `ChannelController.js`;
- the reference code of `Tests/color_map_tests.js`:
  - the closed-form degree-2 B-spline `BSplineDegree2Test`;
  - the test-data generators `discretizeLinear` and `createBlackToWhiteReference`.

JavaScript numbers are modelled as `real`. `Math.pow(x, 2)` is `x * x`. A
`throw` becomes a `Failure` or `Fail` value carrying an `Error` kind
(`wrappers.dfy`). A read of `undefined` is `None`, or a `TypeError` when a
property of it is read.

The layout follows the source: one module per file.

| module | file | source |
|---|---|---|
| `Wrappers` | `wrappers.dfy` | results of operations that may throw |
| `Matrices` | `matrix.dfy` | class `Matrix` of `BSplines.js` |
| `BSplines` | `bsplines.dfy` | class `BSplines` of `BSplines.js` |
| `DeCasteljau` | `de_casteljau.dfy` | `DeCasteljau.js` |
| `Points` | `checkpoint.dfy` | `Checkpoint.js` |
| `RGBColors` | `rgb_color.dfy` | `RGBColor.js` |
| `Channels` | `channels.dfy` | what `ColorMap` and `ChannelController` use of `Channel` and `ChannelView.js` |
| `ColorMaps` | `color_map.dfy` | `ColorMap.js` |
| `ChannelControllers` | `channel_controller.dfy` | `ChannelController.js` |
| `ReferenceTests` | `reference_tests.dfy` | `Tests/color_map_tests.js` |

How each kind of source code is modelled:

- **Loops.** Code that works step by step keeps that form: the matrix
  operations, the knot vector, the curve-index scan, the discretisers,
  De Casteljau's reduction, `update` and the hit test. Each is a `method` with
  its loop, proved equal to a specification function. The properties the
  source promises are then lemmas about that function.
- **Mutable objects.** `Point`, `RGBColor`, `ColorMap` and `ChannelView` are
  classes whose methods modify their fields.
- **Throwing constructors.** A JavaScript constructor that throws becomes a
  static `Create` method returning a `Result`.
- **Immutable values.** A `Matrix` is never changed after construction, so it
  is a datatype.
- **Curve points.** The engine computes with `Pt`, the value of a point.

Facts about the code that are easy to get wrong:

- **Three control points.** With three points the evaluation uses M1 on all
  of [0, 1], so at t = 1 it gives (P1 + P2) / 2, not P2
  (`BSplines.ThreePointEnds`). The end points are interpolated from four
  control points on (`BSplines.EndpointsInterpolated`), and the discretiser
  hands three points to De Casteljau.
- **Last discretised point.** The last point need not have x = 1: it has x = 1,
  or it is the curve at the end of its range, appended exactly when the last
  sample's x is not 1 (`DeCasteljau.BezierDiscretizationShape`,
  `BSplines.BSplineDiscretizationShape`).
- **Sums of the basis matrices.** The columns of M1, M2 and M3 sum to
  (0, 0, 1). Their rows do not sum to 1. The column sums make the three
  blending functions sum to 1 for every u (`BSplines.PartitionOfUnity`).

## Model

| member | source | states |
|---|---|---|
| Matrices.NewMatrix | BSplines.js:12-29 | succeeds exactly on a non-empty array whose rows all have the first row's length; the matrix holds that array; otherwise DimensionError |
| Matrices.Matrix.Dimension | BSplines.js:44-46 | the row count, and a column count every row has |
| Matrices.HaveSameDimension | BSplines.js:53-58 | true iff the row counts agree and, row by row, the row lengths agree |
| Matrices.Sum | BSplines.js:70-78 | the element-wise sum is a valid matrix with the operands' dimensions |
| Matrices.Scale | BSplines.js:91-99 | the scaled matrix is valid with the dimensions of m |
| Matrices.Mul | BSplines.js:113-125 | the product is a valid rows(m1) x cols(m2) matrix |
| Matrices.Add | BSplines.js:66-79 | fails with DimensionMismatch unless the dimensions match; otherwise the element-wise sum, with m1's dimensions |
| Matrices.ScalarProduct | BSplines.js:87-100 | keeps m's dimensions; every entry is k times m's entry |
| Matrices.Product | BSplines.js:109-126 | fails unless cols(m1) = rows(m2); otherwise a rows(m1) x cols(m2) matrix whose entry (i, j) is the running sum over k of m1[i][k] * m2[k][j], in k order |
| Matrices.SumCommutes | BSplines.js:66-79 | addition is commutative |
| Matrices.ScaleScale | BSplines.js:87-100 | scaling by j and then k is scaling by k * j |
| Matrices.MulIdentity | BSplines.js:109-126 | the product with the identity on the right gives the matrix back |
| Matrices.Dot3 | BSplines.js:117-120 | over a shared dimension of 3 an entry of the product is the three-term sum |
| BSplines.KnotVectorOpenBSpline | BSplines.js:175-196 | fails with InvalidArgument iff k > n; otherwise the closed-form knot vector |
| BSplines.KnotVectorShape | BSplines.js:175-196 | the vector has length k + n + 1: k + 1 zeros, then steps of 1, then k + 1 copies of n - k; it never decreases |
| BSplines.KnotVectorExamples | BSplines.js:175-196 | (2, 4) gives [0,0,0,1,2,2,2] and (2, 5) gives [0,0,0,1,2,3,3,3] |
| BSplines.DetermineCurveIndex | BSplines.js:205-220 | the three-way test and interior scan, undefined reads included, compute the curve index |
| BSplines.ScanBrackets | BSplines.js:209-215 | on a sorted vector the scan stops on the knot interval holding t, without leaving the middle range |
| BSplines.CurveIndexDefined | BSplines.js:205-220 | on a sorted vector of length at least k + 2 the index exists iff knots[0] <= t <= knots[last] |
| BSplines.CurveIndexMiddle | BSplines.js:209-215 | the middle branch returns a segment whose knot interval holds t; the scan never reads past the vector |
| BSplines.ScanOpen | BSplines.js:209-215 | on the quadratic open vector the scan from j stops at floor t |
| BSplines.CurveIndexOpen | BSplines.js:205-220 | for the quadratic open vector of n >= 3 points: min(floor t, n - 3) on [0, n - 2], RangeError outside |
| BSplines.BasisMatricesHalved | BSplines.js:151-167 | M1, M2 and M3 are the source's integer matrices scaled by 1/2 |
| BSplines.SegmentMatrix | BSplines.js:243 | the basis matrix chosen for any segment index is a 3 x 3 matrix |
| BSplines.WindowBlend | BSplines.js:244-259 | [Px] * (M * T) and [Py] * (M * T) are the window's coordinates blended by the rows of M |
| BSplines.WeightsAreRows | BSplines.js:151-167 | the written-out blending polynomials are the rows of the segment's matrix applied to [u^2, u, 1] |
| BSplines.SegmentIsWindowBlend | BSplines.js:241-259 | a segment point is its three-point window blended by the segment's matrix |
| BSplines.SegmentIsWindowPoint | BSplines.js:241-259 | the matrix products the source computes give the segment point |
| BSplines.BSplinePoint | BSplines.js:228-262 | evaluation succeeds iff there are at least 3 points and t is in [0, n - 2]; else InvalidArgument for too few points and RangeError for t |
| BSplines.BSplinePointByIndex | BSplines.js:238-243 | the evaluation is the error of the curve index, or the point of the window the index picks, at t minus the index |
| BSplines.EvaluateOpenQuadraticBSpline | BSplines.js:228-262 | the method's knot vector, index, window, matrix choice and products compute the specified curve point or error |
| BSplines.SegmentProducts | BSplines.js:241-259 | slicing the window, choosing the matrix and taking the products give the segment point |
| BSplines.WindowProducts | BSplines.js:244-259 | building T, Px and Py and taking the three products gives the window point |
| BSplines.EvaluateInRange | BSplines.js:238-243 | on [0, n - 2] the curve is segment min(floor t, n - 3), a valid window start, at t minus that index |
| BSplines.BasisSum | BSplines.js:151-167 | the blending weights add up to the column sums times u^2, u and 1 |
| BSplines.PartitionOfUnity | BSplines.js:151-167 | for every segment the three blending weights sum to 1 |
| BSplines.BlendAtZero | BSplines.js:244-248 | at u = 0 the weights are the last column of M |
| BSplines.BlendAtOne | BSplines.js:244-248 | at u = 1 the weights are the row sums of M |
| BSplines.BlendConstant | BSplines.js:151-167 | weights summing to 1 leave a common value unchanged |
| BSplines.ConstantHeight | BSplines.js:228-262 | control points that share one y give a curve at that y on [0, n - 2] |
| BSplines.EndpointsInterpolated | BSplines.js:228-262 | from four points on, the curve is P0 at t = 0 and the last point at t = n - 2 |
| BSplines.ThreePointEnds | BSplines.js:243 | with three points the curve is P0 at t = 0 but (P1 + P2) / 2 at t = 1 |
| BSplines.SegmentEnd | BSplines.js:151-167 | every segment but the last ends half way between its last two points |
| BSplines.SegmentStart | BSplines.js:151-167 | every segment but the first starts half way between its first two points |
| BSplines.SegmentsJoin | BSplines.js:151-167 | neighbouring segments meet: the curve is continuous at interior knots |
| BSplines.EvaluateAtKnot | BSplines.js:228-262 | at interior knot j the curve is (P[j] + P[j + 1]) / 2 |
| BSplines.BSplineParamLinear | BSplines.js:275-281 | dt added i times to 0 is i * dt |
| BSplines.StepsCover | BSplines.js:275 | dt is positive and N steps of dt reach the last knot n - 2 |
| BSplines.ParamBelow | BSplines.js:278 | the i-th parameter is at least 0, and below the last knot iff i < N |
| BSplines.BSplineSamplesUpTo | BSplines.js:278-281 | the loop has pushed i samples after i rounds |
| BSplines.SamplesUpToAt | BSplines.js:278-281 | sample j is the curve at the j-th parameter |
| BSplines.LastKnot | BSplines.js:274-275 | the last knot of n control points is n - 2 |
| BSplines.DiscretizeOpenQuadraticBSpline | BSplines.js:270-287 | up to 3 points the result is the De Casteljau discretisation; otherwise the N samples at 0, dt, ..., closed by the end point when the last x is not 1 |
| BSplines.BSplineDiscretizationShape | BSplines.js:270-287 | from 4 points on: N or N + 1 points, the first is P0, sample i is the curve at i * dt, and the last has x = 1 or is the last control point |
| DeCasteljau.LinearCombination | DeCasteljau.js:24-27 | the point u * pa + v * pb, coordinate by coordinate |
| DeCasteljau.LinearInterpolation | DeCasteljau.js:36-38 | linearInterpolation(pa, pb, t) is t * pa + (1 - t) * pb |
| DeCasteljau.Reduce | DeCasteljau.js:46-53 | a reduction is one point shorter (empty for empty input) |
| DeCasteljau.ReduceAt | DeCasteljau.js:46-53 | the i-th reduced point is (1 - t) p[i] + t p[i + 1]: the two weight swaps cancel |
| DeCasteljau.Reduction | DeCasteljau.js:46-53 | the loop builds the reduction |
| DeCasteljau.PointBezierT | DeCasteljau.js:61-68 | the loop ends with the curve point; one point is returned unchanged; no points give undefined |
| DeCasteljau.Evaluate | DeCasteljau.js:76-78 | the y of the curve point; TypeError for no points |
| DeCasteljau.CloseCurve | DeCasteljau.js:96-98 | the end point is appended at most once, exactly when the last x is not 1 |
| DeCasteljau.StepBelow | DeCasteljau.js:91 | with N steps covering K, the i-th step lies below K iff i < N |
| DeCasteljau.NextParam | DeCasteljau.js:93 | adding dt moves to the next sample parameter |
| DeCasteljau.UnitStep | DeCasteljau.js:87 | dt = 1 / N is positive and N of them make 1 |
| DeCasteljau.ParamBelowOne | DeCasteljau.js:91 | the i-th parameter is below 1 iff i < N |
| DeCasteljau.BezierCurveDiscretizeN | DeCasteljau.js:86-100 | first point, then the curve at dt, 2 dt, ... below 1, then the end point when the last x is not 1; TypeError for no points |
| DeCasteljau.BezierAtZero | DeCasteljau.js:61-68 | the curve at t = 0 is the first control point |
| DeCasteljau.BezierAtOne | DeCasteljau.js:61-68 | the curve at t = 1 is the last control point |
| DeCasteljau.QuadraticBlend | DeCasteljau.js:46-53 | two rounds of interpolation expand to the quadratic Bernstein weights |
| DeCasteljau.BezierThree | DeCasteljau.js:61-68 | three points take two rounds of interpolation |
| DeCasteljau.BezierQuadratic | DeCasteljau.js:61-68 | for three points the curve is (1-t)^2 P0 + 2t(1-t) P1 + t^2 P2 |
| DeCasteljau.BezierExample | DeCasteljau.js:61-68 | (0,0), (0.5,1), (1,0) give (0.5, 0.5) at t = 0.5 |
| DeCasteljau.BezierDiscretizationShape | DeCasteljau.js:86-100 | N or N + 1 points, the first is P0, sample i is the curve at i / N, and the last has x = 1 or is the last control point |
| Points.Point.constructor | Checkpoint.js:14-17 | the point holds x and y, which the getters return |
| Points.Point.Value | Checkpoint.js:22-38 | the value of a point is what getX and getY return |
| Points.Point.SetX | Checkpoint.js:29-31 | only x changes |
| Points.Point.SetY | Checkpoint.js:43-45 | only y changes |
| Points.Checkpoint.constructor | Checkpoint.js:58-65 | a fresh point at (x, y) and the given RGB colour name |
| Points.Checkpoint.Create | Checkpoint.js:58-65 | throws InvalidArgument unless the name is Red, Green or Blue; otherwise a checkpoint at (x, y) with that name |
| Points.Checkpoint.GetColorName | Checkpoint.js:70-72 | the colour name is one of the three RGB symbols |
| RGBColors.RGBColor.constructor | RGBColor.js:24-32 | stores the three components, in range |
| RGBColors.RGBColor.Create | RGBColor.js:24-32 | throws RangeError iff some component lies outside [0, 1]; otherwise a fresh colour whose getters return the components |
| RGBColors.RGBColor.GetRGB | RGBColor.js:58-60 | [red, green, blue], in that order |
| RGBColors.RGBColor.SetRed | RGBColor.js:65-67 | only red changes, unchecked: the colour is in range afterwards iff the new red and the old green and blue are |
| RGBColors.RGBColor.SetGreen | RGBColor.js:72-74 | only green changes, unchecked |
| RGBColors.RGBColor.SetBlue | RGBColor.js:79-81 | only blue changes, unchecked |
| RGBColors.RGBColor.SetRGB | RGBColor.js:88-92 | all three change, unchecked |
| Channels.ChannelView.constructor | ChannelView.js:14-17 | the checkpoint width starts at 20 pixels |
| Channels.ChannelView.SetCheckpointWidth | ChannelView.js:36-41 | a negative width throws InvalidArgument and changes nothing; otherwise it becomes the width |
| ColorMaps.Normalize | ColorMap.js:101-103 | x (size - 1) = k |
| ColorMaps.NormalizeEnds | ColorMap.js:101-103 | colour 0 sits at 0 and colour size - 1 at 1 |
| ColorMaps.NormalizeIncreasing | ColorMap.js:101-103 | strictly increasing in k for size >= 2 |
| ColorMaps.NormalizeInUnit | ColorMap.js:101-103 | every colour of the map samples the channels inside [0, 1] |
| ColorMaps.Stop | ColorMap.js:108-119 | where update stops: every colour before it can be built, and the colour there, if inside the map, cannot |
| ColorMaps.StopSkips | ColorMap.js:108-119 | after colours that can all be built the loop stops where it would have stopped from 0 |
| ColorMaps.StopAtEnd | ColorMap.js:108-119 | update reaches the end of the map iff every colour can be built |
| ColorMaps.ColorMap.constructor | ColorMap.js:29-34 | the channels, the size and a fresh array of size empty slots |
| ColorMaps.ColorMap.Create | ColorMap.js:22-36 | RangeError for a negative size or a colour outside [0, 1]; otherwise every colour holds the channels' intensities at k / (size - 1) |
| ColorMaps.ColorMap.GetRGBChannel | ColorMap.js:43-52 | the channel of the symbol; undefined for anything but the three RGB symbols |
| ColorMaps.ColorMap.GetRGBChannels | ColorMap.js:57-59 | [red, green, blue] |
| ColorMaps.ColorMap.GetColorK | ColorMap.js:89-94 | IndexError for k outside [0, size); otherwise colors[k] |
| ColorMaps.ColorMap.FilledAdmissible | ColorMap.js:112-117 | colours already filled in could be built |
| ColorMaps.ColorMap.NewColor | ColorMap.js:110-116 | a fresh colour of the intensities at k / (size - 1), or RangeError exactly when they are not all in [0, 1] |
| ColorMaps.ColorMap.Store | ColorMap.js:117 | slot k takes the colour and no other slot changes |
| ColorMaps.ColorMap.Update | ColorMap.js:108-119 | succeeds iff every colour can be built; the colours before the first refused one hold the intensities at their positions, the rest are untouched; only the array changes |
| ColorMaps.ColorMap.UpdateSize | ColorMap.js:71-75 | size becomes s; a negative s throws RangeError; otherwise a fresh array of s slots filled by update |
| ChannelControllers.Abs | ChannelController.js:51-52 | Math.abs: a non-negative value equal to v or -v |
| ChannelControllers.FirstHit | ChannelController.js:50-55 | the smallest index whose point lies in the box, or -1 exactly when none does |
| ChannelControllers.Positions | ChannelController.js:45 | the current positions of the checkpoints, in order |
| ChannelControllers.ChannelController.constructor | ChannelController.js:15-22 | stores the model and the view |
| ChannelControllers.ChannelController.GetCheckpointsLength | ChannelController.js:27-36 | the number of checkpoints getCheckpoints lists |
| ChannelControllers.ChannelController.CheckIfClickedOnACheckpoint | ChannelController.js:44-56 | the first checkpoint within checkpointWidth / width / 2 horizontally and checkpointWidth / height / 2 vertically of (x, y), or -1; always in [-1, number of checkpoints) |
| ReferenceTests.TestDetermineCurveIndex | Tests/color_map_tests.js:15-31 | the same result as the engine's determineCurveIndex with k = 2, on every input |
| ReferenceTests.RefEvaluate | Tests/color_map_tests.js:39-60 | succeeds iff there are 4 points, or 3 points and t in [0, 1]; InvalidArgument and RangeError otherwise |
| ReferenceTests.RefThreeIsBezier | Tests/color_map_tests.js:42-46 | with 3 points the reference is De Casteljau's curve |
| ReferenceTests.PiecesJoin | Tests/color_map_tests.js:48-58 | both 4-point pieces give (P1 + P2) / 2 at t = 1 |
| ReferenceTests.RefFourIsBSpline | Tests/color_map_tests.js:48-58 | with 4 points the reference is the engine's B-spline on [0, 2] |
| ReferenceTests.FirstPieceIsSegment | Tests/color_map_tests.js:49-53 | the t < 1 piece is segment 0 of the engine, under M1 |
| ReferenceTests.FirstCoordinate | Tests/color_map_tests.js:50-51 | one coordinate of the t < 1 piece uses the weights of M1 |
| ReferenceTests.FirstWeights | Tests/color_map_tests.js:50-51 | the t < 1 polynomials are the blending weights of M1 |
| ReferenceTests.SecondPieceIsSegment | Tests/color_map_tests.js:54-58 | the t >= 1 piece is segment 1 of the engine, under M3, at t - 1 |
| ReferenceTests.SecondCoordinate | Tests/color_map_tests.js:55-56 | one coordinate of the t >= 1 piece uses the weights of M3 |
| ReferenceTests.SecondWeights | Tests/color_map_tests.js:55-56 | the t >= 1 polynomials are the blending weights of M3 at t - 1 |
| ReferenceTests.DiscretizeYValue | Tests/color_map_tests.js:67-76 | the loop computes the y values of evaluate at 0, deltax, 2 deltax, ..., or its first error |
| ReferenceTests.RefYFailurePersists | Tests/color_map_tests.js:67-76 | an error of evaluate ends the sampling |
| ReferenceTests.RefYUpToShape | Tests/color_map_tests.js:67-76 | for 3 or 4 points: n values, value j being the y of evaluate at j (len - 2) / n; any other number of points fails with InvalidArgument |
| ReferenceTests.RefYValuesMatchBSpline | Tests/color_map_tests.js:67-76 | with 4 points the values are the y of the engine's curve at the same parameters |
| ReferenceTests.AbscissaLinear | Tests/color_map_tests.js:157-162 | 1 / n added i times to 0 is i / n |
| ReferenceTests.LinearUpTo | Tests/color_map_tests.js:159-162 | the loop has pushed i values after i rounds |
| ReferenceTests.LinearUpToAt | Tests/color_map_tests.js:159-162 | value j is a (j / n) + b |
| ReferenceTests.DiscretizeLinear | Tests/color_map_tests.js:152-165 | fails unless b in [0, 1] and a in [-b, 1 - b]; otherwise the n values a x + b |
| ReferenceTests.LineInUnit | Tests/color_map_tests.js:153-154 | accepted a and b keep a x + b in [0, 1] for x in [0, 1] |
| ReferenceTests.LinearValuesInUnit | Tests/color_map_tests.js:152-165 | accepted parameters give n values, all in [0, 1] |
| ReferenceTests.GreyUpTo | Tests/color_map_tests.js:313-315 | value j is j / (size - 1) * 100 |
| ReferenceTests.CreateBlackToWhiteReference | Tests/color_map_tests.js:311-317 | the loop computes the size values j / (size - 1) * 100; none for a negative size |
| ReferenceTests.GreyRamp | Tests/color_map_tests.js:311-317 | the ramp starts at 0, ends at 100 and strictly increases |

## Left out

- Floating point. Numbers are exact reals. The `getX() != 1` corrections in
  both discretisers are modelled literally, but the rounding drift that
  motivates them is not. In exact arithmetic the loops take exactly N samples.
- DeCasteljau.BezierCurveDiscretizeN: requires N > 0. For N = 0 the source
  divides by zero and relies on the IEEE value Infinity.
- BSplines.DiscretizeOpenQuadraticBSpline: requires N > 0, for the same
  reason.
- ColorMaps.ColorMap.Create: requires a size other than 1. A map of one
  colour computes 0 / 0, which is NaN, and NaN is not a real. The same holds
  for `ColorMaps.Normalize`, `ColorMaps.ColorMap.Update`,
  `ColorMaps.ColorMap.UpdateSize` and
  `ReferenceTests.CreateBlackToWhiteReference`.
- ColorMaps.ColorMap.Create: a negative size makes `new Array` throw a
  RangeError in JavaScript. This is modelled as `Failure(RangeError)`.
  A size that is not an integer is not modelled, since sizes are `int`.
- ChannelControllers.ChannelController.CheckIfClickedOnACheckpoint: requires
  canvas dimensions greater than 0. With a zero dimension the source divides
  by zero.
- Dynamic type checks are not modelled. Typed parameters make them moot:
  - the `instanceof` checks;
  - the precedence-broken `!x instanceof C` tests, which never fire;
  - the non-array-row handling of the `Matrix` constructor.
- The `Channel` class is not part of this model. `Channels.Channel` stands in
  for it. A channel holds its list of checkpoints and an intensity function
  `profile`, which `evaluateX` applies. How that function follows from the
  checkpoints is left open.
- ChannelView.js otherwise and ColorMapView.js: canvas drawing. The view is
  reduced to the canvas size and the checkpoint width.
- Main.js and ColorMapController.js: DOM events and wiring.
- The rest of `ChannelController.js`: delegation to the view and the channel.
- The `Test` class, apart from `discretizeLinear` and
  `createBlackToWhiteReference`: DOM, canvas and PNG export.
- Tests/compareImg.py: image comparison by file I/O and numeric libraries.
- Plain field reads are modelled as functions without contracts:
  - `getSize` and `getColors` of `ColorMap`;
  - the getters of `Point` and `RGBColor`;
  - `Matrices.Matrix.GetElement` (`getElement`);
  - `ChannelControllers.ChannelController.GetCheckpoints` (`getCheckpoints`);
  - `Channels.ChannelView.GetCheckpointWidth` (`getCheckpointWidth`).
- Matrices.Matrix.GetElement: requires indices inside the matrix. The source
  gives `undefined` for a column outside its row and throws a TypeError for a
  row outside the matrix. The engine never reads outside a matrix.
- Aliasing of control points. At DeCasteljau.js:90 the discretisation starts
  with the first control point object itself, and at DeCasteljau.js:67
  `pointBezierT` of one point returns that same object. The model returns `Pt`
  values, so it does not capture that a later `setX` or `setY` on that
  checkpoint also moves the first curve point.
- BSplines.DetermineCurveIndex: for padded, sorted knot vectors the index is
  characterised by lemmas. On other vectors the model follows the source's
  reads of `undefined`, which compare false, without further properties.
