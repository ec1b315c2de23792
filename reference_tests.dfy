/** Tests/color_map_tests.js: the hand-written degree-2 B-spline of the tests
    (`BSplineDegree2Test`), with closed-form blends for three and four control
    points, and the two test-data generators `discretizeLinear` and
    `createBlackToWhiteReference`. */
module ReferenceTests {
  import opened Wrappers
  import opened Points
  import DeCasteljau
  import BSplines
  import ColorMaps

  /* ------------------------------------------------- curve index, k = 2 */

  /** `BSplineDegree2Test.determineCurveIndex`: the same three-way test and
      interior scan as the engine, for degree 2. */
  method TestDetermineCurveIndex(knots: seq<int>, t: real) returns (r: Result<int>)
    ensures r == BSplines.CurveIndex(knots, t, 2)
  {
    var k := 2;
    var L := |knots|;
    if BSplines.AtMost(BSplines.At(knots, 0), t) && BSplines.Below(t, BSplines.At(knots, k + 1)) {
      return Success(0);
    } else if BSplines.AtMost(BSplines.At(knots, k + 1), t) && BSplines.Below(t, BSplines.At(knots, L - k - 2)) {
      var i: nat := 1;
      while BSplines.AtMost(BSplines.At(knots, k + 1 + i), t)
        invariant BSplines.Scan(knots, t, k, i) == BSplines.Scan(knots, t, k, 1)
        decreases L - i
      {
        i := i + 1;
      }
      return Success(i);
    } else if BSplines.AtMost(BSplines.At(knots, L - k - 2), t) && BSplines.Within(t, BSplines.At(knots, L - 1)) {
      return Success(L - 2 * k - 2);
    }
    return Failure(RangeError);
  }

  /* ------------------------------------------------------ reference blend */

  /** The quadratic Bernstein blend of three points. */
  function ThreePoint(c: seq<Pt>, t: real): Pt
    requires |c| == 3
  {
    Pt((1.0 - t) * (1.0 - t) * c[0].x + (2.0 * (1.0 - t) * t) * c[1].x + (t * t) * c[2].x,
       (1.0 - t) * (1.0 - t) * c[0].y + (2.0 * (1.0 - t) * t) * c[1].y + (t * t) * c[2].y)
  }

  /** One coordinate of the first piece of the four-point curve. */
  function FirstBlend(p: real, q: real, r: real, t: real): real
  {
    (1.0 - t) * (1.0 - t) * p + ((t - t * t) + (2.0 * t - t * t) / 2.0) * q + (t * t / 2.0) * r
  }

  /** The first piece of the four-point curve, used for t < 1. */
  function FirstPiece(c: seq<Pt>, t: real): Pt
    requires |c| == 4
  {
    Pt(FirstBlend(c[0].x, c[1].x, c[2].x, t), FirstBlend(c[0].y, c[1].y, c[2].y, t))
  }

  /** One coordinate of the second piece of the four-point curve. */
  function SecondBlend(p: real, q: real, r: real, t: real): real
  {
    (2.0 - t) * (2.0 - t) / 2.0 * p + ((2.0 * t - t * t) / 2.0 + (2.0 - t) * (t - 1.0)) * q
      + (t - 1.0) * (t - 1.0) * r
  }

  /** The second piece of the four-point curve, used for t >= 1. */
  function SecondPiece(c: seq<Pt>, t: real): Pt
    requires |c| == 4
  {
    Pt(SecondBlend(c[1].x, c[2].x, c[3].x, t), SecondBlend(c[1].y, c[2].y, c[3].y, t))
  }

  /** `BSplineDegree2Test.evaluate`: only three or four control points; three
      need t in [0, 1], four take any t, split at 1. */
  function RefEvaluate(cpoints: seq<Pt>, t: real): (r: Result<Pt>)
    ensures r.Success? <==> |cpoints| == 4 || (|cpoints| == 3 && 0.0 <= t <= 1.0)
    ensures (|cpoints| < 3 || |cpoints| > 4) ==> r == Failure(InvalidArgument)
    ensures |cpoints| == 3 && r.Failure? ==> r == Failure(RangeError)
  {
    if |cpoints| < 3 || |cpoints| > 4 then Failure(InvalidArgument)
    else if |cpoints| == 3 then
      if t < 0.0 || t > 1.0 then Failure(RangeError) else Success(ThreePoint(cpoints, t))
    else if t < 1.0 then Success(FirstPiece(cpoints, t))
    else Success(SecondPiece(cpoints, t))
  }

  /** The three-point reference is the Bezier curve of De Casteljau's algorithm,
      not the engine's three-point B-spline. */
  lemma RefThreeIsBezier(cpoints: seq<Pt>, t: real)
    requires |cpoints| == 3 && 0.0 <= t <= 1.0
    ensures RefEvaluate(cpoints, t) == Success(DeCasteljau.Bezier(cpoints, t))
  {
    DeCasteljau.BezierQuadratic(cpoints, t);
  }

  /** The two pieces meet at t = 1, half way between the middle control points. */
  lemma PiecesJoin(c: seq<Pt>)
    requires |c| == 4
    ensures FirstPiece(c, 1.0) == SecondPiece(c, 1.0)
    ensures FirstPiece(c, 1.0) == Pt((c[1].x + c[2].x) / 2.0, (c[1].y + c[2].y) / 2.0)
  {
  }

  /** With four control points the reference is the engine's B-spline on the
      whole of [0, 2]: its first piece is segment 0 under M1, its second piece
      segment 1 under M3. */
  lemma RefFourIsBSpline(cpoints: seq<Pt>, t: real)
    requires |cpoints| == 4 && 0.0 <= t <= 2.0
    ensures RefEvaluate(cpoints, t) == BSplines.BSplinePoint(cpoints, t)
  {
    BSplines.EvaluateInRange(cpoints, t);
    if t < 1.0 {
      assert BSplines.Min(t.Floor, 1) == 0;
      FirstPieceIsSegment(cpoints, t);
    } else {
      assert BSplines.Min(t.Floor, 1) == 1;
      SecondPieceIsSegment(cpoints, t);
    }
  }

  /** The first piece is segment 0 of the engine, under M1. */
  lemma FirstPieceIsSegment(c: seq<Pt>, t: real)
    requires |c| == 4
    ensures FirstPiece(c, t) == BSplines.SegmentPoint(c, 0, t)
  {
    FirstCoordinate(c[0].x, c[1].x, c[2].x, t);
    FirstCoordinate(c[0].y, c[1].y, c[2].y, t);
  }

  /** One coordinate of `FirstPieceIsSegment`. */
  lemma FirstCoordinate(p: real, q: real, r: real, t: real)
    ensures var w := BSplines.Weights(0, 4, t);
      FirstBlend(p, q, r, t) == w.0 * p + w.1 * q + w.2 * r
  {
    FirstWeights(t);
  }

  lemma FirstWeights(t: real)
    ensures BSplines.Weights(0, 4, t) ==
      ((1.0 - t) * (1.0 - t), (t - t * t) + (2.0 * t - t * t) / 2.0, t * t / 2.0)
  {
  }

  /** The second piece is segment 1 of the engine, under M3, at t - 1. */
  lemma SecondPieceIsSegment(c: seq<Pt>, t: real)
    requires |c| == 4
    ensures SecondPiece(c, t) == BSplines.SegmentPoint(c, 1, t - 1.0)
  {
    SecondCoordinate(c[1].x, c[2].x, c[3].x, t);
    SecondCoordinate(c[1].y, c[2].y, c[3].y, t);
  }

  /** One coordinate of `SecondPieceIsSegment`. */
  lemma SecondCoordinate(p: real, q: real, r: real, t: real)
    ensures var w := BSplines.Weights(1, 4, t - 1.0);
      SecondBlend(p, q, r, t) == w.0 * p + w.1 * q + w.2 * r
  {
    SecondWeights(t);
  }

  lemma SecondWeights(t: real)
    ensures BSplines.Weights(1, 4, t - 1.0) ==
      ((2.0 - t) * (2.0 - t) / 2.0, (2.0 * t - t * t) / 2.0 + (2.0 - t) * (t - 1.0), (t - 1.0) * (t - 1.0))
  {
  }

  /* ------------------------------------------------- discretised y values */

  /** The y values of the first i samples, or the first error `evaluate` raises;
      sample j is taken at the j-th multiple of (1 / n) * (length - 2). */
  function RefYUpTo(cpoints: seq<Pt>, n: nat, i: nat): Result<seq<real>>
    requires 0 < n && i <= n
  {
    if i == 0 then Success([])
    else
      match RefYUpTo(cpoints, n, i - 1)
      case Failure(e) => Failure(e)
      case Success(ys) =>
        match RefEvaluate(cpoints, BSplines.BSplineParam(i - 1, n, |cpoints|))
        case Failure(e) => Failure(e)
        case Success(p) => Success(ys + [p.y])
  }

  /** What `discretizeYvalue` returns: no samples at all for n = 0. */
  function RefYValues(cpoints: seq<Pt>, n: nat): Result<seq<real>>
  {
    if n == 0 then Success([]) else RefYUpTo(cpoints, n, n)
  }

  /** `BSplineDegree2Test.discretizeYvalue`. */
  method DiscretizeYValue(cpoints: seq<Pt>, n: nat) returns (r: Result<seq<real>>)
    ensures r == RefYValues(cpoints, n)
  {
    var res: seq<real> := [];
    // The step is never used when n is 0.
    var deltax := if n == 0 then 0.0 else 1.0 / n as real * (|cpoints| - 2) as real;
    var t := 0.0;
    var i := 0;
    while i < n
      invariant 0 <= i <= n && |res| == i
      invariant n > 0 ==> deltax == BSplines.BSplineStep(n, |cpoints|)
      invariant n > 0 ==> t == BSplines.BSplineParam(i, n, |cpoints|)
      invariant n > 0 ==> RefYUpTo(cpoints, n, i) == Success(res)
    {
      var p := RefEvaluate(cpoints, t);
      if p.Failure? {
        assert RefYUpTo(cpoints, n, i + 1) == Failure(p.error);
        RefYFailurePersists(cpoints, n, i + 1, n);
        return Failure(p.error);
      }
      res := res + [p.value.y];
      t := t + deltax;
      i := i + 1;
    }
    return Success(res);
  }

  /** An error stops the sampling for good. */
  lemma {:induction false} RefYFailurePersists(cpoints: seq<Pt>, n: nat, i: nat, j: nat)
    requires 0 < n && i <= j <= n && RefYUpTo(cpoints, n, i).Failure?
    ensures RefYUpTo(cpoints, n, j) == RefYUpTo(cpoints, n, i)
    decreases j - i
  {
    if i < j {
      RefYFailurePersists(cpoints, n, i + 1, j);
    }
  }

  /** For three or four control points every sample exists: the result holds n
      values, the j-th the y of the reference curve at the j-th parameter. Any
      other number of points fails as soon as one sample is asked for. */
  lemma {:induction false} RefYUpToShape(cpoints: seq<Pt>, n: nat, i: nat)
    requires 0 < n && i <= n
    ensures 3 <= |cpoints| <= 4 ==>
      && RefYUpTo(cpoints, n, i).Success?
      && |RefYUpTo(cpoints, n, i).value| == i
      && forall j :: 0 <= j < i ==>
           RefEvaluate(cpoints, BSplines.BSplineParam(j, n, |cpoints|)).Success? &&
           RefYUpTo(cpoints, n, i).value[j] ==
             RefEvaluate(cpoints, BSplines.BSplineParam(j, n, |cpoints|)).value.y
    ensures (|cpoints| < 3 || |cpoints| > 4) && 0 < i ==> RefYUpTo(cpoints, n, i) == Failure(InvalidArgument)
  {
    if 0 < i {
      RefYUpToShape(cpoints, n, i - 1);
      if 3 <= |cpoints| <= 4 {
        BSplines.ParamBelow(i - 1, n, |cpoints|);
      }
    }
  }

  /** With four control points the reference y values are those of the engine's
      curve at the same parameters. */
  lemma RefYValuesMatchBSpline(cpoints: seq<Pt>, n: nat)
    requires |cpoints| == 4 && 0 < n
    ensures RefYValues(cpoints, n).Success?
    ensures |RefYValues(cpoints, n).value| == n
    ensures forall j :: 0 <= j < n ==>
      BSplines.BSplinePoint(cpoints, BSplines.BSplineParam(j, n, 4)).Success? &&
      RefYValues(cpoints, n).value[j] == BSplines.BSplinePoint(cpoints, BSplines.BSplineParam(j, n, 4)).value.y
  {
    RefYUpToShape(cpoints, n, n);
    forall j | 0 <= j < n
      ensures BSplines.BSplinePoint(cpoints, BSplines.BSplineParam(j, n, 4)).Success? &&
        RefYValues(cpoints, n).value[j] == BSplines.BSplinePoint(cpoints, BSplines.BSplineParam(j, n, 4)).value.y
    {
      BSplines.ParamBelow(j, n, 4);
      RefFourIsBSpline(cpoints, BSplines.BSplineParam(j, n, 4));
    }
  }

  /* ------------------------------------------------------- linear ramp */

  /** a, b as `discretizeLinear` accepts them: b in [0, 1] and a in [-b, 1 - b]. */
  predicate LinearAccepted(a: real, b: real)
  {
    0.0 <= b <= 1.0 && -b <= a <= 1.0 - b
  }

  /** The i-th abscissa: 1 / n added i times to 0, as the loop does. */
  function Abscissa(i: nat, n: nat): real
    requires 0 < n
  {
    if i == 0 then 0.0 else Abscissa(i - 1, n) + DeCasteljau.Step(n)
  }

  /** In exact arithmetic the i-th abscissa is i / n. */
  lemma {:induction false} AbscissaLinear(i: nat, n: nat)
    requires 0 < n
    ensures Abscissa(i, n) == DeCasteljau.SampleParam(i, n)
  {
    if i > 0 {
      AbscissaLinear(i - 1, n);
      DeCasteljau.NextParam(i - 1, n);
    }
  }

  /** The first i values a * x + b, x running through 0, 1/n, 2/n, ... */
  function LinearUpTo(a: real, b: real, n: nat, i: nat): (s: seq<real>)
    requires 0 < n && i <= n
    ensures |s| == i
  {
    if i == 0 then [] else LinearUpTo(a, b, n, i - 1) + [a * Abscissa(i - 1, n) + b]
  }

  /** The j-th value is the line at j / n. */
  lemma {:induction false} LinearUpToAt(a: real, b: real, n: nat, i: nat)
    requires 0 < n && i <= n
    ensures forall j :: 0 <= j < i ==> LinearUpTo(a, b, n, i)[j] == a * DeCasteljau.SampleParam(j, n) + b
  {
    if i > 0 {
      LinearUpToAt(a, b, n, i - 1);
      AbscissaLinear(i - 1, n);
    }
  }

  /** What `Test.discretizeLinear` returns. */
  function LinearValues(a: real, b: real, n: nat): Result<seq<real>>
  {
    if !LinearAccepted(a, b) then Failure(InvalidArgument)
    else if n == 0 then Success([])
    else Success(LinearUpTo(a, b, n, n))
  }

  /** `Test.discretizeLinear`. */
  method DiscretizeLinear(a: real, b: real, n: nat) returns (r: Result<seq<real>>)
    ensures r == LinearValues(a, b, n)
  {
    if b < 0.0 || b > 1.0 {
      return Failure(InvalidArgument);
    }
    if a < 0.0 - b || a > 1.0 - b {
      return Failure(InvalidArgument);
    }
    var res: seq<real> := [];
    // The step is never used when n is 0.
    var deltax := if n == 0 then 0.0 else 1.0 / n as real;
    var x := 0.0;
    var i := 0;
    while i < n
      invariant 0 <= i <= n && |res| == i
      invariant n > 0 ==> deltax == DeCasteljau.Step(n) && x == Abscissa(i, n)
      invariant n > 0 ==> res == LinearUpTo(a, b, n, i)
    {
      ghost var v := a * Abscissa(i, n) + b;
      assert v == a * x + b;
      assert LinearUpTo(a, b, n, i + 1) == LinearUpTo(a, b, n, i) + [v];
      res := res + [a * x + b];
      x := x + deltax;
      i := i + 1;
    }
    return Success(res);
  }

  /** a * x + b stays in [0, 1] for x in [0, 1] when a and b are accepted. */
  lemma LineInUnit(a: real, b: real, x: real)
    requires LinearAccepted(a, b) && 0.0 <= x <= 1.0
    ensures 0.0 <= a * x + b <= 1.0
  {
    var m := a * x;
    if a >= 0.0 {
      ProductBounds(a, x);
      assert 0.0 <= m <= a;
    } else {
      ProductBounds(-a, x);
      assert (-a) * x == -m;
      assert a <= m <= 0.0;
    }
  }

  lemma ProductBounds(p: real, x: real)
    requires 0.0 <= p && 0.0 <= x <= 1.0
    ensures 0.0 <= p * x <= p
  {
    assert p * (1.0 - x) >= 0.0;
  }

  /** Accepted parameters give n intensities, all in [0, 1]. */
  lemma LinearValuesInUnit(a: real, b: real, n: nat)
    requires LinearAccepted(a, b)
    ensures LinearValues(a, b, n).Success?
    ensures |LinearValues(a, b, n).value| == n
    ensures forall j :: 0 <= j < n ==> 0.0 <= LinearValues(a, b, n).value[j] <= 1.0
  {
    if n > 0 {
      LinearUpToAt(a, b, n, n);
      forall j | 0 <= j < n
        ensures 0.0 <= LinearValues(a, b, n).value[j] <= 1.0
      {
        DeCasteljau.UnitStep(n);
        DeCasteljau.StepBelow(j, n, DeCasteljau.Step(n), 1.0);
        LineInUnit(a, b, DeCasteljau.SampleParam(j, n));
      }
    }
  }

  /* ----------------------------------------------- black-to-white ramp */

  /** The first i values of the reference: (j / (size - 1)) * 100 for j < i. */
  function GreyUpTo(size: int, i: nat): (s: seq<real>)
    requires size != 1
    ensures |s| == i
    ensures forall j :: 0 <= j < i ==> s[j] == ColorMaps.Normalize(j, size) * 100.0
  {
    if i == 0 then [] else GreyUpTo(size, i - 1) + [ColorMaps.Normalize(i - 1, size) * 100.0]
  }

  /** `Test.createBlackToWhiteReference`: size values running from 0 to 100;
      none for a size below 1. (A size of 1 divides 0 by 0.) */
  method CreateBlackToWhiteReference(size: int) returns (imgData: seq<real>)
    requires size != 1
    ensures imgData == GreyUpTo(size, if size < 0 then 0 else size)
  {
    imgData := [];
    var i := 0;
    while i < size
      invariant 0 <= i && (i == 0 || i <= size)
      invariant imgData == GreyUpTo(size, i)
    {
      imgData := imgData + [(i as real / (size - 1) as real) * 100.0];
      i := i + 1;
    }
  }

  /** The reference ramp starts at 0, ends at 100 and strictly increases. */
  lemma GreyRamp(size: int)
    requires size >= 2
    ensures var s := GreyUpTo(size, size);
      && s[0] == 0.0 && s[size - 1] == 100.0
      && forall i, j :: 0 <= i < j < size ==> s[i] < s[j]
  {
    var s := GreyUpTo(size, size);
    ColorMaps.NormalizeEnds(size);
    forall i, j | 0 <= i < j < size
      ensures s[i] < s[j]
    {
      ColorMaps.NormalizeIncreasing(i, j, size);
    }
  }
}
