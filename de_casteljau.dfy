/** DeCasteljau.js: evaluation of a Bezier curve of any degree by repeated linear
    interpolation, and its discretisation into sample points. */
module DeCasteljau {
  import opened Wrappers
  import opened Points

  /** u * pa + v * pb, coordinate by coordinate. */
  function LinearCombination(pa: Pt, pb: Pt, u: real, v: real): (p: Pt)
    ensures p == Pt(u * pa.x + v * pb.x, u * pa.y + v * pb.y)
  {
    Pt(pa.x * u + pb.x * v, pa.y * u + pb.y * v)
  }

  /** Weighs pa by t and pb by 1 - t. */
  function LinearInterpolation(pa: Pt, pb: Pt, t: real): (p: Pt)
    ensures p == Pt(t * pa.x + (1.0 - t) * pb.x, t * pa.y + (1.0 - t) * pb.y)
  {
    LinearCombination(pa, pb, t, 1.0 - t)
  }

  /** One step of De Casteljau: a point between each pair of neighbours. The source
      passes 1 - t to LinearInterpolation, which swaps the weights again, so the
      i-th new point is (1 - t) * p[i] + t * p[i + 1]. */
  function Reduce(points: seq<Pt>, t: real): (r: seq<Pt>)
    ensures |r| == if |points| == 0 then 0 else |points| - 1
  {
    var n := if |points| == 0 then 0 else |points| - 1;
    seq(n, i requires 0 <= i < n => LinearInterpolation(points[i], points[i + 1], 1.0 - t))
  }

  /** The two weight swaps cancel: the i-th reduced point is (1 - t) p[i] + t p[i + 1]
      (see `Lerp`). */
  lemma ReduceAt(points: seq<Pt>, t: real, i: nat)
    requires i + 1 < |points|
    ensures Reduce(points, t)[i] == Lerp(points[i], points[i + 1], t)
  {
  }

  /** The point of the Bezier curve of `points` at t: reduce until one point is left. */
  function Bezier(points: seq<Pt>, t: real): Pt
    requires |points| > 0
    decreases |points|
  {
    if |points| == 1 then points[0] else Bezier(Reduce(points, t), t)
  }

  /** `DeCasteljau.reduction`. */
  method Reduction(points: seq<Pt>, t: real) returns (r: seq<Pt>)
    ensures r == Reduce(points, t)
  {
    ghost var spec := Reduce(points, t);
    var newPoints: seq<Pt> := [];
    var n := |points|;
    var i := 0;
    while i < n - 1
      invariant 0 <= i <= |spec|
      invariant newPoints == spec[..i]
    {
      newPoints := newPoints + [LinearInterpolation(points[i], points[i + 1], 1.0 - t)];
      i := i + 1;
    }
    return newPoints;
  }

  /** `DeCasteljau.pointBezierT`: after |points| - 1 reductions one point is left.
      On an empty list the source returns `undefined` (None here). */
  method PointBezierT(points: seq<Pt>, t: real) returns (r: Option<Pt>)
    ensures |points| == 0 ==> r == None
    ensures |points| > 0 ==> r == Some(Bezier(points, t))
    ensures |points| == 1 ==> r == Some(points[0])
  {
    var current := points;
    var n := |current|;
    while n > 1
      invariant n == |current|
      invariant |points| == 0 <==> n == 0
      invariant n > 0 ==> Bezier(current, t) == Bezier(points, t)
      decreases n
    {
      current := Reduction(current, t);
      n := |current|;
    }
    if n == 0 {
      return None;
    }
    return Some(current[0]);
  }

  /** `DeCasteljau.evaluate`: the y coordinate of the curve point; reading it from
      `undefined` (no control points) throws. */
  function Evaluate(points: seq<Pt>, t: real): (r: Result<real>)
    ensures r.Success? <==> |points| > 0
    ensures r.Success? ==> r.value == Bezier(points, t).y
    ensures r.Failure? ==> r.error == TypeError
  {
    if |points| == 0 then Failure(TypeError) else Success(Bezier(points, t).y)
  }

  /** The endpoint correction shared by both discretisers: append `end` unless the
      last sample already has x == 1. */
  function CloseCurve(samples: seq<Pt>, end: Pt): (r: seq<Pt>)
    requires |samples| > 0
    ensures r == samples || r == samples + [end]
    ensures r == samples + [end] <==> samples[|samples| - 1].x != 1.0
    ensures r[|r| - 1].x == 1.0 || r[|r| - 1] == end
  {
    if samples[|samples| - 1].x != 1.0 then samples + [end] else samples
  }

  /** The sample step 1 / N. */
  function Step(N: nat): real
    requires N > 0
  {
    1.0 / N as real
  }

  /** The i-th sample parameter, i * dt. */
  function SampleParam(i: int, N: nat): real
    requires N > 0
  {
    i as real * Step(N)
  }

  /** The first control point, then the curve at dt, 2 dt, ... below t = 1. */
  function BezierSamples(points: seq<Pt>, N: nat): (s: seq<Pt>)
    requires |points| > 0 && N > 0
  {
    seq(N, i => if i == 0 then points[0] else Bezier(points, SampleParam(i, N)))
  }

  /** What `bezierCurveDiscretizeN` returns. */
  function BezierDiscretization(points: seq<Pt>, N: nat): Result<seq<Pt>>
    requires N > 0
  {
    if |points| == 0 then Failure(TypeError)
    else Success(CloseCurve(BezierSamples(points, N), Bezier(points, 1.0)))
  }

  /** With step dt > 0 and N steps covering K, the i-th step lies below K iff i < N. */
  lemma StepBelow(i: nat, N: nat, dt: real, K: real)
    requires dt > 0.0 && N as real * dt == K
    ensures i as real * dt < K <==> i < N
  {
    if i < N {
      assert (N - i) as real * dt > 0.0;
    } else {
      assert (i - N) as real * dt >= 0.0;
    }
  }

  lemma NextParam(i: nat, N: nat)
    requires N > 0
    ensures SampleParam(i, N) + Step(N) == SampleParam(i + 1, N)
  {
  }

  lemma UnitStep(N: nat)
    requires N > 0
    ensures Step(N) > 0.0 && N as real * Step(N) == 1.0
  {
  }

  /** The i-th sample parameter lies below 1 exactly for the first N. */
  lemma ParamBelowOne(i: nat, N: nat)
    requires N > 0
    ensures SampleParam(i, N) < 1.0 <==> i < N
  {
    UnitStep(N);
    StepBelow(i, N, Step(N), 1.0);
  }

  /** `DeCasteljau.bezierCurveDiscretizeN`: t starts at dt and grows by dt while below 1. */
  method BezierCurveDiscretizeN(points: seq<Pt>, N: nat) returns (r: Result<seq<Pt>>)
    requires N > 0
    ensures r == BezierDiscretization(points, N)
  {
    if |points| == 0 {
      return Failure(TypeError);
    }
    var dt := Step(N);
    var t := dt;
    var curvePoints := [points[0]];
    ghost var samples := BezierSamples(points, N);
    ghost var i: nat := 1;
    ParamBelowOne(i, N);
    while t < 1.0
      invariant 1 <= i <= N
      invariant t == SampleParam(i, N)
      invariant t < 1.0 <==> i < N
      invariant curvePoints == samples[..i]
      decreases N - i
    {
      var p := PointBezierT(points, t);
      curvePoints := curvePoints + [p.value];
      NextParam(i, N);
      t := t + dt;
      i := i + 1;
      ParamBelowOne(i, N);
    }
    assert curvePoints == samples;
    if curvePoints[|curvePoints| - 1].x != 1.0 {
      var last := PointBezierT(points, 1.0);
      curvePoints := curvePoints + [last.value];
    }
    return Success(curvePoints);
  }

  /** The curve starts at the first control point. */
  lemma {:induction false} BezierAtZero(points: seq<Pt>)
    requires |points| > 0
    ensures Bezier(points, 0.0) == points[0]
    decreases |points|
  {
    if |points| > 1 {
      ReduceAt(points, 0.0, 0);
      BezierAtZero(Reduce(points, 0.0));
    }
  }

  /** The curve ends at the last control point. */
  lemma {:induction false} BezierAtOne(points: seq<Pt>)
    requires |points| > 0
    ensures Bezier(points, 1.0) == points[|points| - 1]
    decreases |points|
  {
    if |points| > 1 {
      var r := Reduce(points, 1.0);
      BezierAtOne(r);
      ReduceAt(points, 1.0, |points| - 2);
    }
  }

  /** (1 - t) * ((1 - t) a + t b) + t * ((1 - t) b + t c), expanded. */
  lemma QuadraticBlend(a: real, b: real, c: real, t: real)
    ensures (1.0 - t) * ((1.0 - t) * a + t * b) + t * ((1.0 - t) * b + t * c)
         == (1.0 - t) * (1.0 - t) * a + 2.0 * (1.0 - t) * t * b + t * t * c
  {
    var s := 1.0 - t;
    calc {
      s * (s * a + t * b) + t * (s * b + t * c);
      s * s * a + s * t * b + t * s * b + t * t * c;
      s * s * a + 2.0 * s * t * b + t * t * c;
    }
  }

  /** (1 - t) a + t b, the point De Casteljau puts between a and b. */
  function Lerp(a: Pt, b: Pt, t: real): Pt
  {
    Pt((1.0 - t) * a.x + t * b.x, (1.0 - t) * a.y + t * b.y)
  }

  /** Three control points take two rounds of reduction. */
  lemma BezierThree(points: seq<Pt>, t: real)
    requires |points| == 3
    ensures Bezier(points, t) ==
      Lerp(Lerp(points[0], points[1], t), Lerp(points[1], points[2], t), t)
  {
    var r1 := Reduce(points, t);
    ReduceAt(points, t, 0);
    ReduceAt(points, t, 1);
    assert |r1| == 2;
    assert r1 == [Lerp(points[0], points[1], t), Lerp(points[1], points[2], t)];
    ReduceAt(r1, t, 0);
    assert Bezier(points, t) == Bezier(r1, t) == Reduce(r1, t)[0];
  }

  /** For three control points De Casteljau gives the quadratic Bernstein blend. */
  lemma BezierQuadratic(points: seq<Pt>, t: real)
    requires |points| == 3
    ensures Bezier(points, t) ==
      Pt((1.0 - t) * (1.0 - t) * points[0].x + 2.0 * (1.0 - t) * t * points[1].x + t * t * points[2].x,
         (1.0 - t) * (1.0 - t) * points[0].y + 2.0 * (1.0 - t) * t * points[1].y + t * t * points[2].y)
  {
    var a, b, c := points[0], points[1], points[2];
    var z := Bezier(points, t);
    var l, m := Lerp(a, b, t), Lerp(b, c, t);
    BezierThree(points, t);
    assert z == Lerp(l, m, t);
    assert z.x == (1.0 - t) * ((1.0 - t) * a.x + t * b.x) + t * ((1.0 - t) * b.x + t * c.x);
    assert z.y == (1.0 - t) * ((1.0 - t) * a.y + t * b.y) + t * ((1.0 - t) * b.y + t * c.y);
    QuadraticBlend(a.x, b.x, c.x, t);
    QuadraticBlend(a.y, b.y, c.y, t);
  }

  /** The curve of (0,0), (0.5,1), (1,0) passes through (0.5, 0.5) at t = 0.5. */
  lemma BezierExample(ps: seq<Pt>)
    requires |ps| == 3 && ps[0] == Pt(0.0, 0.0) && ps[1] == Pt(0.5, 1.0) && ps[2] == Pt(1.0, 0.0)
    ensures Bezier(ps, 0.5) == Pt(0.5, 0.5)
  {
    BezierQuadratic(ps, 0.5);
  }

  /** The discretisation starts at the first control point, samples the curve
      uniformly at i / N, has N + 1 points exactly when sample N - 1 has
      x != 1 (N points otherwise), and ends either at a point with
      x == 1 or at the last control point. */
  lemma BezierDiscretizationShape(points: seq<Pt>, N: nat)
    requires |points| > 0 && N > 0
    ensures BezierDiscretization(points, N).Success?
    ensures var s := BezierDiscretization(points, N).value;
      && (|s| == N || |s| == N + 1)
      && s[0] == points[0]
      && (forall i :: 0 <= i < N ==> s[i] == Bezier(points, SampleParam(i, N)))
      && (|s| == N + 1 <==> s[N - 1].x != 1.0)
      && (|s| == N + 1 ==> s[N] == points[|points| - 1])
      && (s[|s| - 1].x == 1.0 || s[|s| - 1] == points[|points| - 1])
  {
    var samples := BezierSamples(points, N);
    var s := CloseCurve(samples, Bezier(points, 1.0));
    assert s[..N] == samples;
    BezierAtOne(points);
    forall i | 0 <= i < N
      ensures s[i] == Bezier(points, SampleParam(i, N))
    {
      assert s[i] == samples[i];
      if i == 0 {
        assert SampleParam(i, N) == 0.0;
        BezierAtZero(points);
      }
    }
  }
}
