/** BSplines.js, class BSplines: the open uniform quadratic B-spline. Its knot
    vector, the choice of the curve segment a parameter falls in, the evaluation
    through one of three constant basis matrices, and the discretisation. */
module BSplines {
  import opened Wrappers
  import opened Matrices
  import opened Points
  import DeCasteljau

  function Min(a: int, b: int): int { if a <= b then a else b }
  function Max(a: int, b: int): int { if a >= b then a else b }

  /* ---------------------------------------------------------------- knots */

  /** The open knot vector of degree k for n control points, in closed form:
      k + 1 zeros, then 1, 2, ..., n - k - 1, then k + 1 copies of n - k. */
  function KnotVector(k: nat, n: nat): seq<int>
    requires k <= n
  {
    seq(k + n + 1, i => Min(Max(i - k, 0), n - k))
  }

  predicate NonDecreasing(s: seq<int>)
  {
    forall i, j :: 0 <= i <= j < |s| ==> s[i] <= s[j]
  }

  /** `knotVectorOpenBSpline`: three loops sharing the counter i and the value j. */
  method KnotVectorOpenBSpline(k: nat, n: nat) returns (r: Result<seq<int>>)
    ensures r.Success? <==> k <= n
    ensures r.Failure? ==> r.error == InvalidArgument
    ensures r.Success? ==> r.value == KnotVector(k, n)
  {
    if k > n {
      return Failure(InvalidArgument);
    }
    ghost var K := KnotVector(k, n);
    var m := k + n + 1;
    var knotVec: seq<int> := [];
    var i := 0;
    var j := 0;
    while i <= k
      invariant 0 <= i <= k + 1 && j == 0
      invariant knotVec == K[..i]
    {
      knotVec := knotVec + [j];
      i := i + 1;
    }
    while i < m - k
      invariant k + 1 <= i <= m - k
      invariant j == i - k - 1
      invariant knotVec == K[..i]
    {
      j := j + 1;
      assert K[i] == Min(Max(i - k, 0), n - k) == j;
      assert K[..i + 1] == K[..i] + [j];
      knotVec := knotVec + [j];
      i := i + 1;
    }
    while i < m
      invariant m - k <= i <= m
      invariant j == n - k
      invariant knotVec == K[..i]
    {
      assert K[i] == Min(Max(i - k, 0), n - k) == j;
      assert K[..i + 1] == K[..i] + [j];
      knotVec := knotVec + [j];
      i := i + 1;
    }
    return Success(knotVec);
  }

  /** The knot vector has k + n + 1 entries: k + 1 zeros, then the steps 1, 2, ...,
      and k + 1 copies of n - k at the end; it never decreases. */
  lemma KnotVectorShape(k: nat, n: nat)
    requires k <= n
    ensures var K := KnotVector(k, n);
      && |K| == k + n + 1
      && (forall i :: 0 <= i <= k ==> K[i] == 0)
      && (forall i :: k < i <= n ==> K[i] == i - k && K[i] == K[i - 1] + 1)
      && (forall i :: n <= i < k + n + 1 ==> K[i] == n - k)
      && NonDecreasing(K)
  {
    var K := KnotVector(k, n);
    forall i | 0 <= i < |K|
      ensures K[i] == Min(Max(i - k, 0), n - k)
    {
    }
    forall i, j | 0 <= i <= j < |K|
      ensures K[i] <= K[j]
    {
      assert K[i] == Min(Max(i - k, 0), n - k);
      assert K[j] == Min(Max(j - k, 0), n - k);
    }
  }

  /** The knot vectors of a quadratic curve with 4 and 5 control points. */
  lemma KnotVectorExamples()
    ensures KnotVector(2, 4) == [0, 0, 0, 1, 2, 2, 2]
    ensures KnotVector(2, 5) == [0, 0, 0, 1, 2, 3, 3, 3]
  {
  }

  /* --------------------------------------------------------- curve index */

  /** `knots[i]` as the source reads it: undefined outside the array. */
  function At(knots: seq<int>, i: int): Option<int>
  {
    if 0 <= i < |knots| then Some(knots[i]) else None
  }

  /** `a <= t`; a comparison with undefined is false. */
  predicate AtMost(a: Option<int>, t: real)
  {
    a.Some? && a.value as real <= t
  }

  /** `t < a`; false when a is undefined. */
  predicate Below(t: real, a: Option<int>)
  {
    a.Some? && t < a.value as real
  }

  /** `t <= a`; false when a is undefined. */
  predicate Within(t: real, a: Option<int>)
  {
    a.Some? && t <= a.value as real
  }

  /** The interior scan: the first i' >= i with t < knots[k + 1 + i'] (or one past
      the end of the array). */
  function Scan(knots: seq<int>, t: real, k: nat, i: nat): nat
    decreases |knots| - i
  {
    if AtMost(At(knots, k + 1 + i), t) then Scan(knots, t, k, i + 1) else i
  }

  /** The segment t falls in: 0 for the first, the scan result inside, the one
      before the last two for the last, an error outside [knots[0], knots[last]]. */
  function CurveIndex(knots: seq<int>, t: real, k: nat): Result<int>
  {
    var L := |knots|;
    if AtMost(At(knots, 0), t) && Below(t, At(knots, k + 1)) then Success(0)
    else if AtMost(At(knots, k + 1), t) && Below(t, At(knots, L - k - 2)) then
      Success(Scan(knots, t, k, 1))
    else if AtMost(At(knots, L - k - 2), t) && Within(t, At(knots, L - 1)) then
      Success(L - 2 * k - 2)
    else Failure(RangeError)
  }

  /** `determineCurveIndex`. */
  method DetermineCurveIndex(knots: seq<int>, t: real, k: nat) returns (r: Result<int>)
    ensures r == CurveIndex(knots, t, k)
  {
    var L := |knots|;
    if AtMost(At(knots, 0), t) && Below(t, At(knots, k + 1)) {
      return Success(0);
    } else if AtMost(At(knots, k + 1), t) && Below(t, At(knots, L - k - 2)) {
      var i: nat := 1;
      while AtMost(At(knots, k + 1 + i), t)
        invariant Scan(knots, t, k, i) == Scan(knots, t, k, 1)
        decreases L - i
      {
        i := i + 1;
      }
      return Success(i);
    } else if AtMost(At(knots, L - k - 2), t) && Within(t, At(knots, L - 1)) {
      return Success(L - 2 * k - 2);
    }
    return Failure(RangeError);
  }

  /** Scanning on from a knot at or below t, inside the middle range of a sorted
      vector, stops on the knot interval that holds t, without leaving that range. */
  lemma {:induction false} ScanBrackets(knots: seq<int>, t: real, k: nat, i: nat)
    requires NonDecreasing(knots)
    requires 1 <= i && k + i < |knots| && knots[k + i] as real <= t
    requires k + 2 <= |knots| && t < knots[|knots| - k - 2] as real
    ensures var s := Scan(knots, t, k, i);
      && i <= s && k + 1 + s <= |knots| - k - 2
      && knots[k + s] as real <= t < knots[k + 1 + s] as real
    decreases |knots| - i
  {
    var L := |knots|;
    assert k + 1 + i <= L - k - 2;
    if AtMost(At(knots, k + 1 + i), t) {
      ScanBrackets(knots, t, k, i + 1);
    }
  }

  /** On a sorted vector with room for the first and last segments, the index is
      defined exactly for t in [knots[0], knots[last]], and it lies on a knot
      interval that holds t. */
  lemma CurveIndexDefined(knots: seq<int>, t: real, k: nat)
    requires NonDecreasing(knots) && |knots| >= k + 2
    ensures CurveIndex(knots, t, k).Success? <==>
      knots[0] as real <= t <= knots[|knots| - 1] as real
  {
    var L := |knots|;
    if knots[0] as real <= t <= knots[L - 1] as real {
      assert knots[L - k - 2] <= knots[k + 1] || L - k - 2 > k + 1;
    }
  }

  /** The middle branch of the index returns a segment strictly inside the
      vector: the scan never reads past its end. */
  lemma CurveIndexMiddle(knots: seq<int>, t: real, k: nat)
    requires NonDecreasing(knots) && |knots| >= k + 2
    requires knots[k + 1] as real <= t < knots[|knots| - k - 2] as real
    ensures var s := Scan(knots, t, k, 1);
      && CurveIndex(knots, t, k) == Success(s)
      && 1 <= s && k + 1 + s <= |knots| - k - 2
      && knots[k + s] as real <= t < knots[k + 1 + s] as real
  {
    ScanBrackets(knots, t, k, 1);
  }

  /** The segment the source's quadratic open vector assigns to t: min(floor t, n - 3). */
  lemma {:induction false} ScanOpen(n: nat, t: real, j: nat)
    requires n >= 3 && 1 <= j <= t.Floor && t < (n - 3) as real
    ensures Scan(KnotVector(2, n), t, 2, j) == t.Floor
    decreases t.Floor - j
  {
    var K := KnotVector(2, n);
    assert K[3 + j] == Min(Max(1 + j, 0), n - 2) == 1 + j;
    if j < t.Floor {
      ScanOpen(n, t, j + 1);
    }
  }

  /** For the quadratic open vector of n >= 3 control points the index is
      min(floor t, n - 3) on [0, n - 2] and an error outside it. */
  lemma CurveIndexOpen(n: nat, t: real)
    requires n >= 3
    ensures CurveIndex(KnotVector(2, n), t, 2) ==
      if 0.0 <= t <= (n - 2) as real then Success(Min(t.Floor, n - 3)) else Failure(RangeError)
  {
    var K := KnotVector(2, n);
    assert K[0] == Min(Max(-2, 0), n - 2) == 0;
    assert K[3] == Min(Max(1, 0), n - 2) == 1;
    assert K[n - 1] == Min(Max(n - 3, 0), n - 2) == n - 3;
    assert K[n + 2] == Min(Max(n, 0), n - 2) == n - 2;
    if 1.0 <= t < (n - 3) as real {
      ScanOpen(n, t, 1);
    }
  }

  /* ---------------------------------------------------------- evaluation */

  /** Basis matrix of the first segment, 1/2 * [[2, -4, 2], [-3, 4, 0], [1, 0, 0]]. */
  const M1: Matrix := Matrix([[1.0, -2.0, 1.0], [-1.5, 2.0, 0.0], [0.5, 0.0, 0.0]])
  /** Basis matrix of the segments in between, 1/2 * [[1, -2, 1], [-2, 2, 1], [1, 0, 0]]. */
  const M2: Matrix := Matrix([[0.5, -1.0, 0.5], [-1.0, 1.0, 0.5], [0.5, 0.0, 0.0]])
  /** Basis matrix of the last segment, 1/2 * [[1, -2, 1], [-3, 2, 1], [2, 0, 0]]. */
  const M3: Matrix := Matrix([[0.5, -1.0, 0.5], [-1.5, 1.0, 0.5], [1.0, 0.0, 0.0]])

  predicate Square3(M: Matrix)
  {
    M.Valid() && M.Rows() == 3 && M.Cols() == 3
  }

  /** The three constants are the source's integer matrices scaled by 1/2. */
  lemma BasisMatricesHalved()
    ensures M1 == Scale(0.5, Matrix([[2.0, -4.0, 2.0], [-3.0, 4.0, 0.0], [1.0, 0.0, 0.0]]))
    ensures M2 == Scale(0.5, Matrix([[1.0, -2.0, 1.0], [-2.0, 2.0, 1.0], [1.0, 0.0, 0.0]]))
    ensures M3 == Scale(0.5, Matrix([[1.0, -2.0, 1.0], [-3.0, 2.0, 1.0], [2.0, 0.0, 0.0]]))
  {
    var S1 := Scale(0.5, Matrix([[2.0, -4.0, 2.0], [-3.0, 4.0, 0.0], [1.0, 0.0, 0.0]]));
    var S2 := Scale(0.5, Matrix([[1.0, -2.0, 1.0], [-2.0, 2.0, 1.0], [1.0, 0.0, 0.0]]));
    var S3 := Scale(0.5, Matrix([[1.0, -2.0, 1.0], [-3.0, 2.0, 1.0], [2.0, 0.0, 0.0]]));
    assert S1.items[0] == M1.items[0] && S1.items[1] == M1.items[1] && S1.items[2] == M1.items[2];
    assert S2.items[0] == M2.items[0] && S2.items[1] == M2.items[1] && S2.items[2] == M2.items[2];
    assert S3.items[0] == M3.items[0] && S3.items[1] == M3.items[1] && S3.items[2] == M3.items[2];
  }

  /** The matrix of segment idx out of n - 2: M1 for the first, M3 for the last,
      M2 otherwise (the first wins when there is only one segment). */
  function SegmentMatrix(idx: int, n: int): (M: Matrix)
    ensures Square3(M)
  {
    if idx == 0 then M1 else if idx == n - 3 then M3 else M2
  }

  /** The column [u^2, u, 1]. */
  function PowerColumn(u: real): Matrix
  {
    Matrix([[u * u], [u], [1.0]])
  }

  /** The row [a, b, c]. */
  function RowVector(a: real, b: real, c: real): Matrix
  {
    Matrix([[a, b, c]])
  }

  /** Row r of M applied to [u^2, u, 1]: the blending weight of the r-th
      control point of the window. */
  function Basis(M: Matrix, r: nat, u: real): real
    requires Square3(M) && r < 3
  {
    M.items[r][0] * (u * u) + M.items[r][1] * u + M.items[r][2]
  }

  /** p, q and r weighted by the three blending functions of M. */
  function Blend(M: Matrix, p: real, q: real, r: real, u: real): real
    requires Square3(M)
  {
    p * Basis(M, 0, u) + q * Basis(M, 1, u) + r * Basis(M, 2, u)
  }

  /** The window a, b, c under basis M at local parameter u, computed as the
      source does: [P.x] * (M * [u^2, u, 1]) and [P.y] * (M * [u^2, u, 1]). */
  function WindowPoint(a: Pt, b: Pt, c: Pt, M: Matrix, u: real): Pt
    requires Square3(M)
  {
    var tmp := Mul(M, PowerColumn(u));
    Pt(Mul(RowVector(a.x, b.x, c.x), tmp).GetElement(0, 0),
       Mul(RowVector(a.y, b.y, c.y), tmp).GetElement(0, 0))
  }

  /** The two products amount to a blend of the window by the rows of M. */
  lemma WindowBlend(a: Pt, b: Pt, c: Pt, M: Matrix, u: real)
    requires Square3(M)
    ensures WindowPoint(a, b, c, M, u) == Pt(Blend(M, a.x, b.x, c.x, u), Blend(M, a.y, b.y, c.y, u))
  {
    var T := PowerColumn(u);
    var tmp := Mul(M, T);
    Dot3(M, T, 0, 0);
    Dot3(M, T, 1, 0);
    Dot3(M, T, 2, 0);
    Dot3(RowVector(a.x, b.x, c.x), tmp, 0, 0);
    Dot3(RowVector(a.y, b.y, c.y), tmp, 0, 0);
  }

  /** The three blending functions of segment idx out of n - 2, written out as
      polynomials in u: the first segment pulls the curve onto P0, the last one
      onto its last control point, the ones in between are the uniform weights
      (1 - u)^2 / 2, 1/2 + u - u^2 and u^2 / 2. */
  function Weights(idx: int, n: int, u: real): (real, real, real)
  {
    if idx == 0 then ((1.0 - u) * (1.0 - u), 2.0 * u - 1.5 * (u * u), 0.5 * (u * u))
    else if idx == n - 3 then (0.5 * ((1.0 - u) * (1.0 - u)), 0.5 + u - 1.5 * (u * u), u * u)
    else (0.5 * ((1.0 - u) * (1.0 - u)), 0.5 + u - u * u, 0.5 * (u * u))
  }

  /** The written-out weights are the rows of the segment's matrix applied to
      [u^2, u, 1]. */
  lemma WeightsAreRows(idx: int, n: int, u: real)
    ensures var M := SegmentMatrix(idx, n);
      var w := Weights(idx, n, u);
      Basis(M, 0, u) == w.0 && Basis(M, 1, u) == w.1 && Basis(M, 2, u) == w.2
  {
  }

  /** The point of segment idx at local parameter u: the window of three control
      points starting at idx, weighted by that segment's blending functions. */
  function SegmentPoint(cpoints: seq<Pt>, idx: nat, u: real): Pt
    requires idx + 3 <= |cpoints|
  {
    var w := Weights(idx, |cpoints|, u);
    var a, b, c := cpoints[idx], cpoints[idx + 1], cpoints[idx + 2];
    Pt(w.0 * a.x + w.1 * b.x + w.2 * c.x, w.0 * a.y + w.1 * b.y + w.2 * c.y)
  }

  /** A segment point is its window blended by the rows of the segment's matrix. */
  lemma SegmentIsWindowBlend(cpoints: seq<Pt>, idx: nat, u: real)
    requires idx + 3 <= |cpoints|
    ensures var M := SegmentMatrix(idx, |cpoints|);
      var a, b, c := cpoints[idx], cpoints[idx + 1], cpoints[idx + 2];
      SegmentPoint(cpoints, idx, u) == Pt(Blend(M, a.x, b.x, c.x, u), Blend(M, a.y, b.y, c.y, u))
  {
    var M := SegmentMatrix(idx, |cpoints|);
    var w := Weights(idx, |cpoints|, u);
    var a, b, c := cpoints[idx], cpoints[idx + 1], cpoints[idx + 2];
    WeightsAreRows(idx, |cpoints|, u);
    BlendOfWeights(M, a.x, b.x, c.x, u, w.0, w.1, w.2);
    BlendOfWeights(M, a.y, b.y, c.y, u, w.0, w.1, w.2);
  }

  /** Blending by M is weighting by the values of its rows. */
  lemma BlendOfWeights(M: Matrix, p: real, q: real, r: real, u: real, w0: real, w1: real, w2: real)
    requires Square3(M)
    requires Basis(M, 0, u) == w0 && Basis(M, 1, u) == w1 && Basis(M, 2, u) == w2
    ensures Blend(M, p, q, r, u) == w0 * p + w1 * q + w2 * r
  {
  }

  /** The source's evaluation of a window is the segment point. */
  lemma SegmentIsWindowPoint(cpoints: seq<Pt>, idx: nat, u: real)
    requires idx + 3 <= |cpoints|
    ensures SegmentPoint(cpoints, idx, u) ==
      WindowPoint(cpoints[idx], cpoints[idx + 1], cpoints[idx + 2], SegmentMatrix(idx, |cpoints|), u)
  {
    WindowBlend(cpoints[idx], cpoints[idx + 1], cpoints[idx + 2], SegmentMatrix(idx, |cpoints|), u);
    SegmentIsWindowBlend(cpoints, idx, u);
  }

  /** The open quadratic B-spline at t: an error for fewer than three control
      points or a t the curve index rejects, otherwise the point of the segment
      the index picks, at t minus that index. */
  function BSplinePoint(cpoints: seq<Pt>, t: real): (r: Result<Pt>)
    ensures r.Success? <==> |cpoints| >= 3 && 0.0 <= t <= (|cpoints| - 2) as real
    ensures |cpoints| < 3 ==> r == Failure(InvalidArgument)
    ensures |cpoints| >= 3 && r.Failure? ==> r == Failure(RangeError)
  {
    if |cpoints| < 3 then Failure(InvalidArgument)
    else
      var n := |cpoints|;
      CurveIndexOpen(n, t);
      match CurveIndex(KnotVector(2, n), t, 2)
      case Failure(e) => Failure(e)
      case Success(idx) => Success(SegmentPoint(cpoints, idx, t - idx as real))
  }

  /** `BSplinePoint` in terms of the curve index of the open knot vector. */
  lemma BSplinePointByIndex(cpoints: seq<Pt>, t: real)
    requires |cpoints| >= 3
    ensures var ci := CurveIndex(KnotVector(2, |cpoints|), t, 2);
      && (ci.Failure? ==> BSplinePoint(cpoints, t) == Failure(ci.error))
      && (ci.Success? ==> 0 <= ci.value <= |cpoints| - 3)
      && (ci.Success? ==>
            BSplinePoint(cpoints, t) == Success(SegmentPoint(cpoints, ci.value, t - ci.value as real)))
  {
    CurveIndexOpen(|cpoints|, t);
  }

  /** `evaluateOpenQuadraticBSpline`: the knot vector, the curve index, the
      window, the matrix and the products [P.x] * (M * T) and [P.y] * (M * T). */
  method EvaluateOpenQuadraticBSpline(cpoints: seq<Pt>, t: real) returns (r: Result<Pt>)
    ensures r == BSplinePoint(cpoints, t)
  {
    if |cpoints| < 3 {
      return Failure(InvalidArgument);
    }
    var k := 2;
    var kv := KnotVectorOpenBSpline(k, |cpoints|);
    var knots := kv.value;
    var ci := DetermineCurveIndex(knots, t, k);
    BSplinePointByIndex(cpoints, t);
    if ci.Failure? {
      return Failure(ci.error);
    }
    var curveIndex := ci.value;
    var p := SegmentProducts(cpoints, curveIndex, t - curveIndex as real);
    return Success(p);
  }

  /** The segment part of `evaluateOpenQuadraticBSpline`: the window of three
      control points from idx, the basis matrix of segment idx, and the
      products at u. */
  method SegmentProducts(cpoints: seq<Pt>, idx: nat, u: real) returns (p: Pt)
    requires idx + 3 <= |cpoints|
    ensures p == SegmentPoint(cpoints, idx, u)
  {
    var P := cpoints[idx..idx + 3];
    var M := SegmentMatrix(idx, |cpoints|);
    p := WindowProducts(P[0], P[1], P[2], M, u);
    SegmentIsWindowPoint(cpoints, idx, u);
  }

  /** The matrix part of `evaluateOpenQuadraticBSpline`: T = [u^2, u, 1],
      Px and Py the rows of the window's coordinates, and the point
      ([Px] * (M * T), [Py] * (M * T)). */
  method WindowProducts(a: Pt, b: Pt, c: Pt, M: Matrix, u: real) returns (p: Pt)
    requires Square3(M)
    ensures p == WindowPoint(a, b, c, M, u)
  {
    var T := NewMatrix([[u * u], [u], [1.0]]);
    var Px := NewMatrix([[a.x, b.x, c.x]]);
    var Py := NewMatrix([[a.y, b.y, c.y]]);
    assert T.value == PowerColumn(u);
    assert Px.value == RowVector(a.x, b.x, c.x);
    assert Py.value == RowVector(a.y, b.y, c.y);
    var tmp := Product(M, T.value);
    var px := Product(Px.value, tmp.value);
    var py := Product(Py.value, tmp.value);
    return Pt(px.value.GetElement(0, 0), py.value.GetElement(0, 0));
  }

  /** Inside [0, n - 2] the curve is segment min(floor t, n - 3) at t - idx. */
  lemma EvaluateInRange(cpoints: seq<Pt>, t: real)
    requires |cpoints| >= 3 && 0.0 <= t <= (|cpoints| - 2) as real
    ensures var idx := Min(t.Floor, |cpoints| - 3);
      && 0 <= idx <= |cpoints| - 3
      && BSplinePoint(cpoints, t) == Success(SegmentPoint(cpoints, idx, t - idx as real))
  {
    CurveIndexOpen(|cpoints|, t);
  }

  /** The blending weights as a polynomial: column sums times u^2, u and 1. */
  lemma BasisSum(M: Matrix, u: real)
    requires Square3(M)
    ensures Basis(M, 0, u) + Basis(M, 1, u) + Basis(M, 2, u) ==
      (M.items[0][0] + M.items[1][0] + M.items[2][0]) * (u * u) +
      (M.items[0][1] + M.items[1][1] + M.items[2][1]) * u +
      (M.items[0][2] + M.items[1][2] + M.items[2][2])
  {
  }

  /** The three blending weights of every basis matrix sum to 1: the column sums
      of M1, M2 and M3 are 0, 0 and 1. */
  lemma PartitionOfUnity(idx: int, n: int, u: real)
    ensures var M := SegmentMatrix(idx, n);
      Basis(M, 0, u) + Basis(M, 1, u) + Basis(M, 2, u) == 1.0
  {
    var M := SegmentMatrix(idx, n);
    BasisSum(M, u);
    assert M == M1 || M == M2 || M == M3;
  }

  /** At u = 0 the weights are the last column of M. */
  lemma BlendAtZero(M: Matrix, p: real, q: real, r: real)
    requires Square3(M)
    ensures Blend(M, p, q, r, 0.0) == p * M.items[0][2] + q * M.items[1][2] + r * M.items[2][2]
  {
  }

  /** At u = 1 the weights are the row sums of M. */
  lemma BlendAtOne(M: Matrix, p: real, q: real, r: real)
    requires Square3(M)
    ensures Blend(M, p, q, r, 1.0) ==
      p * (M.items[0][0] + M.items[0][1] + M.items[0][2]) +
      q * (M.items[1][0] + M.items[1][1] + M.items[1][2]) +
      r * (M.items[2][0] + M.items[2][1] + M.items[2][2])
  {
  }

  /** Weights summing to 1 keep a common value. */
  lemma BlendConstant(M: Matrix, c: real, u: real)
    requires Square3(M) && Basis(M, 0, u) + Basis(M, 1, u) + Basis(M, 2, u) == 1.0
    ensures Blend(M, c, c, c, u) == c
  {
    Distribute(c, Basis(M, 0, u), Basis(M, 1, u), Basis(M, 2, u));
  }

  lemma Distribute(c: real, b0: real, b1: real, b2: real)
    requires b0 + b1 + b2 == 1.0
    ensures c * b0 + c * b1 + c * b2 == c
  {
    assert c * b0 + c * b1 + c * b2 == c * (b0 + b1 + b2);
  }

  /** Control points at a common height give a curve at that height. */
  lemma ConstantHeight(cpoints: seq<Pt>, t: real, c: real)
    requires |cpoints| >= 3 && 0.0 <= t <= (|cpoints| - 2) as real
    requires forall i :: 0 <= i < |cpoints| ==> cpoints[i].y == c
    ensures BSplinePoint(cpoints, t).Success?
    ensures BSplinePoint(cpoints, t).value.y == c
  {
    EvaluateInRange(cpoints, t);
    var idx := Min(t.Floor, |cpoints| - 3);
    var u := t - idx as real;
    PartitionOfUnity(idx, |cpoints|, u);
    SegmentIsWindowBlend(cpoints, idx, u);
    BlendConstant(SegmentMatrix(idx, |cpoints|), c, u);
    assert cpoints[idx].y == c && cpoints[idx + 1].y == c && cpoints[idx + 2].y == c;
  }

  /** With at least four control points the curve starts at the first and ends
      at the last one. */
  lemma EndpointsInterpolated(cpoints: seq<Pt>)
    requires |cpoints| >= 4
    ensures BSplinePoint(cpoints, 0.0) == Success(cpoints[0])
    ensures BSplinePoint(cpoints, (|cpoints| - 2) as real) ==
      Success(cpoints[|cpoints| - 1])
  {
    var n := |cpoints|;
    var a, b, c := cpoints[0], cpoints[1], cpoints[2];
    EvaluateInRange(cpoints, 0.0);
    assert SegmentMatrix(0, n) == M1;
    SegmentIsWindowBlend(cpoints, 0, 0.0);
    BlendAtZero(M1, a.x, b.x, c.x);
    BlendAtZero(M1, a.y, b.y, c.y);
    var d, e, f := cpoints[n - 3], cpoints[n - 2], cpoints[n - 1];
    EvaluateInRange(cpoints, (n - 2) as real);
    assert Min(((n - 2) as real).Floor, n - 3) == n - 3;
    assert (n - 2) as real - (n - 3) as real == 1.0;
    assert SegmentMatrix(n - 3, n) == M3;
    SegmentIsWindowBlend(cpoints, n - 3, 1.0);
    BlendAtOne(M3, d.x, e.x, f.x);
    BlendAtOne(M3, d.y, e.y, f.y);
  }

  /** With exactly three control points M1 serves the whole of [0, 1]: the curve
      starts at the first point but ends half way between the last two. */
  lemma ThreePointEnds(cpoints: seq<Pt>)
    requires |cpoints| == 3
    ensures BSplinePoint(cpoints, 0.0) == Success(cpoints[0])
    ensures BSplinePoint(cpoints, 1.0) ==
      Success(Pt((cpoints[1].x + cpoints[2].x) / 2.0, (cpoints[1].y + cpoints[2].y) / 2.0))
  {
    var a, b, c := cpoints[0], cpoints[1], cpoints[2];
    assert SegmentMatrix(0, 3) == M1;
    SegmentIsWindowBlend(cpoints, 0, 0.0);
    SegmentIsWindowBlend(cpoints, 0, 1.0);
    EvaluateInRange(cpoints, 0.0);
    BlendAtZero(M1, a.x, b.x, c.x);
    BlendAtZero(M1, a.y, b.y, c.y);
    EvaluateInRange(cpoints, 1.0);
    assert Min((1.0).Floor, 0) == 0;
    BlendAtOne(M1, a.x, b.x, c.x);
    BlendAtOne(M1, a.y, b.y, c.y);
  }

  /** Every segment but the last ends half way between its last two points. */
  lemma SegmentEnd(cpoints: seq<Pt>, idx: nat)
    requires idx + 4 <= |cpoints|
    ensures SegmentPoint(cpoints, idx, 1.0) ==
      Pt((cpoints[idx + 1].x + cpoints[idx + 2].x) / 2.0, (cpoints[idx + 1].y + cpoints[idx + 2].y) / 2.0)
  {
    var M := SegmentMatrix(idx, |cpoints|);
    var a, b, c := cpoints[idx], cpoints[idx + 1], cpoints[idx + 2];
    if idx == 0 {
      assert M == M1;
    } else {
      assert M == M2;
    }
    SegmentIsWindowBlend(cpoints, idx, 1.0);
    BlendAtOne(M, a.x, b.x, c.x);
    BlendAtOne(M, a.y, b.y, c.y);
  }

  /** Every segment but the first starts half way between its first two points. */
  lemma SegmentStart(cpoints: seq<Pt>, idx: nat)
    requires 1 <= idx && idx + 3 <= |cpoints|
    ensures SegmentPoint(cpoints, idx, 0.0) ==
      Pt((cpoints[idx].x + cpoints[idx + 1].x) / 2.0, (cpoints[idx].y + cpoints[idx + 1].y) / 2.0)
  {
    var M := SegmentMatrix(idx, |cpoints|);
    var a, b, c := cpoints[idx], cpoints[idx + 1], cpoints[idx + 2];
    if idx == |cpoints| - 3 {
      assert M == M3;
    } else {
      assert M == M2;
    }
    SegmentIsWindowBlend(cpoints, idx, 0.0);
    BlendAtZero(M, a.x, b.x, c.x);
    BlendAtZero(M, a.y, b.y, c.y);
  }

  /** Neighbouring segments meet at the knot between them, half way between the
      two control points they share. */
  lemma SegmentsJoin(cpoints: seq<Pt>, j: nat)
    requires |cpoints| >= 4 && 1 <= j <= |cpoints| - 3
    ensures SegmentPoint(cpoints, j - 1, 1.0) == SegmentPoint(cpoints, j, 0.0)
  {
    SegmentEnd(cpoints, j - 1);
    SegmentStart(cpoints, j);
  }

  /** At an interior knot j the curve passes half way between P[j] and P[j + 1]. */
  lemma EvaluateAtKnot(cpoints: seq<Pt>, j: nat)
    requires |cpoints| >= 4 && 1 <= j <= |cpoints| - 3
    ensures BSplinePoint(cpoints, j as real) ==
      Success(Pt((cpoints[j].x + cpoints[j + 1].x) / 2.0, (cpoints[j].y + cpoints[j + 1].y) / 2.0))
  {
    CurveIndexOpen(|cpoints|, j as real);
    assert Min((j as real).Floor, |cpoints| - 3) == j;
    SegmentStart(cpoints, j);
  }

  /* ------------------------------------------------------ discretisation */

  /** dt = (1 / N) * knots[last]; the last knot of n control points is n - 2. */
  function BSplineStep(N: nat, n: int): real
    requires N > 0
  {
    DeCasteljau.Step(N) * (n - 2) as real
  }

  /** The i-th sample parameter: dt added i times to 0, as the loop does. */
  function BSplineParam(i: nat, N: nat, n: int): real
    requires N > 0
  {
    if i == 0 then 0.0 else BSplineParam(i - 1, N, n) + BSplineStep(N, n)
  }

  /** In exact arithmetic the i-th parameter is i * dt. */
  lemma {:induction false} BSplineParamLinear(i: nat, N: nat, n: int)
    requires N > 0
    ensures BSplineParam(i, N, n) == i as real * BSplineStep(N, n)
  {
    if i > 0 {
      BSplineParamLinear(i - 1, N, n);
    }
  }

  /** N steps of dt cover [0, n - 2] exactly. */
  lemma StepsCover(N: nat, n: int)
    requires N > 0 && n >= 3
    ensures BSplineStep(N, n) > 0.0
    ensures N as real * BSplineStep(N, n) == (n - 2) as real
  {
    DeCasteljau.UnitStep(N);
    ScaledStep(N as real, DeCasteljau.Step(N), (n - 2) as real);
  }

  lemma ScaledStep(N: real, s: real, L: real)
    requires s > 0.0 && L > 0.0 && N * s == 1.0
    ensures s * L > 0.0 && N * (s * L) == L
  {
    calc {
      N * (s * L);
      (N * s) * L;
      L;
    }
  }

  /** The i-th parameter is at least 0, and below the last knot n - 2 exactly
      when i < N. */
  lemma ParamBelow(i: nat, N: nat, n: int)
    requires N > 0 && n >= 3
    ensures 0.0 <= BSplineParam(i, N, n)
    ensures BSplineParam(i, N, n) < (n - 2) as real <==> i < N
  {
    StepsCover(N, n);
    BSplineParamLinear(i, N, n);
    DeCasteljau.StepBelow(i, N, BSplineStep(N, n), (n - 2) as real);
  }

  /** The curve at 0, dt, ..., (i - 1) dt, pushed one after the other. */
  function BSplineSamplesUpTo(cpoints: seq<Pt>, N: nat, i: nat): (s: seq<Pt>)
    requires |cpoints| >= 3 && i <= N
    ensures |s| == i
  {
    if i == 0 then []
    else
      ParamBelow(i - 1, N, |cpoints|);
      BSplineSamplesUpTo(cpoints, N, i - 1) +
        [BSplinePoint(cpoints, BSplineParam(i - 1, N, |cpoints|)).value]
  }

  /** The first i samples: the j-th is the curve at the j-th parameter. */
  lemma {:induction false} SamplesUpToAt(cpoints: seq<Pt>, N: nat, i: nat)
    requires |cpoints| >= 3 && i <= N
    ensures forall j :: 0 <= j < i ==>
      BSplinePoint(cpoints, BSplineParam(j, N, |cpoints|)) ==
        Success(BSplineSamplesUpTo(cpoints, N, i)[j])
  {
    if i > 0 {
      SamplesUpToAt(cpoints, N, i - 1);
      ParamBelow(i - 1, N, |cpoints|);
    }
  }

  /** The N samples the loop of the source collects. */
  function BSplineSamples(cpoints: seq<Pt>, N: nat): seq<Pt>
    requires |cpoints| >= 3 && N > 0
  {
    BSplineSamplesUpTo(cpoints, N, N)
  }

  /** The last knot of n control points is n - 2. */
  lemma LastKnot(n: nat)
    requires n >= 2
    ensures KnotVector(2, n)[n + 2] == n - 2
  {
    assert KnotVector(2, n)[n + 2] == Min(Max(n, 0), n - 2);
  }

  /** What `discretizeOpenQuadraticBSpline` returns. */
  function BSplineDiscretization(cpoints: seq<Pt>, N: nat): Result<seq<Pt>>
    requires N > 0
  {
    if |cpoints| <= 3 then DeCasteljau.BezierDiscretization(cpoints, N)
    else Success(DeCasteljau.CloseCurve(BSplineSamples(cpoints, N),
      BSplinePoint(cpoints, (|cpoints| - 2) as real).value))
  }

  /** `discretizeOpenQuadraticBSpline`: up to three points go to De Casteljau;
      otherwise t starts at 0 and grows by dt while below the last knot. */
  method DiscretizeOpenQuadraticBSpline(cpoints: seq<Pt>, N: nat) returns (r: Result<seq<Pt>>)
    requires N > 0
    ensures r == BSplineDiscretization(cpoints, N)
  {
    if |cpoints| <= 3 {
      r := DeCasteljau.BezierCurveDiscretizeN(cpoints, N);
      return;
    }
    var n := |cpoints|;
    var curvePoints: seq<Pt> := [];
    var kv := KnotVectorOpenBSpline(2, n);
    var knots := kv.value;
    LastKnot(n);
    var last := knots[|knots| - 1] as real;
    var dt := DeCasteljau.Step(N) * last;
    assert dt == BSplineStep(N, n);
    var t := 0.0;
    ghost var i: nat := 0;
    ParamBelow(i, N, n);
    while t < last
      invariant 0 <= i <= N
      invariant 0.0 <= t && t == BSplineParam(i, N, n)
      invariant t < last <==> i < N
      invariant curvePoints == BSplineSamplesUpTo(cpoints, N, i)
      decreases N - i
    {
      var p := EvaluateOpenQuadraticBSpline(cpoints, t);
      curvePoints := curvePoints + [p.value];
      t := t + dt;
      i := i + 1;
      ParamBelow(i, N, n);
    }
    if curvePoints[|curvePoints| - 1].x != 1.0 {
      var p := EvaluateOpenQuadraticBSpline(cpoints, last);
      curvePoints := curvePoints + [p.value];
    }
    return Success(curvePoints);
  }

  /** With four or more control points the discretisation samples the curve at
      i * dt, starts at the first control point, has N + 1 points exactly when
      sample N - 1 has x != 1 (N points otherwise), and ends
      either at a point with x == 1 or at the last control point. */
  lemma BSplineDiscretizationShape(cpoints: seq<Pt>, N: nat)
    requires |cpoints| >= 4 && N > 0
    ensures BSplineDiscretization(cpoints, N).Success?
    ensures var s := BSplineDiscretization(cpoints, N).value;
      && (|s| == N || |s| == N + 1)
      && s[0] == cpoints[0]
      && (forall i :: 0 <= i < N ==>
            BSplinePoint(cpoints, BSplineParam(i, N, |cpoints|)) == Success(s[i]))
      && (|s| == N + 1 <==> s[N - 1].x != 1.0)
      && (|s| == N + 1 ==> s[N] == cpoints[|cpoints| - 1])
      && (s[|s| - 1].x == 1.0 || s[|s| - 1] == cpoints[|cpoints| - 1])
  {
    var n := |cpoints|;
    var samples := BSplineSamples(cpoints, N);
    EndpointsInterpolated(cpoints);
    SamplesUpToAt(cpoints, N, N);
    var s := DeCasteljau.CloseCurve(samples, cpoints[n - 1]);
    assert s[..N] == samples;
    assert BSplineParam(0, N, n) == 0.0;
    forall i | 0 <= i < N
      ensures BSplinePoint(cpoints, BSplineParam(i, N, n)) == Success(s[i])
    {
      assert s[i] == samples[i];
    }
  }
}
