/** The `Matrix` class of BSplines.js: a rectangular matrix of numbers, immutable
    after construction, with element-wise sum, scalar product and matrix product.
    Each operation is a method that builds its result row by row, as the source
    does, and is proved equal to a specification function (Sum, Scale, Mul) that
    the pure B-spline evaluation uses. */
module Matrices {
  import opened Wrappers

  /** What the constructor checks: at least one row, and every row as long as the first. */
  predicate Rectangular(a: seq<seq<real>>)
  {
    |a| > 0 && forall i :: 0 <= i < |a| ==> |a[i]| == |a[0]|
  }

  datatype Matrix = Matrix(items: seq<seq<real>>)
  {
    /** Every Matrix the constructor lets through is rectangular. */
    predicate Valid() { Rectangular(items) }

    function Rows(): nat { |items| }

    function Cols(): nat
      requires Valid()
    {
      |items[0]|
    }

    function GetElement(i: nat, j: nat): real
      requires i < |items| && j < |items[i]|
    {
      items[i][j]
    }

    /** (number of rows, number of columns); every row has that many columns. */
    function Dimension(): (d: (nat, nat))
      requires Valid()
      ensures d.0 == |items|
      ensures forall i :: 0 <= i < |items| ==> |items[i]| == d.1
    {
      (|items|, |items[0]|)
    }
  }

  /** `new Matrix(items)`: fails on an empty outer items and on rows of unequal length. */
  method NewMatrix(items: seq<seq<real>>) returns (r: Result<Matrix>)
    ensures r.Success? <==> Rectangular(items)
    ensures r.Success? ==> r.value.items == items && r.value.Valid()
    ensures r.Failure? ==> r.error == DimensionError
  {
    if |items| == 0 {
      return Failure(DimensionError);
    }
    var lineSize := |items[0]|;
    var i := 1;
    while i < |items|
      invariant 1 <= i <= |items|
      invariant lineSize == |items[0]|
      invariant forall l :: 0 <= l < i ==> |items[l]| == |items[0]|
    {
      if lineSize != |items[i]| {
        return Failure(DimensionError);
      }
      lineSize := |items[i]|;
      i := i + 1;
    }
    return Success(Matrix(items));
  }

  /** Same number of rows and, row by row, the same number of columns. */
  predicate HaveSameDimension(m1: Matrix, m2: Matrix)
    requires m1.Valid() && m2.Valid()
    ensures HaveSameDimension(m1, m2) <==>
      |m1.items| == |m2.items| &&
      forall i :: 0 <= i < |m1.items| ==> |m1.items[i]| == |m2.items[i]|
  {
    m1.Dimension().0 == m2.Dimension().0 && m1.Dimension().1 == m2.Dimension().1
  }

  /** Element-wise sum (specification of Add). */
  function Sum(m1: Matrix, m2: Matrix): (s: Matrix)
    requires m1.Valid() && m2.Valid() && HaveSameDimension(m1, m2)
    ensures s.Valid() && s.Dimension() == m1.Dimension()
  {
    Matrix(seq(m1.Rows(), i requires 0 <= i < m1.Rows() =>
      seq(m1.Cols(), j requires 0 <= j < m1.Cols() => m1.items[i][j] + m2.items[i][j])))
  }

  /** Every entry multiplied by k (specification of ScalarProduct). */
  function Scale(k: real, m: Matrix): (s: Matrix)
    requires m.Valid()
    ensures s.Valid() && s.Dimension() == m.Dimension()
  {
    Matrix(seq(m.Rows(), i requires 0 <= i < m.Rows() =>
      seq(m.Cols(), j requires 0 <= j < m.Cols() => m.items[i][j] * k)))
  }

  /** The running sum m1[i][0]*m2[0][j] + ... + m1[i][n-1]*m2[n-1][j], accumulated
      from 0 in index order as the product loop does. */
  function Dot(m1: Matrix, m2: Matrix, i: nat, j: nat, n: nat): real
    requires m1.Valid() && m2.Valid()
    requires i < m1.Rows() && j < m2.Cols() && n <= m1.Cols() && n <= m2.Rows()
  {
    if n == 0 then 0.0
    else Dot(m1, m2, i, j, n - 1) + m1.items[i][n - 1] * m2.items[n - 1][j]
  }

  /** The matrix product (specification of Product). */
  function Mul(m1: Matrix, m2: Matrix): (p: Matrix)
    requires m1.Valid() && m2.Valid() && m1.Cols() == m2.Rows()
    ensures p.Valid() && p.Dimension() == (m1.Rows(), m2.Cols())
  {
    Matrix(seq(m1.Rows(), i requires 0 <= i < m1.Rows() =>
      seq(m2.Cols(), j requires 0 <= j < m2.Cols() => Dot(m1, m2, i, j, m1.Cols()))))
  }

  /** `Matrix.add`: fails unless both dimensions match, else the element-wise sum. */
  method Add(m1: Matrix, m2: Matrix) returns (r: Result<Matrix>)
    requires m1.Valid() && m2.Valid()
    ensures r.Success? <==> HaveSameDimension(m1, m2)
    ensures r.Failure? ==> r.error == DimensionMismatch
    ensures r.Success? ==> r.value == Sum(m1, m2)
    ensures r.Success? ==> r.value.Valid() && r.value.Dimension() == m1.Dimension()
    ensures r.Success? ==> forall i, j :: 0 <= i < m1.Rows() && 0 <= j < m1.Cols() ==>
      r.value.items[i][j] == m1.items[i][j] + m2.items[i][j]
  {
    if !HaveSameDimension(m1, m2) {
      return Failure(DimensionMismatch);
    }
    ghost var s := Sum(m1, m2);
    var mRes: seq<seq<real>> := [];
    var i := 0;
    while i < m1.Dimension().0
      invariant 0 <= i <= m1.Rows()
      invariant mRes == s.items[..i]
    {
      var newLine: seq<real> := [];
      var j := 0;
      while j < m1.Dimension().1
        invariant 0 <= j <= m1.Cols()
        invariant newLine == s.items[i][..j]
      {
        newLine := newLine + [m1.GetElement(i, j) + m2.GetElement(i, j)];
        j := j + 1;
      }
      assert newLine == s.items[i];
      mRes := mRes + [newLine];
      i := i + 1;
    }
    assert mRes == s.items;
    r := NewMatrix(mRes);
  }

  /** `Matrix.scalarProduct(k, m)`: same dimensions, every entry times k. */
  method ScalarProduct(k: real, m: Matrix) returns (r: Matrix)
    requires m.Valid()
    ensures r == Scale(k, m)
    ensures r.Valid() && r.Dimension() == m.Dimension()
    ensures forall i, j :: 0 <= i < m.Rows() && 0 <= j < m.Cols() ==>
      r.items[i][j] == k * m.items[i][j]
  {
    ghost var s := Scale(k, m);
    var mRes: seq<seq<real>> := [];
    var i := 0;
    while i < m.Dimension().0
      invariant 0 <= i <= m.Rows()
      invariant mRes == s.items[..i]
    {
      var newLine: seq<real> := [];
      var j := 0;
      while j < m.Dimension().1
        invariant 0 <= j <= m.Cols()
        invariant newLine == s.items[i][..j]
      {
        var e := m.GetElement(i, j) * k;
        assert e == s.items[i][j];
        newLine := newLine + [e];
        j := j + 1;
      }
      assert newLine == s.items[i];
      mRes := mRes + [newLine];
      i := i + 1;
    }
    assert mRes == s.items;
    var res := NewMatrix(mRes);
    r := res.value;
  }

  /** `Matrix.product`: fails unless cols(m1) = rows(m2); entry (i, j) is the sum
      over k of m1[i][k] * m2[k][j], accumulated from 0 in k order. */
  method Product(m1: Matrix, m2: Matrix) returns (r: Result<Matrix>)
    requires m1.Valid() && m2.Valid()
    ensures r.Success? <==> m1.Cols() == m2.Rows()
    ensures r.Failure? ==> r.error == DimensionMismatch
    ensures r.Success? ==> r.value == Mul(m1, m2)
    ensures r.Success? ==> r.value.Valid() && r.value.Dimension() == (m1.Rows(), m2.Cols())
    ensures r.Success? ==> forall i, j :: 0 <= i < m1.Rows() && 0 <= j < m2.Cols() ==>
      r.value.items[i][j] == Dot(m1, m2, i, j, m1.Cols())
  {
    if m1.Dimension().1 != m2.Dimension().0 {
      return Failure(DimensionMismatch);
    }
    ghost var p := Mul(m1, m2);
    var mRes: seq<seq<real>> := [];
    var i := 0;
    while i < m1.Dimension().0
      invariant 0 <= i <= m1.Rows()
      invariant mRes == p.items[..i]
    {
      var newLine: seq<real> := [];
      var j := 0;
      while j < m2.Dimension().1
        invariant 0 <= j <= m2.Cols()
        invariant newLine == p.items[i][..j]
      {
        var newElem := 0.0;
        var k := 0;
        while k < m1.Dimension().1
          invariant 0 <= k <= m1.Cols()
          invariant newElem == Dot(m1, m2, i, j, k)
        {
          newElem := newElem + m1.GetElement(i, k) * m2.GetElement(k, j);
          k := k + 1;
        }
        newLine := newLine + [newElem];
        j := j + 1;
      }
      assert newLine == p.items[i];
      mRes := mRes + [newLine];
      i := i + 1;
    }
    assert mRes == p.items;
    r := NewMatrix(mRes);
  }

  /** Addition is commutative. */
  lemma SumCommutes(m1: Matrix, m2: Matrix)
    requires m1.Valid() && m2.Valid() && HaveSameDimension(m1, m2)
    ensures HaveSameDimension(m2, m1) && Sum(m1, m2) == Sum(m2, m1)
  {
    var a, b := Sum(m1, m2), Sum(m2, m1);
    forall i | 0 <= i < m1.Rows()
      ensures a.items[i] == b.items[i]
    {
      assert |a.items[i]| == |b.items[i]| == m1.Cols();
    }
  }

  /** Scaling twice is scaling once by the product of the factors. */
  lemma ScaleScale(k: real, j: real, m: Matrix)
    requires m.Valid()
    ensures Scale(k, Scale(j, m)) == Scale(k * j, m)
  {
    var a, b := Scale(k, Scale(j, m)), Scale(k * j, m);
    forall i | 0 <= i < m.Rows()
      ensures a.items[i] == b.items[i]
    {
      forall c | 0 <= c < m.Cols()
        ensures a.items[i][c] == b.items[i][c]
      {
        calc {
          a.items[i][c];
          (m.items[i][c] * j) * k;
          m.items[i][c] * (k * j);
          b.items[i][c];
        }
      }
    }
  }

  /** The n-by-n identity matrix (a test-suite helper, not part of the source). */
  function Identity(n: nat): (id: Matrix)
    requires n > 0
    ensures id.Valid() && id.Dimension() == (n, n)
  {
    Matrix(seq(n, i => seq(n, j => if i == j then 1.0 else 0.0)))
  }

  lemma {:induction false} DotIdentity(m: Matrix, i: nat, j: nat, n: nat)
    requires m.Valid() && m.Cols() > 0
    requires i < m.Rows() && j < m.Cols() && n <= m.Cols()
    ensures Dot(m, Identity(m.Cols()), i, j, n) == if j < n then m.items[i][j] else 0.0
  {
    if n > 0 {
      DotIdentity(m, i, j, n - 1);
    }
  }

  /** Multiplying by the identity on the right gives the matrix back. */
  lemma MulIdentity(m: Matrix)
    requires m.Valid() && m.Cols() > 0
    ensures Mul(m, Identity(m.Cols())) == m
  {
    var p := Mul(m, Identity(m.Cols()));
    forall i, j | 0 <= i < m.Rows() && 0 <= j < m.Cols()
      ensures p.items[i][j] == m.items[i][j]
    {
      DotIdentity(m, i, j, m.Cols());
    }
    assert forall i | 0 <= i < m.Rows() :: p.items[i] == m.items[i];
  }

  /** A product over a shared dimension of three, written out. */
  lemma Dot3(m1: Matrix, m2: Matrix, i: nat, j: nat)
    requires m1.Valid() && m2.Valid() && m1.Cols() == 3 && m2.Rows() == 3
    requires i < m1.Rows() && j < m2.Cols()
    ensures Mul(m1, m2).items[i][j] ==
      m1.items[i][0] * m2.items[0][j] + m1.items[i][1] * m2.items[1][j] + m1.items[i][2] * m2.items[2][j]
  {
    assert Dot(m1, m2, i, j, 1) == m1.items[i][0] * m2.items[0][j];
    assert Dot(m1, m2, i, j, 2) == Dot(m1, m2, i, j, 1) + m1.items[i][1] * m2.items[1][j];
    assert Dot(m1, m2, i, j, 3) == Dot(m1, m2, i, j, 2) + m1.items[i][2] * m2.items[2][j];
  }
}
