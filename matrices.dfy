/** Dense real vectors and matrices as sequences, standing for the numpy arrays of
    the estimators: products, transposes, and the algebraic facts the Kalman and
    least-squares steps rely on (bilinearity of the dot product, symmetry of
    A·M·Aᵀ for symmetric M). Column counts are passed explicitly so that
    matrices with zero rows still have a shape. */
module Matrices {

  type Vector = seq<real>
  type Matrix = seq<seq<real>>

  /** A has m rows of n entries each. */
  predicate IsMatrix(A: Matrix, m: nat, n: nat) {
    |A| == m && forall i :: 0 <= i < m ==> |A[i]| == n
  }

  /** A is square and equal to its transpose. */
  predicate Symmetric(A: Matrix) {
    IsMatrix(A, |A|, |A|) &&
    forall i, j :: 0 <= i < |A| && 0 <= j < |A| ==> A[i][j] == A[j][i]
  }

  /** A is square and every off-diagonal entry is zero. */
  predicate Diagonal(A: Matrix) {
    IsMatrix(A, |A|, |A|) &&
    forall i, j :: 0 <= i < |A| && 0 <= j < |A| && i != j ==> A[i][j] == 0.0
  }

  function Zeros(n: nat): (v: Vector)
    ensures |v| == n && forall i :: 0 <= i < n ==> v[i] == 0.0
  {
    seq(n, _ => 0.0)
  }

  function ZeroMatrix(m: nat, n: nat): (Z: Matrix)
    ensures IsMatrix(Z, m, n)
    ensures forall i, j :: 0 <= i < m && 0 <= j < n ==> Z[i][j] == 0.0
  {
    seq(m, _ => Zeros(n))
  }

  /** Row k of the n×n identity. */
  function Unit(n: nat, k: nat): (u: Vector)
    ensures |u| == n && forall i :: 0 <= i < n ==> u[i] == if i == k then 1.0 else 0.0
  {
    seq(n, i => if i == k then 1.0 else 0.0)
  }

  function Identity(n: nat): (I: Matrix)
    ensures IsMatrix(I, n, n) && forall i :: 0 <= i < n ==> I[i] == Unit(n, i)
  {
    seq(n, i requires 0 <= i < n => Unit(n, i))
  }

  function Dot(u: Vector, v: Vector): real
    requires |u| == |v|
    decreases |u|
  {
    if |u| == 0 then 0.0 else u[0] * v[0] + Dot(u[1..], v[1..])
  }

  function VecAdd(u: Vector, v: Vector): (w: Vector)
    requires |u| == |v|
    ensures |w| == |u| && forall i :: 0 <= i < |u| ==> w[i] == u[i] + v[i]
  {
    seq(|u|, i requires 0 <= i < |u| => u[i] + v[i])
  }

  /** k·u + w, the vector form of one row operation. */
  function Axpy(k: real, u: Vector, w: Vector): (r: Vector)
    requires |u| == |w|
    ensures |r| == |u| && forall i :: 0 <= i < |u| ==> r[i] == k * u[i] + w[i]
  {
    seq(|u|, i requires 0 <= i < |u| => k * u[i] + w[i])
  }

  function Col(A: Matrix, j: nat): (c: Vector)
    requires forall i :: 0 <= i < |A| ==> j < |A[i]|
    ensures |c| == |A| && forall i :: 0 <= i < |A| ==> c[i] == A[i][j]
  {
    seq(|A|, i requires 0 <= i < |A| => A[i][j])
  }

  function Transpose(A: Matrix, n: nat): (T: Matrix)
    requires IsMatrix(A, |A|, n)
    ensures IsMatrix(T, n, |A|)
    ensures forall i, j :: 0 <= i < n && 0 <= j < |A| ==> T[i][j] == A[j][i]
  {
    seq(n, j requires 0 <= j < n => Col(A, j))
  }

  function MatVec(A: Matrix, v: Vector): (w: Vector)
    requires IsMatrix(A, |A|, |v|)
    ensures |w| == |A| && forall i :: 0 <= i < |A| ==> w[i] == Dot(A[i], v)
  {
    seq(|A|, i requires 0 <= i < |A| => Dot(A[i], v))
  }

  /** The row vector v times B (B has |v| rows of n entries). */
  function VecMat(v: Vector, B: Matrix, n: nat): (w: Vector)
    requires IsMatrix(B, |v|, n)
    ensures |w| == n && forall j :: 0 <= j < n ==> w[j] == Dot(v, Col(B, j))
  {
    seq(n, j requires 0 <= j < n => Dot(v, Col(B, j)))
  }

  /** A·B for A with |B| columns and B with n columns; row i is A[i]·B. */
  function MatMul(A: Matrix, B: Matrix, n: nat): (C: Matrix)
    requires IsMatrix(A, |A|, |B|) && IsMatrix(B, |B|, n)
    ensures IsMatrix(C, |A|, n)
    ensures forall i :: 0 <= i < |A| ==> C[i] == VecMat(A[i], B, n)
  {
    seq(|A|, i requires 0 <= i < |A| => VecMat(A[i], B, n))
  }

  function MatAdd(A: Matrix, B: Matrix): (C: Matrix)
    requires |A| == |B| && forall i :: 0 <= i < |A| ==> |A[i]| == |B[i]|
    ensures |C| == |A| && forall i :: 0 <= i < |A| ==> C[i] == VecAdd(A[i], B[i])
  {
    seq(|A|, i requires 0 <= i < |A| => VecAdd(A[i], B[i]))
  }

  function MatSub(A: Matrix, B: Matrix): (C: Matrix)
    requires |A| == |B| && forall i :: 0 <= i < |A| ==> |A[i]| == |B[i]|
    ensures |C| == |A| && forall i :: 0 <= i < |A| ==> |C[i]| == |A[i]|
    ensures forall i, j :: 0 <= i < |A| && 0 <= j < |A[i]| ==> C[i][j] == A[i][j] - B[i][j]
  {
    seq(|A|, i requires 0 <= i < |A| =>
      seq(|A[i]|, j requires 0 <= j < |A[i]| => A[i][j] - B[i][j]))
  }

  /** The top-left m×n block of a two-dimensional array, numpy's a[:m, :n]. */
  function Block(a: array2<real>, m: nat, n: nat): (B: Matrix)
    requires m <= a.Length0 && n <= a.Length1
    reads a
    ensures IsMatrix(B, m, n)
    ensures forall i, j :: 0 <= i < m && 0 <= j < n ==> B[i][j] == a[i, j]
  {
    seq(m, i requires 0 <= i < m reads a =>
      seq(n, j requires 0 <= j < n reads a => a[i, j]))
  }

  /** The entries of a two-dimensional array, row by row. */
  function Table(a: array2<real>): (T: Matrix)
    reads a
    ensures IsMatrix(T, a.Length0, a.Length1)
    ensures forall i, j :: 0 <= i < a.Length0 && 0 <= j < a.Length1 ==> T[i][j] == a[i, j]
  {
    Block(a, a.Length0, a.Length1)
  }

  ghost predicate Invertible(M: Matrix) {
    IsMatrix(M, |M|, |M|) &&
    exists N :: IsMatrix(N, |M|, |M|) && MatMul(M, N, |M|) == Identity(|M|)
  }

  // ---------------------------------------------------------------------------
  // Algebra of the dot product

  lemma {:induction false} DotComm(u: Vector, v: Vector)
    requires |u| == |v|
    ensures Dot(u, v) == Dot(v, u)
    decreases |u|
  {
    if |u| > 0 {
      DotComm(u[1..], v[1..]);
    }
  }

  /** A vector's dot product with itself is never negative. */
  lemma {:induction false} DotSelf(u: Vector)
    ensures 0.0 <= Dot(u, u)
    decreases |u|
  {
    if |u| > 0 {
      DotSelf(u[1..]);
      assert 0.0 <= u[0] * u[0] by {
        if u[0] < 0.0 {
          assert u[0] * u[0] == (-u[0]) * (-u[0]);
        }
      }
    }
  }

  lemma {:induction false} DotAxpy(k: real, u: Vector, w: Vector, c: Vector)
    requires |u| == |w| == |c|
    ensures Dot(Axpy(k, u, w), c) == k * Dot(u, c) + Dot(w, c)
    decreases |u|
  {
    if |u| > 0 {
      var r := Axpy(k, u, w);
      assert r[1..] == Axpy(k, u[1..], w[1..]) by {
        forall i | 0 <= i < |u| - 1 ensures r[1..][i] == Axpy(k, u[1..], w[1..])[i] { }
      }
      DotAxpy(k, u[1..], w[1..], c[1..]);
      AxpyStep(k, u[0], w[0], c[0], Dot(u[1..], c[1..]), Dot(w[1..], c[1..]));
    }
  }

  lemma AxpyStep(k: real, u0: real, w0: real, c0: real, a: real, b: real)
    ensures (k * u0 + w0) * c0 + (k * a + b) == k * (u0 * c0 + a) + (w0 * c0 + b)
  {
    var uc, wc := u0 * c0, w0 * c0;
    assert (k * u0) * c0 == k * uc;
    assert (k * u0 + w0) * c0 == k * uc + wc;
    assert k * (uc + a) == k * uc + k * a;
  }

  /** The dot product with row k of the identity picks out entry k. */
  lemma {:induction false} DotUnit(n: nat, k: nat, v: Vector)
    requires |v| == n && k < n
    ensures Dot(Unit(n, k), v) == v[k]
  {
    DotUnitShifted(Unit(n, k), k, v);
  }

  lemma {:induction false} DotUnitShifted(u: Vector, k: nat, v: Vector)
    requires |u| == |v| && k < |u|
    requires forall i :: 0 <= i < |u| ==> u[i] == if i == k then 1.0 else 0.0
    ensures Dot(u, v) == v[k]
    decreases |u|
  {
    if k == 0 {
      DotZeroLeft(u[1..], v[1..]);
    } else {
      DotUnitShifted(u[1..], k - 1, v[1..]);
    }
  }

  lemma {:induction false} DotZeroLeft(u: Vector, v: Vector)
    requires |u| == |v| && forall i :: 0 <= i < |u| ==> u[i] == 0.0
    ensures Dot(u, v) == 0.0
    decreases |u|
  {
    if |u| > 0 {
      DotZeroLeft(u[1..], v[1..]);
    }
  }

  /** (a·B)·c == a·(B·c): the exchange of the two sums of a bilinear form. */
  lemma {:induction false} DotVecMat(a: Vector, B: Matrix, n: nat, c: Vector)
    requires IsMatrix(B, |a|, n) && |c| == n
    ensures Dot(VecMat(a, B, n), c) == Dot(a, MatVec(B, c))
    decreases |a|
  {
    if |a| == 0 {
      DotZeroLeft(VecMat(a, B, n), c);
    } else {
      var tail := VecMat(a[1..], B[1..], n);
      VecMatSplit(a, B, n);
      DotAxpy(a[0], B[0], tail, c);
      DotVecMat(a[1..], B[1..], n, c);
      MatVecTail(B, c);
    }
  }

  /** a·B is a[0] times the first row of B plus the rest of a times the
      rest of B. */
  lemma VecMatSplit(a: Vector, B: Matrix, n: nat)
    requires IsMatrix(B, |a|, n) && 0 < |a|
    ensures VecMat(a, B, n) == Axpy(a[0], B[0], VecMat(a[1..], B[1..], n))
  {
    var tail := VecMat(a[1..], B[1..], n);
    forall j | 0 <= j < n
      ensures VecMat(a, B, n)[j] == Axpy(a[0], B[0], tail)[j]
    {
      assert Col(B, j)[1..] == Col(B[1..], j);
    }
  }

  /** Dropping the first row of B drops the first entry of B·c. */
  lemma MatVecTail(B: Matrix, c: Vector)
    requires IsMatrix(B, |B|, |c|) && 0 < |B|
    ensures MatVec(B, c)[1..] == MatVec(B[1..], c)
  {
  }

  /** A·(N·b) == (A·N)·b. */
  lemma MatVecAssoc(A: Matrix, N: Matrix, n: nat, b: Vector)
    requires IsMatrix(A, |A|, |N|) && IsMatrix(N, |N|, n) && |b| == n
    ensures MatVec(A, MatVec(N, b)) == MatVec(MatMul(A, N, n), b)
  {
    forall i | 0 <= i < |A|
      ensures MatVec(A, MatVec(N, b))[i] == MatVec(MatMul(A, N, n), b)[i]
    {
      DotVecMat(A[i], N, n, b);
    }
  }

  /** Matrix multiplication is associative. */
  lemma MatMulAssoc(A: Matrix, B: Matrix, C: Matrix, p: nat, q: nat)
    requires IsMatrix(A, |A|, |B|) && IsMatrix(B, |B|, p) && IsMatrix(C, p, q)
    ensures MatMul(MatMul(A, B, p), C, q) == MatMul(A, MatMul(B, C, q), q)
  {
    var L, R := MatMul(MatMul(A, B, p), C, q), MatMul(A, MatMul(B, C, q), q);
    forall i | 0 <= i < |A|
      ensures L[i] == R[i]
    {
      forall j | 0 <= j < q
        ensures L[i][j] == R[i][j]
      {
        var BC := MatMul(B, C, q);
        assert Col(BC, j) == MatVec(B, Col(C, j));
        DotVecMat(A[i], B, p, Col(C, j));
      }
    }
  }

  /** The identity is a right unit of multiplication. */
  lemma MatMulIdentity(A: Matrix, n: nat)
    requires IsMatrix(A, |A|, n)
    ensures MatMul(A, Identity(n), n) == A
  {
    var L := MatMul(A, Identity(n), n);
    forall i | 0 <= i < |A|
      ensures L[i] == A[i]
    {
      forall j | 0 <= j < n
        ensures L[i][j] == A[i][j]
      {
        assert Col(Identity(n), j) == Unit(n, j);
        DotComm(A[i], Unit(n, j));
        DotUnit(n, j, A[i]);
      }
    }
  }

  lemma MatVecIdentity(b: Vector)
    ensures MatVec(Identity(|b|), b) == b
  {
    forall i | 0 <= i < |b|
      ensures MatVec(Identity(|b|), b)[i] == b[i]
    {
      DotUnit(|b|, i, b);
    }
  }

  /** For symmetric M, the row vector v·M equals the column vector M·v. */
  lemma VecMatSymmetric(v: Vector, M: Matrix)
    requires Symmetric(M) && |v| == |M|
    ensures VecMat(v, M, |M|) == MatVec(M, v)
  {
    forall k | 0 <= k < |M|
      ensures VecMat(v, M, |M|)[k] == MatVec(M, v)[k]
    {
      assert Col(M, k) == M[k];
      DotComm(v, M[k]);
    }
  }

  /** A·M·Aᵀ is symmetric whenever M is: the shape of both the covariance
      prediction F·P·Fᵀ and each term of the Joseph-form update. */
  lemma SandwichSymmetric(A: Matrix, M: Matrix)
    requires Symmetric(M) && IsMatrix(A, |A|, |M|)
    ensures Symmetric(MatMul(MatMul(A, M, |M|), Transpose(A, |M|), |A|))
  {
    var k := |M|;
    var AM := MatMul(A, M, k);
    var S := MatMul(AM, Transpose(A, k), |A|);
    forall i, j | 0 <= i < |A| && 0 <= j < |A|
      ensures S[i][j] == Dot(A[i], MatVec(M, A[j]))
    {
      assert Col(Transpose(A, k), j) == A[j];
      DotVecMat(A[i], M, k, A[j]);
    }
    forall i, j | 0 <= i < |A| && 0 <= j < |A|
      ensures S[i][j] == S[j][i]
    {
      VecMatSymmetric(A[i], M);
      VecMatSymmetric(A[j], M);
      DotComm(A[i], MatVec(M, A[j]));
      DotVecMat(A[j], M, k, A[i]);
    }
  }

  lemma AddSymmetric(A: Matrix, B: Matrix)
    requires Symmetric(A) && Symmetric(B) && |A| == |B|
    ensures Symmetric(MatAdd(A, B))
  {
  }

  lemma DiagonalIsSymmetric(A: Matrix)
    requires Diagonal(A)
    ensures Symmetric(A)
  {
  }
}
