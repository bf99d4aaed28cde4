/** The numeric ground the GNSS code stands on: Python's integer truncation,
    numpy's float division, 3-vectors, and the library functions (math/numpy
    sin, cos, asin, atan2, sqrt, exp, pow, numpy.linalg.inv) and the iterative
    ECEF-to-geodetic conversion, which the model does not compute. They are
    fields of a `Numerics` value passed to every operation that uses them, and
    `Laws` names the facts about them that the proofs use. */
module Numerics {
  import opened Matrices

  /** numpy's pi (the IEEE double nearest to π). */
  const PI: real := 3.141592653589793

  datatype V3 = V3(x: real, y: real, z: real)

  function Dot3(a: V3, b: V3): real { a.x * b.x + a.y * b.y + a.z * b.z }
  function Add3(a: V3, b: V3): V3 { V3(a.x + b.x, a.y + b.y, a.z + b.z) }
  function Sub3(a: V3, b: V3): V3 { V3(a.x - b.x, a.y - b.y, a.z - b.z) }
  function Neg3(a: V3): V3 { V3(-a.x, -a.y, -a.z) }

  /** A 3×3 matrix, by rows. */
  datatype M3 = M3(r0: V3, r1: V3, r2: V3)

  /** M·v */
  function MulM3(M: M3, v: V3): V3 {
    V3(Dot3(M.r0, v), Dot3(M.r1, v), Dot3(M.r2, v))
  }

  function Transpose3(M: M3): M3 {
    M3(V3(M.r0.x, M.r1.x, M.r2.x), V3(M.r0.y, M.r1.y, M.r2.y), V3(M.r0.z, M.r1.z, M.r2.z))
  }

  /** The rows of M are unit vectors and pairwise orthogonal. */
  predicate Orthonormal(M: M3) {
    && Dot3(M.r0, M.r0) == 1.0 && Dot3(M.r1, M.r1) == 1.0 && Dot3(M.r2, M.r2) == 1.0
    && Dot3(M.r0, M.r1) == 0.0 && Dot3(M.r0, M.r2) == 0.0 && Dot3(M.r1, M.r2) == 0.0
  }

  /** The local east-north-up frame of a point whose latitude has sine sp and
      cosine cp and whose longitude has sine sl and cosine cl: rows are the
      east, north and up unit vectors in earth-centred coordinates. */
  function LocalFrame(sp: real, cp: real, sl: real, cl: real): M3 {
    M3(V3(-sl, cl, 0.0), V3(-sp * cl, -sp * sl, cp), V3(cp * cl, cp * sl, sp))
  }

  /** Mᵀ undoes M when M has orthonormal rows. */
  lemma TransposeInverts(M: M3, e: V3)
    requires Orthonormal(M)
    ensures MulM3(M, MulM3(Transpose3(M), e)) == e
  {
    var u := MulM3(Transpose3(M), e);
    assert u == Add3(Add3(Scale3(e.x, M.r0), Scale3(e.y, M.r1)), Scale3(e.z, M.r2));
    DotCombination(M.r0, M.r0, M.r1, M.r2, e.x, e.y, e.z);
    DotCombination(M.r1, M.r0, M.r1, M.r2, e.x, e.y, e.z);
    DotCombination(M.r2, M.r0, M.r1, M.r2, e.x, e.y, e.z);
  }

  function Scale3(k: real, a: V3): V3 { V3(k * a.x, k * a.y, k * a.z) }

  lemma DotCombination(a: V3, p: V3, q: V3, r: V3, i: real, j: real, k: real)
    ensures Dot3(a, Add3(Add3(Scale3(i, p), Scale3(j, q)), Scale3(k, r)))
      == i * Dot3(a, p) + j * Dot3(a, q) + k * Dot3(a, r)
  {
    assert a.x * (i * p.x) == i * (a.x * p.x);
    assert a.y * (i * p.y) == i * (a.y * p.y);
    assert a.z * (i * p.z) == i * (a.z * p.z);
    assert a.x * (j * q.x) == j * (a.x * q.x);
    assert a.y * (j * q.y) == j * (a.y * q.y);
    assert a.z * (j * q.z) == j * (a.z * q.z);
    assert a.x * (k * r.x) == k * (a.x * r.x);
    assert a.y * (k * r.y) == k * (a.y * r.y);
    assert a.z * (k * r.z) == k * (a.z * r.z);
  }

  /** The local frame is a rotation: its rows and its columns are orthonormal. */
  lemma LocalFrameOrthonormal(sp: real, cp: real, sl: real, cl: real)
    requires sp * sp + cp * cp == 1.0 && sl * sl + cl * cl == 1.0
    ensures Orthonormal(LocalFrame(sp, cp, sl, cl))
    ensures Orthonormal(Transpose3(LocalFrame(sp, cp, sl, cl)))
  {
    LocalFrameRows(sp, cp, sl, cl);
    LocalFrameColumns(sp, cp, sl, cl);
  }

  lemma LocalFrameRows(sp: real, cp: real, sl: real, cl: real)
    requires sp * sp + cp * cp == 1.0 && sl * sl + cl * cl == 1.0
    ensures Orthonormal(LocalFrame(sp, cp, sl, cl))
  {
    var ss, cc := sl * sl, cl * cl;
    var pp, qq := sp * sp, cp * cp;
    assert (-sp * cl) * (-sp * cl) + (-sp * sl) * (-sp * sl) == pp * (cc + ss);
    assert (cp * cl) * (cp * cl) + (cp * sl) * (cp * sl) == qq * (cc + ss);
    assert (-sp * cl) * (cp * cl) + (-sp * sl) * (cp * sl) == -(sp * cp) * (cc + ss);
  }

  lemma LocalFrameColumns(sp: real, cp: real, sl: real, cl: real)
    requires sp * sp + cp * cp == 1.0 && sl * sl + cl * cl == 1.0
    ensures Orthonormal(Transpose3(LocalFrame(sp, cp, sl, cl)))
  {
    var ss, cc := sl * sl, cl * cl;
    var pp, qq := sp * sp, cp * cp;
    assert (-sp * cl) * (-sp * cl) + (cp * cl) * (cp * cl) == cc * (pp + qq);
    assert (-sp * sl) * (-sp * sl) + (cp * sl) * (cp * sl) == ss * (pp + qq);
    assert (-sp * cl) * (-sp * sl) + (cp * cl) * (cp * sl) == (cl * sl) * (pp + qq);
  }

  /** Python's int(x) on a float: truncation toward zero. */
  function Trunc(x: real): (n: int)
    ensures 0.0 <= x ==> n as real <= x < n as real + 1.0
    ensures x < 0.0 ==> n as real - 1.0 < x <= n as real
  {
    if x >= 0.0 then x.Floor else -((-x).Floor)
  }

  /** numpy float64 division. Dividing by zero gives inf or nan with a warning in
      numpy; that outcome is not modelled and reads as 0 here. */
  function FloatDiv(a: real, b: real): (q: real)
    ensures b != 0.0 ==> q * b == a
  {
    if b == 0.0 then 0.0 else a / b
  }

  /** A value, or the failure of the operation that was to produce it. */
  datatype Option<T> = None | Some(value: T)

  function Abs(x: real): real { if x < 0.0 then -x else x }
  function Max(a: real, b: real): real { if a >= b then a else b }
  function Min(a: real, b: real): real { if a <= b then a else b }

  /** Library functions the model leaves uninterpreted. `ecef2pos` is the
      iterative ECEF-to-geodetic conversion of gnsscommon (latitude, longitude
      in radians, height in metres); `inv` is numpy.linalg.inv. */
  datatype Numerics = Numerics(
    sin: real -> real,
    cos: real -> real,
    asin: real -> real,
    atan2: (real, real) -> real,
    sqrt: real -> real,
    exp: real -> real,
    pow: (real, real) -> real,
    ecef2pos: V3 -> V3,
    inv: Matrix -> Matrix)

  /** The facts the proofs use about the scalar functions: the Pythagorean
      identity and the values at 0, the signs of sin and cos on the first
      quarter turn, the ranges of asin and atan2 as the IEEE library returns
      them, sqrt as the non-negative square root, and positivity of exp and of
      pow on a positive base. */
  ghost predicate Laws(num: Numerics) {
    && (forall x :: num.sin(x) * num.sin(x) + num.cos(x) * num.cos(x) == 1.0)
    && num.sin(0.0) == 0.0 && num.cos(0.0) == 1.0
    && (forall x :: 0.0 < x <= PI / 2.0 ==> 0.0 < num.sin(x))
    && (forall x :: -PI / 2.0 < x < PI / 2.0 ==> 0.0 < num.cos(x))
    && (forall y :: -PI / 2.0 <= num.asin(y) <= PI / 2.0)
    && (forall y, x :: -PI <= num.atan2(y, x) <= PI)
    && (forall x :: 0.0 < x ==> num.atan2(0.0, x) == 0.0)
    && (forall x :: 0.0 <= x ==> 0.0 <= num.sqrt(x) && num.sqrt(x) * num.sqrt(x) == x)
    && (forall x :: 0.0 < num.exp(x))
    && (forall b, e :: 0.0 < b ==> 0.0 < num.pow(b, e))
  }

  /** inv keeps the shape of a square matrix and is a two-sided inverse of
      every invertible one. */
  ghost predicate InverseLaw(num: Numerics) {
    && (forall M {:trigger num.inv(M)} :: IsMatrix(M, |M|, |M|) ==> IsMatrix(num.inv(M), |M|, |M|))
    && (forall M {:trigger num.inv(M)} :: Invertible(M) ==>
          MatMul(M, num.inv(M), |M|) == Identity(|M|) && MatMul(num.inv(M), M, |M|) == Identity(|M|))
  }

  lemma SinCosBounds(num: Numerics, x: real)
    requires Laws(num)
    ensures -1.0 <= num.sin(x) <= 1.0 && -1.0 <= num.cos(x) <= 1.0
  {
    var s, c := num.sin(x), num.cos(x);
    assert s * s + c * c == 1.0;
    UnitSquare(s, c);
    UnitSquare(c, s);
  }

  /** A number whose square is at most 1 lies in [-1, 1]. */
  lemma UnitSquare(a: real, b: real)
    requires a * a + b * b == 1.0
    ensures -1.0 <= a <= 1.0
  {
    var bb := b * b;
    assert 0.0 <= bb;
    if 1.0 < a {
      SquareMonotone(1.0, a);
    } else if a < -1.0 {
      SquareMonotone(1.0, -a);
    }
  }

  /** sqrt of a positive number is positive. */
  lemma SqrtPositive(num: Numerics, x: real)
    requires Laws(num) && 0.0 < x
    ensures 0.0 < num.sqrt(x)
  {
    assert num.sqrt(x) * num.sqrt(x) == x;
  }

  /** sqrt(x*x) == x for x >= 0. */
  lemma SqrtOfSquare(num: Numerics, x: real)
    requires Laws(num) && 0.0 <= x
    ensures num.sqrt(x * x) == x
  {
    var s := num.sqrt(x * x);
    assert 0.0 <= s && s * s == x * x;
    if s > x {
      SquareMonotone(x, s);
    } else if s < x {
      SquareMonotone(s, x);
    }
  }

  /** x², kept behind a function symbol so the solver's rewriting of bare
      squares does not get in the way of linear steps. */
  function Sq(x: real): real { x * x }

  lemma SquareSign(x: real)
    ensures 0.0 <= Sq(x) && (x != 0.0 ==> 0.0 < Sq(x))
  {
    if x < 0.0 {
      SquareMonotone(0.0, -x);
    } else if x > 0.0 {
      SquareMonotone(0.0, x);
    }
  }

  /** The square of sqrt(x) is x. */
  lemma SqrtSquared(num: Numerics, x: real)
    requires Laws(num) && 0.0 <= x
    ensures 0.0 <= num.sqrt(x) && Sq(num.sqrt(x)) == x
  {
  }

  lemma MulNonneg(x: real, y: real)
    requires 0.0 <= x && 0.0 <= y
    ensures 0.0 <= x * y
  {
  }

  lemma MulPositive(x: real, y: real)
    requires 0.0 < x && 0.0 < y
    ensures 0.0 < x * y
  {
  }

  lemma SquareMonotone(a: real, b: real)
    requires 0.0 <= a < b
    ensures a * a < b * b
  {
    var p, q, r := a * a, a * b, b * b;
    assert p <= q;
    assert q < r;
  }
}
