/** Extended Kalman filter positioning (ekf.py): the constant-velocity
    prediction, the builder of residuals, design matrix and measurement
    noise, the bounded update loop ekf_iteration, and the filter that carries
    its state from epoch to epoch. */
module Ekf {
  import opened Numerics
  import opened Matrices
  import opened GnssCommon
  import opened Measurements
  import Wls

  /** Largest number of update passes of ekf_iteration. */
  const MAXITR: nat := 10

  // ---------------------------------------------------------------------------
  // Prediction

  /** Entry (i, j) of the state transition: the identity with dt coupling
      each position and clock term to its rate. */
  function TransitionEntry(dt: real, i: nat, j: nat): real {
    if i == j then 1.0 else if i < 4 && j == i + 4 then dt else 0.0
  }

  /** state_transition's F. */
  function Transition(dt: real): (F: Matrix)
    ensures IsMatrix(F, 8, 8)
    ensures forall i, j :: 0 <= i < 8 && 0 <= j < 8 ==> F[i][j] == TransitionEntry(dt, i, j)
  {
    seq(8, i requires 0 <= i < 8 => seq(8, j requires 0 <= j < 8 => TransitionEntry(dt, i, j)))
  }

  /** Row i of F is the unit row i plus dt times unit row i + 4 for the
      position and clock rows, and the unit row for the rate rows. */
  lemma TransitionRow(dt: real, i: nat)
    requires i < 8
    ensures Transition(dt)[i] == if i < 4 then Axpy(dt, Unit(8, i + 4), Unit(8, i)) else Unit(8, i)
  {
  }

  /** F·x advances each position and the clock bias by dt times its rate
      and leaves the rates as they are. */
  lemma Predicted(dt: real, x: Vector)
    requires |x| == 8
    ensures var y := MatVec(Transition(dt), x);
      |y| == 8
      && (forall k :: 0 <= k < 4 ==> y[k] == x[k] + dt * x[k + 4])
      && (forall k :: 4 <= k < 8 ==> y[k] == x[k])
  {
    var F := Transition(dt);
    forall k | 0 <= k < 4
      ensures MatVec(F, x)[k] == x[k] + dt * x[k + 4]
    {
      TransitionRow(dt, k);
      DotAxpy(dt, Unit(8, k + 4), Unit(8, k), x);
      DotUnit(8, k + 4, x);
      DotUnit(8, k, x);
    }
    forall k | 4 <= k < 8
      ensures MatVec(F, x)[k] == x[k]
    {
      TransitionRow(dt, k);
      DotUnit(8, k, x);
    }
  }

  /** initialize_ekf_state's P: 1e4 on the position and clock bias, 1e2 on
      the velocity and clock drift, zero elsewhere. */
  function InitialCovariance(): (P: Matrix)
    ensures IsMatrix(P, 8, 8)
  {
    seq(8, i requires 0 <= i < 8 =>
      seq(8, j requires 0 <= j < 8 => if i != j then 0.0 else if i < 4 then 1.0e4 else 1.0e2))
  }

  /** The initial covariance is diagonal, so symmetric, with a positive
      diagonal: 1e4 on indices 0..3 and 1e2 on 4..7. */
  lemma InitialCovarianceShape()
    ensures Diagonal(InitialCovariance()) && Symmetric(InitialCovariance())
    ensures forall i :: 0 <= i < 8 ==> InitialCovariance()[i][i] == if i < 4 then 1.0e4 else 1.0e2
  {
    DiagonalIsSymmetric(InitialCovariance());
  }

  /** The diagonal of init_process_noise: 0.5² dt on the position, 0.1² dt
      on the velocity, 0.5²/dt² on the clock bias and 0.1²/dt² on the clock
      drift. */
  function NoiseEntry(dt: real, i: nat): real {
    if i < 3 then 0.25 * dt
    else if i == 3 then FloatDiv(0.25, dt * dt)
    else if i < 7 then 0.01 * dt
    else FloatDiv(0.01, dt * dt)
  }

  /** init_process_noise's Q. */
  function ProcessNoise(dt: real): (Q: Matrix)
    ensures IsMatrix(Q, 8, 8)
  {
    seq(8, i requires 0 <= i < 8 =>
      seq(8, j requires 0 <= j < 8 => if i == j then NoiseEntry(dt, i) else 0.0))
  }

  /** Q is diagonal; for dt > 0 its diagonal is positive, the clock terms
      satisfying Q[3][3]·dt² = 0.25 and Q[7][7]·dt² = 0.01. */
  lemma ProcessNoiseShape(dt: real)
    ensures Diagonal(ProcessNoise(dt)) && Symmetric(ProcessNoise(dt))
    ensures forall i :: 0 <= i < 3 ==> ProcessNoise(dt)[i][i] == 0.25 * dt
    ensures forall i :: 4 <= i < 7 ==> ProcessNoise(dt)[i][i] == 0.01 * dt
    ensures dt != 0.0 ==> ProcessNoise(dt)[3][3] * (dt * dt) == 0.25 && ProcessNoise(dt)[7][7] * (dt * dt) == 0.01
    ensures 0.0 < dt ==> forall i :: 0 <= i < 8 ==> 0.0 < ProcessNoise(dt)[i][i]
  {
    var Q := ProcessNoise(dt);
    DiagonalIsSymmetric(Q);
    if 0.0 < dt {
      assert 0.0 < dt * dt;
      forall i | 0 <= i < 8
        ensures 0.0 < Q[i][i]
      {
        assert Q[i][i] == NoiseEntry(dt, i);
      }
    }
  }

  /** The state and covariance the filter carries. */
  datatype Estimate = Estimate(x: Vector, P: Matrix)

  predicate Fits(e: Estimate) {
    |e.x| == 8 && IsMatrix(e.P, 8, 8)
  }

  /** F·P·Fᵀ + Q. */
  function PredictedCovariance(P: Matrix, dt: real): (C: Matrix)
    requires IsMatrix(P, 8, 8)
    ensures IsMatrix(C, 8, 8)
  {
    var F := Transition(dt);
    MatAdd(MatMul(MatMul(F, P, 8), Transpose(F, 8), 8), ProcessNoise(dt))
  }

  /** The prediction of ekf_iteration: (F·x, F·P·Fᵀ + Q). */
  function Predict(e: Estimate, dt: real): (r: Estimate)
    requires Fits(e)
    ensures Fits(r)
  {
    Estimate(MatVec(Transition(dt), e.x), PredictedCovariance(e.P, dt))
  }

  /** The prediction keeps the covariance symmetric. */
  lemma PredictSymmetric(P: Matrix, dt: real)
    requires IsMatrix(P, 8, 8) && Symmetric(P)
    ensures Symmetric(PredictedCovariance(P, dt))
  {
    var F := Transition(dt);
    SandwichSymmetric(F, P);
    ProcessNoiseShape(dt);
    AddSymmetric(MatMul(MatMul(F, P, 8), Transpose(F, 8), 8), ProcessNoise(dt));
  }

  // ---------------------------------------------------------------------------
  // The update of one pass

  /** S = H·P·Hᵀ + R. */
  function Innovation(P: Matrix, H: Matrix, R: Matrix): (S: Matrix)
    requires IsMatrix(P, 8, 8) && IsMatrix(H, |H|, 8) && IsMatrix(R, |H|, |H|)
    ensures IsMatrix(S, |H|, |H|)
  {
    MatAdd(MatMul(MatMul(H, P, 8), Transpose(H, 8), |H|), R)
  }

  /** K = P·Hᵀ·inv(S). */
  function Gain(num: Numerics, P: Matrix, H: Matrix, R: Matrix): (K: Matrix)
    requires InverseLaw(num)
    requires IsMatrix(P, 8, 8) && IsMatrix(H, |H|, 8) && IsMatrix(R, |H|, |H|)
    ensures IsMatrix(K, 8, |H|)
  {
    var S := Innovation(P, H, R);
    MatMul(MatMul(P, Transpose(H, 8), |H|), num.inv(S), |H|)
  }

  /** The gain solves K·S = P·Hᵀ whenever S is invertible. */
  lemma GainEquation(num: Numerics, P: Matrix, H: Matrix, R: Matrix)
    requires InverseLaw(num)
    requires IsMatrix(P, 8, 8) && IsMatrix(H, |H|, 8) && IsMatrix(R, |H|, |H|)
    requires Invertible(Innovation(P, H, R))
    ensures MatMul(Gain(num, P, H, R), Innovation(P, H, R), |H|) == MatMul(P, Transpose(H, 8), |H|)
  {
    var n := |H|;
    var S := Innovation(P, H, R);
    var PHt := MatMul(P, Transpose(H, 8), n);
    MatMulAssoc(PHt, num.inv(S), S, n, n);
    assert MatMul(num.inv(S), S, n) == Identity(n);
    MatMulIdentity(PHt, n);
  }

  /** (I - K·H)·P·(I - K·H)ᵀ + K·R·Kᵀ, the Joseph form. */
  function Joseph(P: Matrix, K: Matrix, H: Matrix, R: Matrix): (C: Matrix)
    requires IsMatrix(P, 8, 8) && IsMatrix(H, |H|, 8) && IsMatrix(R, |H|, |H|) && IsMatrix(K, 8, |H|)
    ensures IsMatrix(C, 8, 8)
  {
    var IKH := MatSub(Identity(8), MatMul(K, H, 8));
    MatAdd(MatMul(MatMul(IKH, P, 8), Transpose(IKH, 8), 8), MatMul(MatMul(K, R, |H|), Transpose(K, |H|), 8))
  }

  /** The Joseph form keeps the covariance symmetric for any gain when the
      measurement noise is diagonal. */
  lemma JosephSymmetric(P: Matrix, K: Matrix, H: Matrix, R: Matrix)
    requires IsMatrix(P, 8, 8) && IsMatrix(H, |H|, 8) && IsMatrix(R, |H|, |H|) && IsMatrix(K, 8, |H|)
    requires Symmetric(P) && Diagonal(R)
    ensures Symmetric(Joseph(P, K, H, R))
  {
    var IKH := MatSub(Identity(8), MatMul(K, H, 8));
    SandwichSymmetric(IKH, P);
    DiagonalIsSymmetric(R);
    SandwichSymmetric(K, R);
    AddSymmetric(MatMul(MatMul(IKH, P, 8), Transpose(IKH, 8), 8), MatMul(MatMul(K, R, |H|), Transpose(K, |H|), 8));
  }

  /** One update: the step dx = K·v and the corrected estimate
      (x + dx, Joseph form of P). */
  function Update(num: Numerics, e: Estimate, H: Matrix, R: Matrix, v: Vector): (r: (Vector, Estimate))
    requires InverseLaw(num) && Fits(e)
    requires IsMatrix(H, |H|, 8) && IsMatrix(R, |H|, |H|) && |v| == |H|
    ensures |r.0| == 8 && Fits(r.1)
    ensures r.1.x == VecAdd(e.x, r.0)
  {
    var K := Gain(num, e.P, H, R);
    var dx := MatVec(K, v);
    (dx, Estimate(VecAdd(e.x, dx), Joseph(e.P, K, H, R)))
  }

  /** A pass's update keeps the covariance symmetric: the noise of the rows
      is diagonal, so the Joseph form applies. */
  lemma UpdateSymmetric(num: Numerics, e: Estimate, H: Matrix, R: Matrix, v: Vector)
    requires InverseLaw(num) && Fits(e) && Symmetric(e.P)
    requires IsMatrix(H, |H|, 8) && IsMatrix(R, |H|, |H|) && |v| == |H| && Diagonal(R)
    ensures Symmetric(Update(num, e, H, R, v).1.P)
  {
    JosephSymmetric(e.P, Gain(num, e.P, H, R), H, R);
  }

  // ---------------------------------------------------------------------------
  // design_matrix_ekf

  /** R_valid: the diagonal of the leading n×n block of R, zero elsewhere. */
  method DiagonalOf(R0: array2<real>, n: nat) returns (R: array2<real>)
    requires n <= R0.Length0 && n <= R0.Length1
    ensures fresh(R) && R.Length0 == n && R.Length1 == n
    ensures Diagonal(Table(R)) && forall a :: 0 <= a < n ==> R[a, a] == R0[a, a]
  {
    R := new real[n, n]((_, _) => 0.0);
    for i := 0 to n
      invariant forall a, b :: 0 <= a < n && 0 <= b < n ==> R[a, b] == if a == b && a < i then R0[a, a] else 0.0
    {
      R[i, i] := R0[i, i];
    }
  }

  /** H[:n, :]: a copy of the leading n rows. */
  method LeadingRows(H0: array2<real>, n: nat) returns (H: array2<real>)
    requires n <= H0.Length0
    ensures fresh(H) && Table(H) == Block(H0, n, H0.Length1)
  {
    H := new real[n, H0.Length1]((i, j) requires 0 <= i < n && 0 <= j < H0.Length1 reads H0 => H0[i, j]);
    forall i | 0 <= i < n
      ensures Table(H)[i] == Block(H0, n, H0.Length1)[i]
    {
    }
  }

  /** The outputs of the builder cut to the nv accepted rows: v[:nv],
      H[:nv, :] and R_valid. */
  method Trim(nv: nat, v0: array<real>, H0: array2<real>, R0: array2<real>, ghost rows: seq<Row>)
      returns (v: array<real>, H: array2<real>, R: array2<real>)
    requires nv == |rows| <= v0.Length && EightWide(rows)
    requires nv <= H0.Length0 && H0.Length1 == 8 && nv <= R0.Length0 && nv <= R0.Length1
    requires v0[..nv] == Residuals(rows) && Block(H0, nv, 8) == Design(rows)
    requires Block(R0, nv, nv) == Weighting(rows)
    ensures fresh(v) && fresh(H) && fresh(R)
    ensures v[..] == Residuals(rows) && Table(H) == Design(rows) && Table(R) == Weighting(rows)
  {
    v := new real[nv](k requires 0 <= k < nv reads v0 => v0[k]);
    H := LeadingRows(H0, nv);
    R := DiagonalOf(R0, nv);
    assert v[..] == v0[..nv];
    forall a | 0 <= a < nv
      ensures Table(R)[a] == Weighting(rows)[a]
    {
      assert Weighting(rows)[a][a] == Block(R0, nv, nv)[a][a];
    }
  }

  /** design_matrix_ekf: the rows of pass iter at state x under measurement
      variances, trimmed to the nv rows accepted; at most two per satellite. */
  method DesignMatrixEkf(num: Numerics, iter: int, ns: nat, obs: Obs, allEph: seq<Eph>,
                         rs: array2<real>, dts: array2<real>, x: seq<real>)
      returns (nv: nat, v: array<real>, H: array2<real>, R: array2<real>)
    requires ns == |obs.sat| && WellFormed(Context(iter, obs, allEph, Table(rs), Table(dts), x))
    ensures fresh(v) && fresh(H) && fresh(R)
    ensures var rows := EpochRows(num, Variances, Context(iter, obs, allEph, Table(rs), Table(dts), x));
      && nv == |rows| <= 2 * ns
      && v[..] == Residuals(rows) && Table(H) == Design(rows) && Table(R) == Weighting(rows)
  {
    var v0, H0, R0;
    nv, v0, H0, R0 := BuildRows(num, Variances, iter, obs, allEph, rs, dts, x);
    ghost var rows := EpochRows(num, Variances, Context(iter, obs, allEph, Table(rs), Table(dts), x));
    HoldsSliced(v0, H0, R0, rows);
    v, H, R := Trim(nv, v0, H0, R0, rows);
  }

  // ---------------------------------------------------------------------------
  // ekf_iteration

  /** One pass of the update loop at an estimate: the step it takes and the
      corrected estimate, or None when the pass has fewer than eight rows. */
  type Pass = (int, Estimate) -> Option<(Vector, Estimate)>

  /** A pass maps a fitting estimate to an eight-entry step dx and a
      fitting estimate whose state is e.x + dx. */
  ghost predicate Sound(pass: Pass) {
    forall k: int, e: Estimate :: Fits(e) && pass(k, e).Some? ==>
      && |pass(k, e).value.0| == 8 && Fits(pass(k, e).value.1)
      && pass(k, e).value.1.x == VecAdd(e.x, pass(k, e).value.0)
  }

  /** Pass iter at estimate e over a builder: the rows at e.x and, when there
      are at least eight, the update with their design, noise and
      residuals. */
  function Step(num: Numerics, rowsAt: Builder, iter: int, e: Estimate): (r: Option<(Vector, Estimate)>)
    requires InverseLaw(num) && Wide(rowsAt) && Fits(e)
    ensures r.None? <==> |rowsAt(iter, e.x)| < 8
    ensures r.Some? ==> |r.value.0| == 8 && Fits(r.value.1) && r.value.1.x == VecAdd(e.x, r.value.0)
  {
    var rows := rowsAt(iter, e.x);
    if |rows| < 8 then None
    else Some(Update(num, e, Design(rows), Weighting(rows), Residuals(rows)))
  }

  /** pass agrees with Step over the builder at every fitting estimate. */
  ghost predicate Solves(num: Numerics, rowsAt: Builder, pass: Pass)
    requires InverseLaw(num) && Wide(rowsAt)
  {
    forall k: int, e: Estimate {:trigger Step(num, rowsAt, k, e)} ::
      Fits(e) ==> pass(k, e) == Step(num, rowsAt, k, e)
  }

  /** The passes of ekf_iteration over a builder. */
  function Updates(num: Numerics, rowsAt: Builder): (pass: Pass)
    requires InverseLaw(num) && Wide(rowsAt)
    ensures Sound(pass) && Solves(num, rowsAt, pass)
  {
    (k: int, e: Estimate) => if Fits(e) then Step(num, rowsAt, k, e) else None
  }

  /** Every update a pass makes keeps a symmetric covariance symmetric. */
  ghost predicate KeepsSymmetry(pass: Pass) {
    forall k: int, e: Estimate :: Fits(e) && Symmetric(e.P) && pass(k, e).Some? ==>
      Symmetric(pass(k, e).value.1.P)
  }

  /** The passes over any builder keep the covariance symmetric. */
  lemma UpdatesKeepSymmetry(num: Numerics, rowsAt: Builder)
    requires InverseLaw(num) && Wide(rowsAt)
    ensures KeepsSymmetry(Updates(num, rowsAt))
  {
    var pass := Updates(num, rowsAt);
    forall k: int, e: Estimate | Fits(e) && Symmetric(e.P) && pass(k, e).Some?
      ensures Symmetric(pass(k, e).value.1.P)
    {
      var rows := rowsAt(k, e.x);
      UpdateSymmetric(num, e, Design(rows), Weighting(rows), Residuals(rows));
    }
  }

  /** The estimate ekf_iteration returns when it reaches pass iter with
      estimate e: a pass without eight rows returns e as it is, any other
      applies its update and ends the loop when its step is small. */
  function EkfFrom(num: Numerics, pass: Pass, iter: nat, e: Estimate): (r: Estimate)
    requires Sound(pass) && Fits(e) && iter <= MAXITR
    ensures Fits(r)
    decreases MAXITR - iter
  {
    if iter == MAXITR then e
    else match pass(iter, e)
      case None => e
      case Some((dx, next)) =>
        if SmallStep(num, dx) then next else EkfFrom(num, pass, iter + 1, next)
  }

  /** A pass whose step is not small hands its estimate to the next pass. */
  lemma EkfFromGoesOn(num: Numerics, pass: Pass, iter: nat, e: Estimate)
    requires Sound(pass) && Fits(e) && iter < MAXITR
    requires pass(iter, e).Some? && !SmallStep(num, pass(iter, e).value.0)
    ensures Fits(pass(iter, e).value.1)
    ensures EkfFrom(num, pass, iter, e) == EkfFrom(num, pass, iter + 1, pass(iter, e).value.1)
  {
  }

  /** ekf_iteration: predict over dt, then run the update passes from the
      prediction. */
  function EkfIterationOf(num: Numerics, pass: Pass, e: Estimate, dt: real): (r: Estimate)
    requires Sound(pass) && Fits(e)
    ensures Fits(r)
  {
    EkfFrom(num, pass, 0, Predict(e, dt))
  }

  /** When the first pass has fewer than eight rows the result is exactly
      the prediction (F·x, F·P·Fᵀ + Q). */
  lemma EkfStarved(num: Numerics, rowsAt: Builder, e: Estimate, dt: real)
    requires InverseLaw(num) && Wide(rowsAt) && Fits(e)
    requires |rowsAt(0, MatVec(Transition(dt), e.x))| < 8
    ensures EkfIterationOf(num, Updates(num, rowsAt), e, dt) == Predict(e, dt)
  {
    var pass := Updates(num, rowsAt);
    assert pass(0, Predict(e, dt)) == Step(num, rowsAt, 0, Predict(e, dt));
  }

  /** A later pass without eight rows returns the estimate as corrected so
      far. */
  lemma EkfStopsStarved(num: Numerics, rowsAt: Builder, iter: nat, e: Estimate)
    requires InverseLaw(num) && Wide(rowsAt) && Fits(e) && iter < MAXITR
    requires |rowsAt(iter, e.x)| < 8
    ensures EkfFrom(num, Updates(num, rowsAt), iter, e) == e
  {
    var pass := Updates(num, rowsAt);
    assert pass(iter, e) == Step(num, rowsAt, iter, e);
  }

  /** Symmetry of the covariance survives the update passes. */
  lemma {:induction false} EkfFromSymmetric(num: Numerics, pass: Pass, iter: nat, e: Estimate)
    requires Sound(pass) && KeepsSymmetry(pass) && Fits(e) && Symmetric(e.P) && iter <= MAXITR
    ensures Symmetric(EkfFrom(num, pass, iter, e).P)
    decreases MAXITR - iter
  {
    if iter < MAXITR && pass(iter, e).Some? {
      var next := pass(iter, e).value.1;
      if !SmallStep(num, pass(iter, e).value.0) {
        EkfFromSymmetric(num, pass, iter + 1, next);
      }
    }
  }

  /** ekf_iteration keeps a symmetric covariance symmetric. */
  lemma EkfIterationSymmetric(num: Numerics, pass: Pass, e: Estimate, dt: real)
    requires Sound(pass) && KeepsSymmetry(pass) && Fits(e) && Symmetric(e.P)
    ensures Symmetric(EkfIterationOf(num, pass, e, dt).P)
  {
    PredictSymmetric(e.P, dt);
    EkfFromSymmetric(num, pass, 0, Predict(e, dt));
  }

  /** The steps ekf_iteration applies from pass iter at estimate e, in
      order; at most one a remaining pass. */
  function Applied(num: Numerics, pass: Pass, iter: nat, e: Estimate): (steps: seq<Vector>)
    requires Sound(pass) && Fits(e) && iter <= MAXITR
    ensures Wls.Sized(steps, 8) && |steps| <= MAXITR - iter
    decreases MAXITR - iter
  {
    if iter == MAXITR then []
    else match pass(iter, e)
      case None => []
      case Some((dx, next)) =>
        assert Wls.Sized([dx], 8);
        if SmallStep(num, dx) then [dx] else [dx] + Applied(num, pass, iter + 1, next)
  }

  /** The state ekf_iteration returns from pass iter is e.x plus the steps
      it applies, and every step but the last is not small. */
  lemma {:induction false} EkfSum(num: Numerics, pass: Pass, iter: nat, e: Estimate)
    requires Sound(pass) && Fits(e) && iter <= MAXITR
    ensures EkfFrom(num, pass, iter, e).x == Wls.Total(e.x, Applied(num, pass, iter, e))
    ensures Wls.Continues(num, Applied(num, pass, iter, e))
    decreases MAXITR - iter
  {
    var steps := Applied(num, pass, iter, e);
    if iter < MAXITR && pass(iter, e).Some? {
      var (dx, next) := pass(iter, e).value;
      assert next.x == VecAdd(e.x, dx);
      if SmallStep(num, dx) {
        assert steps == [dx];
        assert Wls.Total(e.x, steps) == Wls.Total(VecAdd(e.x, dx), []);
      } else {
        var rest := Applied(num, pass, iter + 1, next);
        EkfSum(num, pass, iter + 1, next);
        assert steps == [dx] + rest;
        assert steps[1..] == rest;
        assert Wls.Continues(num, rest);
        assert Wls.Continues(num, steps);
      }
    }
  }

  /** One pass of ekf_iteration at estimate e: build the trimmed rows at
      e.x and, with at least eight of them, apply the update. */
  method EkfPass(num: Numerics, iter: nat, ns: nat, obs: Obs, allEph: seq<Eph>,
                 rs: array2<real>, dts: array2<real>, e: Estimate, ghost b: Builder, ghost pass: Pass)
      returns (r: Option<(Vector, Estimate)>)
    requires InverseLaw(num) && ns == |obs.sat| && Fits(e) && iter < MAXITR
    requires WellFormed(Context(0, obs, allEph, Table(rs), Table(dts), Zeros(8)))
    requires Builds(num, Variances, Context(0, obs, allEph, Table(rs), Table(dts), Zeros(8)), b)
    requires Solves(num, b, pass)
    ensures r == pass(iter, e)
  {
    var nv, v, H, R := DesignMatrixEkf(num, iter, ns, obs, allEph, rs, dts, e.x);
    ghost var rows := EpochRows(num, Variances, Context(iter, obs, allEph, Table(rs), Table(dts), e.x));
    assert b(iter, e.x) == PassRows(num, Variances, Context(0, obs, allEph, Table(rs), Table(dts), Zeros(8)), iter, e.x);
    assert b(iter, e.x) == rows;
    assert pass(iter, e) == Step(num, b, iter, e);
    if nv < 8 {
      return None;
    }
    r := Some(Update(num, e, Table(H), Table(R), v[..]));
  }

  /** ekf_iteration: predict over dt, then at most MAXITR update passes,
      returning at once when a pass has fewer than eight rows and after
      the first step with norm below 1e-4. */
  method EkfIteration(num: Numerics, ns: nat, obs: Obs, allEph: seq<Eph>, rs: array2<real>, dts: array2<real>,
                      x0: Vector, P0: Matrix, dt: real, ghost b: Builder, ghost pass: Pass)
      returns (x: Vector, P: Matrix)
    requires InverseLaw(num) && ns == |obs.sat| && Fits(Estimate(x0, P0))
    requires WellFormed(Context(0, obs, allEph, Table(rs), Table(dts), Zeros(8)))
    requires Builds(num, Variances, Context(0, obs, allEph, Table(rs), Table(dts), Zeros(8)), b)
    requires Sound(pass) && Solves(num, b, pass)
    ensures Estimate(x, P) == EkfIterationOf(num, pass, Estimate(x0, P0), dt)
  {
    x := MatVec(Transition(dt), x0);
    P := PredictedCovariance(P0, dt);
    var iter := 0;
    while iter < MAXITR
      invariant iter <= MAXITR && Fits(Estimate(x, P))
      invariant EkfFrom(num, pass, iter, Estimate(x, P)) == EkfIterationOf(num, pass, Estimate(x0, P0), dt)
    {
      var e := Estimate(x, P);
      var r := EkfPass(num, iter, ns, obs, allEph, rs, dts, e, b, pass);
      if r.None? {
        return;
      }
      var dx := r.value.0;
      x, P := r.value.1.x, r.value.1.P;
      if num.sqrt(Dot(dx, dx)) < 1e-4 {
        return;
      }
      EkfFromGoesOn(num, pass, iter, e);
      iter := iter + 1;
    }
  }

  // ---------------------------------------------------------------------------
  // EKF_pos_vel_estimation

  /** The iteration of one epoch: the estimate ekf_iteration reaches from
      that epoch's data, the carried estimate and dt. */
  type Iterate = (Obs, Estimate, real) -> Estimate

  ghost predicate Keeps(go: Iterate) {
    forall obs, e, dt :: Fits(e) ==> Fits(go(obs, e, dt))
  }

  /** ekf_iteration over the passes of one epoch's satellites. */
  ghost function EpochIterate(num: Numerics, allEph: seq<Eph>, obs: Obs, e: Estimate, dt: real): (r: Estimate)
    requires InverseLaw(num) && ObsShaped(obs) && Fits(e)
    ensures Fits(r)
  {
    EpochWellFormed(num, obs, allEph, Zeros(8));
    EkfIterationOf(num, Updates(num, Passes(num, Variances, EpochContext(num, obs, allEph, Zeros(8)))), e, dt)
  }

  /** go agrees with EpochIterate on every well-shaped epoch and fitting
      estimate. */
  ghost predicate Follows(num: Numerics, allEph: seq<Eph>, go: Iterate) {
    forall obs, e, dt {:trigger EpochIterate(num, allEph, obs, e, dt)} ::
      InverseLaw(num) && ObsShaped(obs) && Fits(e) ==> go(obs, e, dt) == EpochIterate(num, allEph, obs, e, dt)
  }

  /** The per-epoch iteration of EKF_pos_vel_estimation. */
  ghost function Iterates(num: Numerics, allEph: seq<Eph>): (go: Iterate)
    ensures Keeps(go) && Follows(num, allEph, go)
  {
    (obs: Obs, e: Estimate, dt: real) =>
      if InverseLaw(num) && ObsShaped(obs) && Fits(e) then EpochIterate(num, allEph, obs, e, dt) else e
  }

  /** The iteration of every epoch keeps the covariance symmetric. */
  lemma EpochIterateSymmetric(num: Numerics, allEph: seq<Eph>, obs: Obs, e: Estimate, dt: real)
    requires InverseLaw(num) && ObsShaped(obs) && Fits(e) && Symmetric(e.P)
    ensures Symmetric(EpochIterate(num, allEph, obs, e, dt).P)
  {
    EpochWellFormed(num, obs, allEph, Zeros(8));
    var b := Passes(num, Variances, EpochContext(num, obs, allEph, Zeros(8)));
    UpdatesKeepSymmetry(num, b);
    EkfIterationSymmetric(num, Updates(num, b), e, dt);
  }

  /** What the filter carries between epochs: the estimate and the time tag
      of the last epoch it processed. */
  datatype FilterState = FilterState(e: Estimate, prev: Option<real>)

  /** initialize_ekf_state with no epoch processed yet. */
  function Start(): (s: FilterState)
    ensures Fits(s.e) && Symmetric(s.e.P) && s.prev.None?
  {
    InitialCovarianceShape();
    FilterState(Estimate(Zeros(8), InitialCovariance()), None)
  }

  /** The dt of an epoch at time t0: 0.1 for the first processed epoch, the
      difference of time tags after that. */
  function Interval(prev: Option<real>, t0: real): real {
    match prev
    case None => 0.1
    case Some(p) => t0 - p
  }

  /** The state after an epoch with at least four satellites. */
  ghost function Next(go: Iterate, s: FilterState, obs: Obs): (r: FilterState)
    requires Keeps(go) && Fits(s.e) && |obs.t| > 0
    ensures Fits(r.e)
  {
    FilterState(go(obs, s.e, Interval(s.prev, obs.t[0])), Some(obs.t[0]))
  }

  /** The state and records of EKF_pos_vel_estimation after the epochs of
      allObs: an epoch with fewer than four satellites changes nothing and
      gives no record; any other moves the state on and records its time
      tag, position and velocity. */
  ghost function Run(allObs: seq<Obs>, go: Iterate, s0: FilterState): (r: (FilterState, seq<seq<real>>))
    requires Keeps(go) && Fits(s0.e) && forall k :: 0 <= k < |allObs| ==> ObsShaped(allObs[k])
    ensures Fits(r.0.e)
    decreases |allObs|
  {
    if |allObs| == 0 then (s0, [])
    else
      var n := |allObs| - 1;
      var obs := allObs[n];
      assert ObsShaped(obs);
      var (s, out) := Run(allObs[..n], go, s0);
      if |obs.sat| < 4 then (s, out)
      else
        var s' := Next(go, s, obs);
        (s', out + [Record(obs, s'.e.x)])
  }

  /** Run over the first i + 1 epochs is Run over the first i followed by
      epoch i. */
  lemma RunStep(allObs: seq<Obs>, i: nat, go: Iterate, s0: FilterState)
    requires Keeps(go) && Fits(s0.e) && forall k :: 0 <= k < |allObs| ==> ObsShaped(allObs[k])
    requires i < |allObs|
    ensures var (s, out) := Run(allObs[..i], go, s0);
      Run(allObs[..i + 1], go, s0)
        == if |allObs[i].sat| < 4 then (s, out)
           else (Next(go, s, allObs[i]), out + [Record(allObs[i], Next(go, s, allObs[i]).e.x)])
  {
    assert allObs[..i + 1][..i] == allObs[..i];
    assert ObsShaped(allObs[i]);
  }

  /** One record for each epoch with at least four satellites, each seven
      wide and tagged with the first time of such an epoch; the time the
      filter keeps is the tag of one of those epochs, or the starting one
      when there is none. */
  lemma {:induction false} RunCount(allObs: seq<Obs>, go: Iterate, s0: FilterState)
    requires Keeps(go) && Fits(s0.e) && forall k :: 0 <= k < |allObs| ==> ObsShaped(allObs[k])
    ensures |Run(allObs, go, s0).1| == Wls.Usable(allObs) <= |allObs|
    ensures forall j :: 0 <= j < |Run(allObs, go, s0).1| ==>
      |Run(allObs, go, s0).1[j]| == 7 && Wls.Tagged(allObs, Run(allObs, go, s0).1[j][0])
    ensures Wls.Usable(allObs) == 0 ==> Run(allObs, go, s0).0.prev == s0.prev
    ensures 0 < Wls.Usable(allObs) ==>
      Run(allObs, go, s0).0.prev.Some? && Wls.Tagged(allObs, Run(allObs, go, s0).0.prev.value)
    decreases |allObs|
  {
    if |allObs| > 0 {
      var n := |allObs| - 1;
      var front := allObs[..n];
      var obs := allObs[n];
      RunCount(front, go, s0);
      var (s, out) := Run(front, go, s0);
      var (s1, out1) := Run(allObs, go, s0);
      forall t | Wls.Tagged(front, t)
        ensures Wls.Tagged(allObs, t)
      {
        var k :| 0 <= k < n && 4 <= |front[k].sat| && |front[k].t| > 0 && t == front[k].t[0];
        assert allObs[k] == front[k];
      }
      if 4 <= |obs.sat| {
        assert ObsShaped(obs);
        assert Wls.Tagged(allObs, obs.t[0]) by {
          assert 0 <= n < |allObs| && 4 <= |allObs[n].sat| && |allObs[n].t| > 0;
        }
        forall j | 0 <= j < |out1|
          ensures |out1[j]| == 7 && Wls.Tagged(allObs, out1[j][0])
        {
          if j < |out| {
            assert out1[j] == out[j];
          }
        }
      }
    }
  }

  /** The time tag of the last epoch of allObs with at least four satellites. */
  function LastTag(allObs: seq<Obs>): Option<real>
    decreases |allObs|
  {
    if |allObs| == 0 then None
    else
      var obs := allObs[|allObs| - 1];
      if 4 <= |obs.sat| && |obs.t| > 0 then Some(obs.t[0]) else LastTag(allObs[..|allObs| - 1])
  }

  /** The filter keeps the time tag of the last epoch it processed, and the
      one it started with while there is none. */
  lemma {:induction false} RunPrev(allObs: seq<Obs>, go: Iterate, s0: FilterState)
    requires Keeps(go) && Fits(s0.e) && forall k :: 0 <= k < |allObs| ==> ObsShaped(allObs[k])
    ensures Run(allObs, go, s0).0.prev == if LastTag(allObs).None? then s0.prev else LastTag(allObs)
    decreases |allObs|
  {
    if |allObs| > 0 {
      var n := |allObs| - 1;
      assert ObsShaped(allObs[n]);
      RunPrev(allObs[..n], go, s0);
    }
  }

  /** The dt of a processed epoch i: 0.1 when no epoch before it was
      processed, otherwise its time tag less that of the last processed one. */
  lemma EpochInterval(allObs: seq<Obs>, i: nat, go: Iterate)
    requires Keeps(go) && forall k :: 0 <= k < |allObs| ==> ObsShaped(allObs[k])
    requires i < |allObs| && 4 <= |allObs[i].sat|
    ensures var s := Run(allObs[..i], go, Start()).0;
      |allObs[i].t| > 0
      && (LastTag(allObs[..i]).None? ==> Interval(s.prev, allObs[i].t[0]) == 0.1)
      && (LastTag(allObs[..i]).Some? ==>
            Interval(s.prev, allObs[i].t[0]) == allObs[i].t[0] - LastTag(allObs[..i]).value)
  {
    assert ObsShaped(allObs[i]);
    RunPrev(allObs[..i], go, Start());
  }

  /** Symmetry of the covariance survives the whole run when each epoch's
      iteration keeps it. */
  lemma {:induction false} RunSymmetric(num: Numerics, allEph: seq<Eph>, allObs: seq<Obs>, go: Iterate, s0: FilterState)
    requires InverseLaw(num) && Keeps(go) && Follows(num, allEph, go)
    requires Fits(s0.e) && Symmetric(s0.e.P) && forall k :: 0 <= k < |allObs| ==> ObsShaped(allObs[k])
    ensures Symmetric(Run(allObs, go, s0).0.e.P)
    decreases |allObs|
  {
    if |allObs| > 0 {
      var n := |allObs| - 1;
      var obs := allObs[n];
      RunSymmetric(num, allEph, allObs[..n], go, s0);
      var s := Run(allObs[..n], go, s0).0;
      if 4 <= |obs.sat| {
        assert ObsShaped(obs);
        EpochIterateSymmetric(num, allEph, obs, s.e, Interval(s.prev, obs.t[0]));
        assert go(obs, s.e, Interval(s.prev, obs.t[0])) == EpochIterate(num, allEph, obs, s.e, Interval(s.prev, obs.t[0]));
      }
    }
  }

  /** The filter of EKF_pos_vel_estimation: the estimate (x, P) it carries
      from epoch to epoch and the time tag of the last epoch processed. */
  class Filter {
    var x: Vector
    var P: Matrix
    var prevTime: Option<real>

    function State(): FilterState
      reads this
    {
      FilterState(Estimate(x, P), prevTime)
    }

    /** The state is eight wide and its covariance symmetric. */
    ghost predicate Valid()
      reads this
    {
      Fits(Estimate(x, P)) && Symmetric(P)
    }

    /** initialize_ekf_state, before any epoch. */
    constructor ()
      ensures Valid() && State() == Start()
    {
      x := Zeros(8);
      P := InitialCovariance();
      prevTime := None;
      InitialCovarianceShape();
    }

    /** One pass of the epoch loop: an epoch with fewer than four
        satellites leaves the filter as it is and gives no record; any other
        runs ekf_iteration with the dt since the last processed epoch, keeps
        that epoch's time and gives its record. */
    method Epoch(num: Numerics, obs: Obs, allEph: seq<Eph>, ghost go: Iterate) returns (rec: Option<seq<real>>)
      requires Valid() && InverseLaw(num) && ObsShaped(obs) && Keeps(go) && Follows(num, allEph, go)
      modifies this
      ensures Valid()
      ensures |obs.sat| < 4 ==> State() == old(State()) && rec.None?
      ensures 4 <= |obs.sat| ==> State() == Next(go, old(State()), obs) && rec == Some(Record(obs, x))
    {
      var ns := |obs.sat|;
      if ns < 4 {
        return None;
      }
      var t0 := obs.t[0];
      var dt := if prevTime.None? then 0.1 else t0 - prevTime.value;
      prevTime := Some(t0);
      var next := EkfEpoch(num, obs, allEph, Estimate(x, P), dt, go);
      x, P := next.x, next.P;
      rec := Some(Record(obs, x));
    }
  }

  /** The body of the epoch loop for an epoch with at least four
      satellites: satposs, then ekf_iteration from the carried estimate. */
  method EkfEpoch(num: Numerics, obs: Obs, allEph: seq<Eph>, e: Estimate, dt: real, ghost go: Iterate)
      returns (r: Estimate)
    requires InverseLaw(num) && ObsShaped(obs) && Fits(e) && Symmetric(e.P) && Follows(num, allEph, go)
    ensures r == go(obs, e, dt) && Fits(r) && Symmetric(r.P)
  {
    var rs, dts := EpochTables(num, obs, allEph);
    EpochWellFormed(num, obs, allEph, Zeros(8));
    ghost var b := Passes(num, Variances, EpochContext(num, obs, allEph, Zeros(8)));
    var x, P := EkfIteration(num, |obs.sat|, obs, allEph, rs, dts, e.x, e.P, dt, b, Updates(num, b));
    r := Estimate(x, P);
    assert r == EpochIterate(num, allEph, obs, e, dt);
    EpochIterateSymmetric(num, allEph, obs, e, dt);
  }

  /** EKF_pos_vel_estimation: one filter over all epochs, one record per
      epoch with at least four satellites. */
  method EkfPosVel(num: Numerics, allObs: seq<Obs>, allEph: seq<Eph>, ghost go: Iterate)
      returns (out: seq<seq<real>>)
    requires InverseLaw(num) && forall k :: 0 <= k < |allObs| ==> ObsShaped(allObs[k])
    requires Keeps(go) && Follows(num, allEph, go)
    ensures out == Run(allObs, go, Start()).1
  {
    var f := new Filter();
    out := [];
    for i := 0 to |allObs|
      invariant f.Valid() && (f.State(), out) == Run(allObs[..i], go, Start())
    {
      RunStep(allObs, i, go, Start());
      var rec := f.Epoch(num, allObs[i], allEph, go);
      if rec.Some? {
        out := out + [rec.value];
      }
    }
    assert allObs[..|allObs|] == allObs;
  }
}
