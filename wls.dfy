/** Weighted least-squares point positioning (wls.py): the builder of the
    residuals, design matrix and weights, the normal-equation solve lst, the
    bounded Gauss-Newton loop estpos that starts from the zero state, and the
    epoch loop that emits one record per epoch with at least four
    satellites. */
module Wls {
  import opened Numerics
  import opened Matrices
  import opened GnssCommon
  import opened Measurements

  /** Largest number of passes of estpos. */
  const MAXITR: nat := 10

  /** design_wetight_matrix_wls: buffers for two rows a satellite, returned
      untrimmed, with the rows of the epoch in front and zeros after them. */
  method DesignWeightMatrixWls(num: Numerics, iter: int, ns: nat, obs: Obs, allEph: seq<Eph>,
                               rs: array2<real>, dts: array2<real>, x: seq<real>)
      returns (nv: nat, v: array<real>, H: array2<real>, P: array2<real>)
    requires ns == |obs.sat| && WellFormed(Context(iter, obs, allEph, Table(rs), Table(dts), x))
    ensures fresh(v) && fresh(H) && fresh(P)
    ensures v.Length == 2 * ns
    ensures var rows := EpochRows(num, Weights, Context(iter, obs, allEph, Table(rs), Table(dts), x));
      nv == |rows| && Holds(v, H, P, rows)
  {
    nv, v, H, P := BuildRows(num, Weights, iter, obs, allEph, rs, dts, x);
  }

  // ---------------------------------------------------------------------------
  // lst

  /** HᵀP for an m×n design matrix H and an m×m weight matrix P. */
  function WeightedTranspose(H: Matrix, P: Matrix, n: nat): (A: Matrix)
    requires IsMatrix(H, |H|, n) && IsMatrix(P, |H|, |H|)
    ensures IsMatrix(A, n, |H|)
  {
    MatMul(Transpose(H, n), P, |H|)
  }

  /** The normal matrix HᵀPH. */
  function NormalMatrix(H: Matrix, P: Matrix, n: nat): (N: Matrix)
    requires IsMatrix(H, |H|, n) && IsMatrix(P, |H|, |H|)
    ensures IsMatrix(N, n, n)
  {
    MatMul(WeightedTranspose(H, P, n), H, n)
  }

  /** lst: the step inv(HᵀPH)·HᵀPv. It solves the normal equations
      (HᵀPH)·dx = HᵀPv whenever HᵀPH is invertible. */
  function Lst(num: Numerics, H: Matrix, P: Matrix, v: Vector, n: nat): (dx: Vector)
    requires InverseLaw(num)
    requires IsMatrix(H, |H|, n) && IsMatrix(P, |H|, |H|) && |v| == |H|
    ensures |dx| == n
    ensures Invertible(NormalMatrix(H, P, n)) ==>
      MatVec(NormalMatrix(H, P, n), dx) == MatVec(WeightedTranspose(H, P, n), v)
  {
    var N := NormalMatrix(H, P, n);
    var b := MatVec(WeightedTranspose(H, P, n), v);
    InverseSolves(num, N, b);
    MatVec(num.inv(N), b)
  }

  /** inv(N)·b solves N·y = b for invertible N. */
  lemma InverseSolves(num: Numerics, N: Matrix, b: Vector)
    requires InverseLaw(num) && IsMatrix(N, |N|, |N|) && |b| == |N|
    ensures IsMatrix(num.inv(N), |N|, |N|)
    ensures Invertible(N) ==> MatVec(N, MatVec(num.inv(N), b)) == b
  {
    if Invertible(N) {
      MatVecAssoc(N, num.inv(N), |N|, b);
      MatVecIdentity(b);
    }
  }

  /** The step of lst is the only solution of the normal equations. */
  lemma LstUnique(num: Numerics, H: Matrix, P: Matrix, v: Vector, n: nat, y: Vector)
    requires InverseLaw(num)
    requires IsMatrix(H, |H|, n) && IsMatrix(P, |H|, |H|) && |v| == |H| && |y| == n
    requires Invertible(NormalMatrix(H, P, n))
    requires MatVec(NormalMatrix(H, P, n), y) == MatVec(WeightedTranspose(H, P, n), v)
    ensures y == Lst(num, H, P, v, n)
  {
    var N := NormalMatrix(H, P, n);
    var M := num.inv(N);
    MatVecAssoc(M, N, n, y);
    MatVecIdentity(y);
  }

  // ---------------------------------------------------------------------------
  // estpos

  /** One pass of estpos: what the pass at a given iteration number and
      state returns, None when it has fewer than eight rows. */
  type Pass = (int, Vector) -> Option<Vector>

  /** Every step a pass returns at an eight-entry state has eight entries. */
  ghost predicate Sound(pass: Pass) {
    forall k: int, y: Vector :: |y| == 8 && pass(k, y).Some? ==> |pass(k, y).value| == 8
  }

  /** The pass of estpos at state x: the rows the builder gives and, when
      there are at least eight, the step lst solves for. */
  function Step(num: Numerics, rowsAt: Builder, iter: int, x: Vector): (dx: Option<Vector>)
    requires InverseLaw(num) && Wide(rowsAt) && |x| == 8
    ensures dx.None? <==> |rowsAt(iter, x)| < 8
    ensures dx.Some? ==> |dx.value| == 8
  {
    var rows := rowsAt(iter, x);
    if |rows| < 8 then None
    else Some(Lst(num, Design(rows), Weighting(rows), Residuals(rows), 8))
  }

  /** pass agrees with Step over the builder at every eight-entry state. */
  ghost predicate Solves(num: Numerics, rowsAt: Builder, pass: Pass)
    requires InverseLaw(num) && Wide(rowsAt)
  {
    forall k: int, y: Vector {:trigger Step(num, rowsAt, k, y)} ::
      |y| == 8 ==> pass(k, y) == Step(num, rowsAt, k, y)
  }

  /** The passes of estpos over a builder. */
  function Lsts(num: Numerics, rowsAt: Builder): (pass: Pass)
    requires InverseLaw(num) && Wide(rowsAt)
    ensures Sound(pass) && Solves(num, rowsAt, pass)
  {
    (k: int, y: Vector) => if |y| == 8 then Step(num, rowsAt, k, y) else None
  }

  /** The state estpos returns when it reaches pass iter with state x; after
      MAXITR passes the state is returned as it is. */
  function EstposFrom(num: Numerics, pass: Pass, iter: nat, x: Vector): (r: Vector)
    requires Sound(pass) && |x| == 8 && iter <= MAXITR
    ensures |r| == 8
    decreases MAXITR - iter, 1
  {
    if iter == MAXITR then x else Advance(num, pass, iter, x)
  }

  /** Pass iter and the ones after it: a pass without eight rows changes
      nothing, any other adds its step and ends the loop when that step is
      small. */
  function Advance(num: Numerics, pass: Pass, iter: nat, x: Vector): (r: Vector)
    requires Sound(pass) && |x| == 8 && iter < MAXITR
    ensures |r| == 8
    decreases MAXITR - iter, 0
  {
    match pass(iter, x)
    case None => EstposFrom(num, pass, iter + 1, x)
    case Some(dx) =>
      var y := VecAdd(x, dx);
      if SmallStep(num, dx) then y else EstposFrom(num, pass, iter + 1, y)
  }

  /** The result of estpos: the passes of lst from the zero state. */
  function EstposOf(num: Numerics, rowsAt: Builder): Vector
    requires InverseLaw(num) && Wide(rowsAt)
  {
    EstposFrom(num, Lsts(num, rowsAt), 0, Zeros(8))
  }

  /** When no remaining pass gives a step, the state is returned as it is. */
  lemma {:induction false} EstposStarved(num: Numerics, pass: Pass, iter: nat, x: Vector)
    requires Sound(pass) && |x| == 8 && iter <= MAXITR
    requires forall k :: iter <= k < MAXITR ==> pass(k, x).None?
    ensures EstposFrom(num, pass, iter, x) == x
    decreases MAXITR - iter
  {
    if iter < MAXITR {
      EstposStarved(num, pass, iter + 1, x);
    }
  }

  /** If no pass of estpos has eight rows, its result is the zero vector. */
  lemma EstposZero(num: Numerics, rowsAt: Builder)
    requires InverseLaw(num) && Wide(rowsAt)
    requires forall k :: 0 <= k < MAXITR ==> |rowsAt(k, Zeros(8))| < 8
    ensures EstposOf(num, rowsAt) == Zeros(8)
  {
    var pass := Lsts(num, rowsAt);
    forall k | 0 <= k < MAXITR
      ensures pass(k, Zeros(8)).None?
    {
      assert pass(k, Zeros(8)) == Step(num, rowsAt, k, Zeros(8));
    }
    EstposStarved(num, pass, 0, Zeros(8));
  }

  /** Every vector of vs has n entries. */
  predicate Sized(vs: seq<Vector>, n: nat) {
    forall k :: 0 <= k < |vs| ==> |vs[k]| == n
  }

  /** The steps estpos applies from pass iter at state x, in order; at most
      one a remaining pass. */
  function Applied(num: Numerics, pass: Pass, iter: nat, x: Vector): (steps: seq<Vector>)
    requires Sound(pass) && |x| == 8 && iter <= MAXITR
    ensures Sized(steps, 8) && |steps| <= MAXITR - iter
    decreases MAXITR - iter
  {
    if iter == MAXITR then []
    else match pass(iter, x)
      case None => Applied(num, pass, iter + 1, x)
      case Some(dx) =>
        assert Sized([dx], 8);
        if SmallStep(num, dx) then [dx] else [dx] + Applied(num, pass, iter + 1, VecAdd(x, dx))
  }

  /** x plus every step in turn. */
  function Total(x: Vector, steps: seq<Vector>): Vector
    requires Sized(steps, |x|)
    decreases |steps|
  {
    if |steps| == 0 then x else Total(VecAdd(x, steps[0]), steps[1..])
  }

  /** estpos from pass iter returns x plus the steps it applies. */
  lemma {:induction false} EstposSum(num: Numerics, pass: Pass, iter: nat, x: Vector)
    requires Sound(pass) && |x| == 8 && iter <= MAXITR
    ensures EstposFrom(num, pass, iter, x) == Total(x, Applied(num, pass, iter, x))
    decreases MAXITR - iter
  {
    if iter < MAXITR {
      var st := pass(iter, x);
      if st.None? {
        EstposSum(num, pass, iter + 1, x);
      } else if SmallStep(num, st.value) {
        assert Total(x, [st.value]) == Total(VecAdd(x, st.value), []);
      } else {
        var y := VecAdd(x, st.value);
        var steps := [st.value] + Applied(num, pass, iter + 1, y);
        EstposSum(num, pass, iter + 1, y);
        assert steps[0] == st.value && steps[1..] == Applied(num, pass, iter + 1, y);
      }
    }
  }

  /** Every step of steps but the last is not small. */
  predicate Continues(num: Numerics, steps: seq<Vector>) {
    forall k :: 0 <= k < |steps| - 1 ==> !SmallStep(num, steps[k])
  }

  /** Every step estpos applies but the last is not small: the loop goes on
      exactly while the steps stay large. */
  lemma {:induction false} AppliedContinues(num: Numerics, pass: Pass, iter: nat, x: Vector)
    requires Sound(pass) && |x| == 8 && iter <= MAXITR
    ensures Continues(num, Applied(num, pass, iter, x))
    decreases MAXITR - iter
  {
    if iter < MAXITR {
      var st := pass(iter, x);
      if st.None? {
        AppliedContinues(num, pass, iter + 1, x);
      } else if !SmallStep(num, st.value) {
        var y := VecAdd(x, st.value);
        var rest := Applied(num, pass, iter + 1, y);
        var steps := [st.value] + rest;
        AppliedContinues(num, pass, iter + 1, y);
        assert Continues(num, rest);
        forall k | 0 <= k < |steps| - 1
          ensures !SmallStep(num, steps[k])
        {
          if k == 0 {
            assert steps[k] == st.value;
          } else {
            assert steps[k] == rest[k - 1];
          }
        }
        assert Continues(num, steps);
      }
    }
  }

  /** x += dx on the state buffer. */
  method AddTo(x: array<real>, dx: Vector)
    requires x.Length == |dx|
    modifies x
    ensures x[..] == VecAdd(old(x[..]), dx)
  {
    for j := 0 to x.Length
      invariant forall k :: 0 <= k < x.Length ==> x[k] == if k < j then old(x[k]) + dx[k] else old(x[k])
    {
      x[j] := x[j] + dx[j];
    }
  }

  /** estpos: from the zero state, at most MAXITR passes; a pass with fewer
      than eight rows is skipped, any other adds the step of lst to x and
      stops the loop when that step has norm below 1e-4. The builder b and
      its passes are those of design_wetight_matrix_wls over this epoch. */
  method Estpos(num: Numerics, ns: nat, obs: Obs, allEph: seq<Eph>, rs: array2<real>, dts: array2<real>,
                ghost b: Builder, ghost pass: Pass)
      returns (x: array<real>)
    requires InverseLaw(num) && ns == |obs.sat|
    requires WellFormed(Context(0, obs, allEph, Table(rs), Table(dts), Zeros(8)))
    requires Builds(num, Weights, Context(0, obs, allEph, Table(rs), Table(dts), Zeros(8)), b)
    requires Sound(pass) && Solves(num, b, pass)
    ensures fresh(x)
    ensures x[..] == EstposFrom(num, pass, 0, Zeros(8))
  {
    x := new real[8](_ => 0.0);
    assert x[..] == Zeros(8);
    var iter := 0;
    while iter < MAXITR
      invariant iter <= MAXITR && x.Length == 8
      invariant EstposFrom(num, pass, iter, x[..]) == EstposFrom(num, pass, 0, Zeros(8))
    {
      var step := EstposPass(num, iter, ns, obs, allEph, rs, dts, x[..], b, pass);
      if step.None? {
        iter := iter + 1;
        continue;
      }
      var dx := step.value;
      AddTo(x, dx);
      if num.sqrt(Dot(dx, dx)) < 1e-4 {
        return;
      }
      iter := iter + 1;
    }
  }

  /** The body of the estpos loop up to x += dx: design_wetight_matrix_wls at
      state x and, when it gives at least eight rows, the step of lst over
      the leading nv rows. */
  method EstposPass(num: Numerics, iter: nat, ns: nat, obs: Obs, allEph: seq<Eph>,
                    rs: array2<real>, dts: array2<real>, x: Vector, ghost b: Builder, ghost pass: Pass)
      returns (dx: Option<Vector>)
    requires InverseLaw(num) && ns == |obs.sat| && |x| == 8 && iter < MAXITR
    requires WellFormed(Context(0, obs, allEph, Table(rs), Table(dts), Zeros(8)))
    requires Builds(num, Weights, Context(0, obs, allEph, Table(rs), Table(dts), Zeros(8)), b)
    requires Sound(pass) && Solves(num, b, pass)
    ensures dx == pass(iter, x)
  {
    var nv, v, H, P := DesignWeightMatrixWls(num, iter, ns, obs, allEph, rs, dts, x);
    ghost var rows := EpochRows(num, Weights, Context(iter, obs, allEph, Table(rs), Table(dts), x));
    assert b(iter, x) == PassRows(num, Weights, Context(0, obs, allEph, Table(rs), Table(dts), Zeros(8)), iter, x);
    assert b(iter, x) == rows;
    assert pass(iter, x) == Step(num, b, iter, x);
    if nv < 8 {
      return None;
    }
    HoldsSliced(v, H, P, rows);
    dx := Some(Lst(num, Block(H, nv, 8), Block(P, nv, nv), v[..nv], 8));
  }

  // ---------------------------------------------------------------------------
  // The epoch loop

  /** A per-epoch solver: the state it reaches from one epoch's data. */
  type Solver = Obs -> seq<real>

  ghost predicate EightOut(fix: Solver) {
    forall obs :: |fix(obs)| == 8
  }

  /** estpos started from zeros on one epoch, after satposs, as
      WLS_pos_vel_estimation calls it. */
  ghost function EpochFix(num: Numerics, allEph: seq<Eph>, obs: Obs): (x: seq<real>)
    requires InverseLaw(num) && ObsShaped(obs)
    ensures |x| == 8
  {
    EpochWellFormed(num, obs, allEph, Zeros(8));
    EstposOf(num, Passes(num, Weights, EpochContext(num, obs, allEph, Zeros(8))))
  }

  /** fix gives the state of EpochFix for every well-shaped epoch. */
  ghost predicate Fixed(num: Numerics, allEph: seq<Eph>, fix: Solver) {
    forall obs {:trigger EpochFix(num, allEph, obs)} ::
      InverseLaw(num) && ObsShaped(obs) ==> fix(obs) == EpochFix(num, allEph, obs)
  }

  /** The solver of WLS_pos_vel_estimation. */
  ghost function Fixes(num: Numerics, allEph: seq<Eph>): (fix: Solver)
    ensures EightOut(fix) && Fixed(num, allEph, fix)
  {
    (obs: Obs) => if InverseLaw(num) && ObsShaped(obs) then EpochFix(num, allEph, obs) else Zeros(8)
  }

  /** The records of WLS_pos_vel_estimation: an epoch with fewer than four
      satellites gives none; any other gives its time tag and the position
      and velocity the solver finds from that epoch alone. */
  ghost function WlsRecords(allObs: seq<Obs>, fix: Solver): (out: seq<seq<real>>)
    requires EightOut(fix) && forall k :: 0 <= k < |allObs| ==> ObsShaped(allObs[k])
    decreases |allObs|
  {
    if |allObs| == 0 then []
    else
      var n := |allObs| - 1;
      var obs := allObs[n];
      assert ObsShaped(obs);
      WlsRecords(allObs[..n], fix) + if |obs.sat| < 4 then [] else [Record(obs, fix(obs))]
  }

  /** Number of epochs with at least four satellites. */
  function Usable(allObs: seq<Obs>): nat {
    if |allObs| == 0 then 0
    else Usable(allObs[..|allObs| - 1]) + if |allObs[|allObs| - 1].sat| < 4 then 0 else 1
  }

  /** t is the first time tag of an epoch with at least four satellites. */
  ghost predicate Tagged(allObs: seq<Obs>, t: real) {
    exists k :: 0 <= k < |allObs| && 4 <= |allObs[k].sat| && |allObs[k].t| > 0 && t == allObs[k].t[0]
  }

  /** One record for each epoch with at least four satellites, each seven
      wide and tagged with the first time of such an epoch. */
  lemma {:induction false} WlsRecordsCount(allObs: seq<Obs>, fix: Solver)
    requires EightOut(fix) && forall k :: 0 <= k < |allObs| ==> ObsShaped(allObs[k])
    ensures |WlsRecords(allObs, fix)| == Usable(allObs) <= |allObs|
    ensures forall j :: 0 <= j < |WlsRecords(allObs, fix)| ==>
      |WlsRecords(allObs, fix)[j]| == 7 && Tagged(allObs, WlsRecords(allObs, fix)[j][0])
    decreases |allObs|
  {
    if |allObs| > 0 {
      var n := |allObs| - 1;
      var pre := WlsRecords(allObs[..n], fix);
      WlsRecordsCount(allObs[..n], fix);
      var out := WlsRecords(allObs, fix);
      assert out[..|pre|] == pre;
      forall j | 0 <= j < |out|
        ensures |out[j]| == 7 && Tagged(allObs, out[j][0])
      {
        if j < |pre| {
          assert out[j] == pre[j];
          assert Tagged(allObs[..n], pre[j][0]);
          var k :| 0 <= k < n && 4 <= |allObs[..n][k].sat| && |allObs[..n][k].t| > 0 && pre[j][0] == allObs[..n][k].t[0];
          assert allObs[..n][k] == allObs[k];
        } else {
          assert ObsShaped(allObs[n]);
          assert out[j][0] == allObs[n].t[0];
        }
      }
    }
  }

  /** WLS_pos_vel_estimation over epochs already read: satposs, then estpos
      from scratch, for every epoch with at least four satellites. The
      records are those of WlsRecords for the solver fix, which Fixes gives
      and any solver agreeing with EpochFix matches. */
  method WlsPosVel(num: Numerics, allObs: seq<Obs>, allEph: seq<Eph>, ghost fix: Solver)
      returns (out: seq<seq<real>>)
    requires InverseLaw(num) && forall k :: 0 <= k < |allObs| ==> ObsShaped(allObs[k])
    requires EightOut(fix) && Fixed(num, allEph, fix)
    ensures out == WlsRecords(allObs, fix)
  {
    out := [];
    for i := 0 to |allObs|
      invariant out == WlsRecords(allObs[..i], fix)
    {
      assert allObs[..i + 1][..i] == allObs[..i];
      var obs := allObs[i];
      if |obs.sat| < 4 {
        continue;
      }
      var x := WlsEpoch(num, obs, allEph, fix);
      out := out + [Record(obs, x)];
    }
    assert allObs[..|allObs|] == allObs;
  }

  /** One epoch of WLS_pos_vel_estimation: satposs, then estpos. */
  method WlsEpoch(num: Numerics, obs: Obs, allEph: seq<Eph>, ghost fix: Solver) returns (x: seq<real>)
    requires InverseLaw(num) && ObsShaped(obs) && Fixed(num, allEph, fix)
    ensures x == fix(obs)
  {
    var rs, dts := EpochTables(num, obs, allEph);
    EpochWellFormed(num, obs, allEph, Zeros(8));
    ghost var b := Passes(num, Weights, EpochContext(num, obs, allEph, Zeros(8)));
    var state := Estpos(num, |obs.sat|, obs, allEph, rs, dts, b, Lsts(num, b));
    x := state[..];
    assert x == EpochFix(num, allEph, obs);
  }
}
