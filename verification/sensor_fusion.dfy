/**
  The constant-velocity Kalman filter of the sensor-fusion component. The state
  is `(x, y, vx, vy)`; the sensor observes the whole state, so the observation
  matrix is the identity. All arithmetic is over the reals.
 */
module SensorFusion {
  import opened LinAlg

  const DefaultProcessVar: real := 0.05
  const DefaultMeasVar: real := 0.01
  /** Every diagonal entry of the covariance of a fresh filter. */
  const InitialVariance: real := 0.1

  /** State estimate `x`, its covariance `P`, process noise `Q` and measurement noise `R`. */
  datatype Filter = Filter(x: Vector, P: Matrix, Q: Matrix, R: Matrix)

  predicate WellFormed(f: Filter)
  {
    |f.x| == 4 && IsMatrix(f.P, 4, 4) && IsMatrix(f.Q, 4, 4) && IsMatrix(f.R, 4, 4)
  }

  /** A fresh filter: zero state, covariance `0.1 I`, noise matrices `processVar I` and `measVar I`. */
  function Init(processVar: real, measVar: real): (f: Filter)
    ensures WellFormed(f)
    ensures f.x == [0.0, 0.0, 0.0, 0.0]
    ensures forall i, j :: 0 <= i < 4 && 0 <= j < 4 ==>
      && f.P[i][j] == (if i == j then InitialVariance else 0.0)
      && f.Q[i][j] == (if i == j then processVar else 0.0)
      && f.R[i][j] == (if i == j then measVar else 0.0)
    ensures Symmetric(f.P) && Symmetric(f.Q) && Symmetric(f.R)
  {
    Filter(Zeros(4),
           MatScale(InitialVariance, Identity(4)),
           MatScale(processVar, Identity(4)),
           MatScale(measVar, Identity(4)))
  }

  /** The filter built with the default noise levels: `Q = 0.05 I` and `R = 0.01 I`. */
  function DefaultFilter(): (f: Filter)
    ensures WellFormed(f)
    ensures f.x == [0.0, 0.0, 0.0, 0.0]
    ensures forall i, j :: 0 <= i < 4 && 0 <= j < 4 ==>
      && f.P[i][j] == (if i == j then 0.1 else 0.0)
      && f.Q[i][j] == (if i == j then 0.05 else 0.0)
      && f.R[i][j] == (if i == j then 0.01 else 0.0)
  {
    Init(DefaultProcessVar, DefaultMeasVar)
  }

  // ---- predict ---------------------------------------------------------------

  /** The constant-velocity transition `F(dt)`: each position moves by `dt` times its velocity. */
  function Transition(dt: real): (F: Matrix)
    ensures IsMatrix(F, 4, 4)
  {
    [[1.0, 0.0, dt, 0.0],
     [0.0, 1.0, 0.0, dt],
     [0.0, 0.0, 1.0, 0.0],
     [0.0, 0.0, 0.0, 1.0]]
  }

  function Predict(f: Filter, dt: real): (r: Filter)
    requires WellFormed(f)
    ensures WellFormed(r)
    ensures r.Q == f.Q && r.R == f.R
  {
    var F := Transition(dt);
    Filter(MatVec(F, f.x), MatAdd(MatMul(MatMul(F, f.P), Transpose(F, 4)), f.Q), f.Q, f.R)
  }

  /**
    Entry `(i, j)` of `F(dt) P F(dt)ᵀ`, written out: a position row or column
    picks up `dt` times the matching velocity row or column.
   */
  function Propagated(P: Matrix, dt: real, i: nat, j: nat): real
    requires IsMatrix(P, 4, 4) && i < 4 && j < 4
  {
    P[i][j]
      + (if i < 2 then dt * P[i + 2][j] else 0.0)
      + (if j < 2 then dt * P[i][j + 2] else 0.0)
      + (if i < 2 && j < 2 then dt * dt * P[i + 2][j + 2] else 0.0)
  }

  lemma TransitionRow(dt: real, i: nat, v: Vector)
    requires i < 4 && |v| == 4
    ensures Dot(Transition(dt)[i], v) == v[i] + (if i < 2 then dt * v[i + 2] else 0.0)
  {
    var row := Transition(dt)[i];
    Dot4(row, v);
    if i == 0 {
      assert row == [1.0, 0.0, dt, 0.0];
    } else if i == 1 {
      assert row == [0.0, 1.0, 0.0, dt];
    } else if i == 2 {
      assert row == [0.0, 0.0, 1.0, 0.0];
    } else {
      assert row == [0.0, 0.0, 0.0, 1.0];
    }
  }

  /** Prediction moves each position by `dt` times its velocity and keeps the velocity. */
  lemma PredictState(f: Filter, dt: real)
    requires WellFormed(f)
    ensures Predict(f, dt).x == [f.x[0] + dt * f.x[2], f.x[1] + dt * f.x[3], f.x[2], f.x[3]]
  {
    TransitionApply(dt, f.x);
  }

  /** `F(dt) v` for a 4-vector `v`, written out. */
  lemma TransitionApply(dt: real, v: Vector)
    requires |v| == 4
    ensures MatVec(Transition(dt), v) == [v[0] + dt * v[2], v[1] + dt * v[3], v[2], v[3]]
  {
    var F := Transition(dt);
    var x' := MatVec(F, v);
    forall i | 0 <= i < 4
      ensures x'[i] == v[i] + (if i < 2 then dt * v[i + 2] else 0.0)
    {
      assert x'[i] == Dot(F[i], v);
      TransitionRow(dt, i, v);
    }
    var e := [v[0] + dt * v[2], v[1] + dt * v[3], v[2], v[3]];
    assert x'[0] == e[0] && x'[1] == e[1] && x'[2] == e[2] && x'[3] == e[3];
    assert |x'| == |e| == 4;
  }

  /** `F(dt) M` adds `dt` times the velocity rows of `M` to its position rows. */
  lemma TransitionTimes(M: Matrix, dt: real)
    requires IsMatrix(M, 4, 4)
    ensures forall i, j :: 0 <= i < 4 && 0 <= j < 4 ==>
      MatMul(Transition(dt), M)[i][j] == M[i][j] + (if i < 2 then dt * M[i + 2][j] else 0.0)
  {
    forall i, j | 0 <= i < 4 && 0 <= j < 4
      ensures MatMul(Transition(dt), M)[i][j] == M[i][j] + (if i < 2 then dt * M[i + 2][j] else 0.0)
    {
      TransitionRow(dt, i, Column(M, j));
    }
  }

  /** `M F(dt)ᵀ` adds `dt` times the velocity columns of `M` to its position columns. */
  lemma TimesTransitionT(M: Matrix, dt: real)
    requires IsMatrix(M, 4, 4)
    ensures forall i, j :: 0 <= i < 4 && 0 <= j < 4 ==>
      MatMul(M, Transpose(Transition(dt), 4))[i][j] == M[i][j] + (if j < 2 then dt * M[i][j + 2] else 0.0)
  {
    var F := Transition(dt);
    var Ft := Transpose(F, 4);
    forall i, j | 0 <= i < 4 && 0 <= j < 4
      ensures MatMul(M, Ft)[i][j] == M[i][j] + (if j < 2 then dt * M[i][j + 2] else 0.0)
    {
      assert Column(Ft, j) == F[j];
      DotCommutes(M[i], F[j]);
      TransitionRow(dt, j, M[i]);
    }
  }

  /** Composing the two one-sided steps gives the closed form `Propagated`. */
  lemma PropagatedEntry(P: Matrix, FP: Matrix, FPFt: Matrix, dt: real, i: nat, j: nat)
    requires IsMatrix(P, 4, 4) && IsMatrix(FP, 4, 4) && IsMatrix(FPFt, 4, 4) && i < 4 && j < 4
    requires FP[i][j] == P[i][j] + (if i < 2 then dt * P[i + 2][j] else 0.0)
    requires j < 2 ==> FP[i][j + 2] == P[i][j + 2] + (if i < 2 then dt * P[i + 2][j + 2] else 0.0)
    requires FPFt[i][j] == FP[i][j] + (if j < 2 then dt * FP[i][j + 2] else 0.0)
    ensures FPFt[i][j] == Propagated(P, dt, i, j)
  {
    if j < 2 && i < 2 {
      var c, d := P[i][j + 2], P[i + 2][j + 2];
      SameProduct(dt, FP[i][j + 2], c + dt * d);
      Distribute(dt, c, d);
    }
  }

  lemma Distribute(dt: real, c: real, d: real)
    ensures dt * (c + dt * d) == dt * c + dt * dt * d
  {
  }

  lemma ClosedForm(P: Matrix, FP: Matrix, FPFt: Matrix, dt: real)
    requires IsMatrix(P, 4, 4) && IsMatrix(FP, 4, 4) && IsMatrix(FPFt, 4, 4)
    requires forall i, j :: 0 <= i < 4 && 0 <= j < 4 ==>
      FP[i][j] == P[i][j] + (if i < 2 then dt * P[i + 2][j] else 0.0)
    requires forall i, j {:trigger FPFt[i][j]} :: 0 <= i < 4 && 0 <= j < 4 ==>
      FPFt[i][j] == FP[i][j] + (if j < 2 then dt * FP[i][j + 2] else 0.0)
    ensures forall i, j :: 0 <= i < 4 && 0 <= j < 4 ==> FPFt[i][j] == Propagated(P, dt, i, j)
  {
    forall i, j | 0 <= i < 4 && 0 <= j < 4
      ensures FPFt[i][j] == Propagated(P, dt, i, j)
    {
      if j < 2 {
        assert FP[i][j + 2] == P[i][j + 2] + (if i < 2 then dt * P[i + 2][j + 2] else 0.0);
      }
      PropagatedEntry(P, FP, FPFt, dt, i, j);
    }
  }

  /** The predicted covariance is `F P Fᵀ + Q`, entry by entry in closed form. */
  lemma PredictCovariance(f: Filter, dt: real)
    requires WellFormed(f)
    ensures forall i, j :: 0 <= i < 4 && 0 <= j < 4 ==>
      Predict(f, dt).P[i][j] == Propagated(f.P, dt, i, j) + f.Q[i][j]
  {
    var F := Transition(dt);
    var FP := MatMul(F, f.P);
    var FPFt := MatMul(FP, Transpose(F, 4));
    assert Predict(f, dt).P == MatAdd(FPFt, f.Q);
    TransitionTimes(f.P, dt);
    TimesTransitionT(FP, dt);
    ClosedForm(f.P, FP, FPFt, dt);
  }

  /** `predict(0)` keeps the state and only adds the process noise to the covariance. */
  lemma PredictZero(f: Filter)
    requires WellFormed(f)
    ensures Predict(f, 0.0).x == f.x
    ensures Predict(f, 0.0).P == MatAdd(f.P, f.Q)
  {
    PredictState(f, 0.0);
    PredictCovariance(f, 0.0);
    RowsEqual(Predict(f, 0.0).P, MatAdd(f.P, f.Q), 4, 4);
  }

  lemma PropagatedSymmetric(P: Matrix, dt: real, i: nat, j: nat)
    requires IsMatrix(P, 4, 4) && Symmetric(P) && i < 4 && j < 4
    ensures Propagated(P, dt, i, j) == Propagated(P, dt, j, i)
  {
    assert P[i][j] == P[j][i];
    if i < 2 && j < 2 {
      assert P[i + 2][j + 2] == P[j + 2][i + 2];
    }
    if i < 2 {
      assert P[i + 2][j] == P[j][i + 2];
    }
    if j < 2 {
      assert P[i][j + 2] == P[j + 2][i];
    }
  }

  /** With symmetric process noise, prediction keeps the covariance symmetric. */
  lemma PredictSymmetric(f: Filter, dt: real)
    requires WellFormed(f) && Symmetric(f.P) && Symmetric(f.Q)
    ensures Symmetric(Predict(f, dt).P)
  {
    PredictCovariance(f, dt);
    ClosedFormSymmetric(f.P, f.Q, Predict(f, dt).P, dt);
  }

  /** A matrix given entrywise by `Propagated(P) + Q` is symmetric when `P` and `Q` are. */
  lemma ClosedFormSymmetric(P: Matrix, Q: Matrix, P': Matrix, dt: real)
    requires IsMatrix(P, 4, 4) && IsMatrix(Q, 4, 4) && IsMatrix(P', 4, 4)
    requires Symmetric(P) && Symmetric(Q)
    requires forall i, j :: 0 <= i < 4 && 0 <= j < 4 ==> P'[i][j] == Propagated(P, dt, i, j) + Q[i][j]
    ensures Symmetric(P')
  {
    forall i, j | 0 <= i < 4 && 0 <= j < 4
      ensures P'[i][j] == P'[j][i]
    {
      PropagatedSymmetric(P, dt, i, j);
      assert Q[i][j] == Q[j][i];
    }
  }

  /** Two predictions move the position as far as one prediction over the summed interval. */
  lemma PredictTwice(f: Filter, dt1: real, dt2: real)
    requires WellFormed(f)
    ensures Predict(Predict(f, dt1), dt2).x == Predict(f, dt1 + dt2).x
  {
    var g := Predict(f, dt1);
    PredictState(f, dt1);
    PredictState(g, dt2);
    PredictState(f, dt1 + dt2);
    assert g.x[2] == f.x[2] && g.x[3] == f.x[3];
    assert Predict(g, dt2).x[0] == f.x[0] + (dt1 + dt2) * f.x[2];
    assert Predict(g, dt2).x[1] == f.x[1] + (dt1 + dt2) * f.x[3];
    var a, b := Predict(g, dt2).x, Predict(f, dt1 + dt2).x;
    assert |a| == |b| == 4;
    assert a[0] == b[0] && a[1] == b[1] && a[2] == b[2] && a[3] == b[3];
  }

  // ---- update ----------------------------------------------------------------

  /** The observation matrix `H`: the sensor measures the full state. */
  function Observation(): (H: Matrix)
    ensures IsMatrix(H, 4, 4)
  {
    Identity(4)
  }

  /** The innovation `z − H x`; with `H = I` it is the plain difference. */
  function Innovation(f: Filter, z: Vector): (y: Vector)
    requires WellFormed(f) && |z| == 4
    ensures y == VecSub(z, f.x)
  {
    MatVecIdentity(f.x);
    VecSub(z, MatVec(Observation(), f.x))
  }

  /** The innovation covariance `S = H P Hᵀ + R`; with `H = I` it is `P + R`. */
  function InnovationCovariance(f: Filter): (S: Matrix)
    requires WellFormed(f)
    ensures S == MatAdd(f.P, f.R)
  {
    var H := Observation();
    MatMulIdentityLeft(f.P, 4, 4);
    TransposeIdentity(4);
    MatMulIdentityRight(f.P, 4, 4);
    MatAdd(MatMul(MatMul(H, f.P), Transpose(H, 4)), f.R)
  }

  /**
    The Kalman gain `K = P Hᵀ S⁻¹`; it solves `K (P + R) = P`. It exists only
    when `S`, which is `P + R` by `InnovationCovariance`, is invertible.
   */
  ghost function Gain(f: Filter): (K: Matrix)
    requires WellFormed(f) && Invertible(MatAdd(f.P, f.R))
    ensures IsMatrix(K, 4, 4)
    ensures MatMul(K, MatAdd(f.P, f.R)) == f.P
  {
    var S := InnovationCovariance(f);
    var Si := Inverse(S);
    var PHt := MatMul(f.P, Transpose(Observation(), 4));
    TransposeIdentity(4);
    MatMulIdentityRight(f.P, 4, 4);
    MatMulAssoc(f.P, Si, S, 4, 4, 4, 4);
    MatMulIdentityRight(f.P, 4, 4);
    MatMul(PHt, Si)
  }

  /**
    The correction step for a given gain `K`: the state moves by `K` times the
    innovation and the covariance becomes `(I − K H) P`, which is `P − K P`.
   */
  function Correct(f: Filter, K: Matrix, z: Vector): (r: Filter)
    requires WellFormed(f) && IsMatrix(K, 4, 4) && |z| == 4
    ensures WellFormed(r)
    ensures r.Q == f.Q && r.R == f.R
    ensures r.x == VecAdd(f.x, MatVec(K, VecSub(z, f.x)))
    ensures r.P == MatSub(f.P, MatMul(K, f.P))
  {
    var H := Observation();
    var y := Innovation(f, z);
    CovarianceCorrection(K, f.P, 4);
    Filter(VecAdd(f.x, MatVec(K, y)), MatMul(MatSub(Identity(4), MatMul(K, H)), f.P), f.Q, f.R)
  }

  /**
    The measurement update: the correction step with the Kalman gain. It is
    defined only when the innovation covariance is invertible.
   */
  ghost function Update(f: Filter, z: Vector): (r: Filter)
    requires WellFormed(f) && |z| == 4
    requires Invertible(MatAdd(f.P, f.R))
    ensures WellFormed(r)
    ensures r.Q == f.Q && r.R == f.R
    ensures r.x == VecAdd(f.x, MatVec(Gain(f), VecSub(z, f.x)))
    ensures r.P == MatSub(f.P, MatMul(Gain(f), f.P))
  {
    Correct(f, Gain(f), z)
  }

  /** The gain is the only matrix `K` with `K (P + R) = P`. */
  lemma GainUnique(f: Filter, K: Matrix)
    requires WellFormed(f) && Invertible(MatAdd(f.P, f.R))
    requires IsMatrix(K, 4, 4) && MatMul(K, MatAdd(f.P, f.R)) == f.P
    ensures K == Gain(f)
  {
    CancelRight(K, Gain(f), MatAdd(f.P, f.R));
  }

  /** A measurement equal to the current estimate leaves the estimate where it is. */
  lemma UpdateAtEstimate(f: Filter)
    requires WellFormed(f)
    requires Invertible(MatAdd(f.P, f.R))
    ensures Update(f, f.x).x == f.x
  {
    CorrectionVanishes(Gain(f), f.x);
  }

  /** With symmetric `P` and `R` the update keeps the covariance symmetric. */
  lemma UpdateSymmetric(f: Filter, z: Vector)
    requires WellFormed(f) && |z| == 4
    requires Invertible(MatAdd(f.P, f.R))
    requires Symmetric(f.P) && Symmetric(f.R)
    ensures Symmetric(Update(f, z).P)
  {
    var S := MatAdd(f.P, f.R);
    var Si := Inverse(S);
    assert Symmetric(S) by {
      forall i, j | 0 <= i < 4 && 0 <= j < 4
        ensures S[i][j] == S[j][i]
      {
        assert f.P[i][j] == f.P[j][i] && f.R[i][j] == f.R[j][i];
      }
    }
    InverseSymmetric(S);
    GainIsProductWithInverse(f);
    SandwichSymmetric(f.P, Si, 4);
    SubSymmetric(f.P, MatMul(MatMul(f.P, Si), f.P), 4);
  }

  /** The gain is `P S⁻¹`, the source's `P Hᵀ S⁻¹` with `H = I`. */
  lemma GainIsProductWithInverse(f: Filter)
    requires WellFormed(f) && Invertible(MatAdd(f.P, f.R))
    ensures Gain(f) == MatMul(f.P, Inverse(MatAdd(f.P, f.R)))
  {
    var S := MatAdd(f.P, f.R);
    var Si := Inverse(S);
    calc {
      MatMul(MatMul(f.P, Si), S);
      { MatMulAssoc(f.P, Si, S, 4, 4, 4, 4); }
      MatMul(f.P, Identity(4));
      { MatMulIdentityRight(f.P, 4, 4); }
      f.P;
    }
    GainUnique(f, MatMul(f.P, Si));
  }

  /** One predict/update cycle keeps a four-vector state and a 4×4 covariance. */
  lemma CycleKeepsShapes(f: Filter, dt: real, z: Vector)
    requires WellFormed(f) && |z| == 4
    requires Invertible(MatAdd(Predict(f, dt).P, Predict(f, dt).R))
    ensures |Update(Predict(f, dt), z).x| == 4
    ensures IsMatrix(Update(Predict(f, dt), z).P, 4, 4)
  {
  }
}
