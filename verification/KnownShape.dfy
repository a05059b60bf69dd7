/** A state entry that starts without variance stays as it is: the filter of
    tools/extended_kalman_filter.cpp, with the models of tasks/auto_aim/target.cpp, never
    changes the shape of a target whose shape is known. */
module KnownShape {
  import opened Matrix
  import opened Ekf
  import opened Target

  /** Entry i has no variance, and no covariance with any other. */
  ghost predicate Certain(P: Mat, i: nat) {
    i < P.rows == P.cols && P.row[i] == Zeros(P.cols)
  }

  lemma ZeroRow(A: Mat, B: Mat, i: nat)
    requires A.cols == B.rows && i < A.rows && A.row[i] == Zeros(A.cols)
    ensures Mul(A, B).row[i] == Zeros(B.cols)
  {
    var T := Transpose(B);
    forall j | 0 <= j < B.cols ensures Apply(T, Zeros(A.cols))[j] == 0.0 {
      DotComm(T.row[j], Zeros(A.cols));
      DotZeros(A.cols, T.row[j]);
    }
  }

  lemma UnitRow(A: Mat, B: Mat, i: nat)
    requires A.cols == B.rows && i < A.rows && i < A.cols && A.row[i] == Unit(A.cols, i)
    ensures Mul(A, B).row[i] == B.row[i]
  {
    var T := Transpose(B);
    forall j | 0 <= j < B.cols ensures Apply(T, A.row[i])[j] == B.row[i][j] { DotUnit(T.row[j], i); }
  }

  lemma SumOfRows(A: Mat, B: Mat, i: nat)
    requires A.rows == B.rows && A.cols == B.cols && i < A.rows
    requires A.row[i] == Zeros(A.cols) && B.row[i] == Zeros(A.cols)
    ensures MAdd(A, B).row[i] == Zeros(A.cols)
  {
  }

  /** A congruence with a matrix that leaves entry i alone. */
  lemma CertainCongruence(M: Mat, P: Mat, i: nat)
    requires M.rows == M.cols == P.rows && Certain(P, i) && M.row[i] == Unit(M.cols, i)
    ensures Congruence(M, P).row[i] == Zeros(M.rows)
  {
    UnitRow(M, P, i);
    ZeroRow(Mul(M, P), Transpose(M), i);
  }

  // ----- Predictions -----

  /** Only the radii and the height difference have neither speed nor noise. */
  lemma PredictedStaysCertain(P: Mat, dt: real, v1: real, v2: real, i: nat)
    requires Square(P, DIM) && Certain(P, i) && 8 <= i
    ensures Certain(Predicted(Transition(dt), P, ProcessNoise(dt, v1, v2)), i)
  {
    var F, Q := Transition(dt), ProcessNoise(dt, v1, v2);
    assert F.row[i] == Unit(DIM, i);
    assert Q.row[i] == Zeros(DIM);
    CertainCongruence(F, P, i);
    SumOfRows(Congruence(F, P), Q, i);
  }

  // ----- Updates -----

  /** The gain of the source, P H' S^-1, with whatever inverse() returns. */
  function GainOf(P: Mat, H: Mat, Sinv: Mat): (K: Mat)
    requires P.rows == P.cols == H.cols && Square(Sinv, H.rows)
    ensures K.rows == H.cols && K.cols == H.rows
  {
    Mul(Mul(P, Transpose(H)), Sinv)
  }

  lemma NoGain(P: Mat, H: Mat, Sinv: Mat, i: nat)
    requires P.rows == P.cols == H.cols && Square(Sinv, H.rows) && Certain(P, i)
    ensures GainOf(P, H, Sinv).row[i] == Zeros(H.rows)
  {
    ZeroRow(P, Transpose(H), i);
    ZeroRow(Mul(P, Transpose(H)), Sinv, i);
  }

  /** Main result 1: no measurement moves such an entry, and it stays certain. */
  lemma UpdatedStaysCertain(P: Mat, H: Mat, R: Mat, Sinv: Mat, x: Vec, r: Vec, i: nat)
    requires P.rows == P.cols == H.cols == |x| && R.rows == R.cols == H.rows == |r| && Square(Sinv, H.rows)
    requires Certain(P, i)
    ensures var K := GainOf(P, H, Sinv);
      Add(x, Apply(K, r))[i] == x[i] && Certain(Joseph(P, H, R, K), i)
  {
    var K := GainOf(P, H, Sinv);
    NoGain(P, H, Sinv, i);
    DotZeros(H.rows, r);
    var M := Residual(K, H);
    ZeroRow(K, H, i);
    assert M.row[i] == Sub(Identity(H.cols).row[i], Zeros(H.cols));
    assert M.row[i] == Unit(H.cols, i);
    CertainCongruence(M, P, i);
    ZeroRow(K, R, i);
    ZeroRow(Mul(K, R), Transpose(K), i);
    SumOfRows(Congruence(M, P), Congruence(K, R), i);
  }

  /** A diagonal start with no variance there. */
  lemma DiagonalIsCertain(d: Vec, i: nat)
    requires i < |d| && d[i] == 0.0
    ensures Certain(Diag(d), i)
  {
  }
}
