/** What the update of tools/extended_kalman_filter.cpp:50-56 does to the mean, for a
    measurement that depends on the state linearly: it moves it to where prior and
    measurement, each weighted by its own covariance, together are best satisfied. */
module KalmanMean {
  import opened Matrix
  import opened Ekf

  // ----- The kernel of a covariance -----

  /** A direction without variance is mapped to zero. */
  lemma PsdKernel(D: Mat, y: Vec)
    requires Covariance(D, |y|) && Quad(D, y) == 0.0
    ensures Apply(D, y) == Zeros(|y|)
  {
    var z := Apply(D, y);
    if z != Zeros(|y|) {
      SelfDot(z);
      var n, q := Dot(z, z), Quad(D, z);
      assert q >= 0.0;
      var t := n / (q + 1.0);
      QuadSub(D, y, Scale(t, z));
      QuadScale(D, t, z);
      FormSwap(D, y, Scale(t, z));
      DotScaleRight(t, z, z);
      assert Quad(D, Sub(y, Scale(t, z))) >= 0.0;
      TooFar(n, q, t);
    }
  }

  lemma TooFar(n: real, q: real, t: real)
    requires n > 0.0 && q >= 0.0 && t == n / (q + 1.0)
    ensures Times(t, Times(t, q)) - 2.0 * Times(t, n) < 0.0
  {
    assert t * (q + 1.0) == n;
    assert t > 0.0 by { TimesOrder(q + 1.0, t); }
    assert t * q == n - t;
    assert t * (t * q) - 2.0 * (t * n) == t * (t * q - 2.0 * n) == t * (-n - t);
    TimesOrder(t, n + t);
    assert Times(t, n + t) == t * (n + t) && t * (-n - t) == -(t * (n + t));
  }

  // ----- The update -----

  /** z - H x */
  function Innovates(H: Mat, x: Vec, z: Vec): (r: Vec)
    requires |x| == H.cols && |z| == H.rows
    ensures |r| == H.rows
  {
    Sub(z, Apply(H, x))
  }

  /** For any gain at all, the residual after the update is I - H K times that before. */
  lemma ResidualShrinks(H: Mat, K: Mat, x: Vec, z: Vec)
    requires K.rows == H.cols == |x| && K.cols == H.rows == |z|
    ensures var r := Innovates(H, x, z);
      Innovates(H, Add(x, Apply(K, r)), z) == Apply(MSub(Identity(H.rows), Mul(H, K)), r)
  {
    var r := Innovates(H, x, z);
    var k := Apply(K, r);
    ApplyAdd(H, x, k);
    ApplyMul(H, K, r);
    ApplyIdentity(H.rows, r);
    ApplyMSub(Identity(H.rows), Mul(H, K), r);
    var a, b := Innovates(H, Add(x, k), z), Sub(r, Apply(H, k));
    forall i | 0 <= i < H.rows ensures a[i] == b[i] {}
    assert a == b;
  }

  /** A state that the prior explains by a displacement P y, and that the measurement
      explains by an error R e. */
  ghost predicate Explains(P: Mat, H: Mat, R: Mat, x: Vec, z: Vec, y: Vec, e: Vec)
    requires P.rows == P.cols == H.cols == |x| && R.rows == R.cols == H.rows == |z|
  {
    |y| == H.cols && |e| == H.rows && Innovates(H, Add(x, Apply(P, y)), z) == Apply(R, e)
  }

  /** The squared displacement and the squared error, each in units of its covariance. */
  function Strain(P: Mat, R: Mat, y: Vec, e: Vec): real
    requires P.rows == P.cols == |y| && R.rows == R.cols == |e|
  {
    Quad(P, y) + Quad(R, e)
  }

  /** Both parts of an explanation add up to the residual. */
  lemma ExplainsSum(P: Mat, H: Mat, R: Mat, x: Vec, z: Vec, y: Vec, e: Vec)
    requires P.rows == P.cols == H.cols == |x| && R.rows == R.cols == H.rows == |z|
    requires |y| == H.cols && |e| == H.rows
    ensures Explains(P, H, R, x, z, y, e) <==>
            Add(Apply(H, Apply(P, y)), Apply(R, e)) == Innovates(H, x, z)
  {
    var py := Apply(P, y);
    ApplyAdd(H, x, py);
    var hx, hp, re := Apply(H, x), Apply(H, py), Apply(R, e);
    var a, b := Innovates(H, Add(x, py), z), Add(hp, re);
    assert forall i :: 0 <= i < H.rows ==> a[i] == z[i] - (hx[i] + hp[i]);
    if a == re {
      forall i | 0 <= i < H.rows ensures b[i] == Innovates(H, x, z)[i] { assert a[i] == re[i]; }
      assert b == Innovates(H, x, z);
    }
    if b == Innovates(H, x, z) {
      forall i | 0 <= i < H.rows ensures a[i] == re[i] { assert b[i] == z[i] - hx[i]; }
      assert a == re;
    }
  }

  /** What solves the normal equations: S s = r. */
  ghost predicate Solves(P: Mat, H: Mat, R: Mat, r: Vec, s: Vec) {
    && P.rows == P.cols == H.cols && R.rows == R.cols == H.rows && |r| == |s| == H.rows
    && Apply(Innovation(P, H, R), s) == r
  }

  /** H' s displaces the prior to the updated mean, and s is the error left. */
  lemma BestExplains(P: Mat, H: Mat, R: Mat, x: Vec, z: Vec, s: Vec)
    requires P.rows == P.cols == H.cols == |x| && R.rows == R.cols == H.rows == |z|
    requires Solves(P, H, R, Innovates(H, x, z), s)
    ensures Explains(P, H, R, x, z, Apply(Transpose(H), s), s)
  {
    var y := Apply(Transpose(H), s);
    ApplyMAdd(Congruence(H, P), R, s);
    ApplyMul(Mul(H, P), Transpose(H), s);
    ApplyMul(H, P, y);
    ExplainsSum(P, H, R, x, z, y, s);
  }

  /** Any other explanation strains more, by its own distance from this one. */
  lemma StrainGap(P: Mat, H: Mat, R: Mat, x: Vec, z: Vec, s: Vec, y: Vec, e: Vec)
    requires Covariance(P, H.cols) && Covariance(R, H.rows) && |x| == H.cols && |z| == H.rows
    requires Solves(P, H, R, Innovates(H, x, z), s) && Explains(P, H, R, x, z, y, e)
    ensures var b := Apply(Transpose(H), s);
      Strain(P, R, y, e) == Strain(P, R, b, s) + Strain(P, R, Sub(y, b), Sub(e, s))
  {
    var b := Apply(Transpose(H), s);
    BestExplains(P, H, R, x, z, s);
    ExplainsSum(P, H, R, x, z, y, e);
    ExplainsSum(P, H, R, x, z, b, s);
    QuadSub(P, y, b);
    QuadSub(R, e, s);
    FormSwap(P, y, b);
    FormSwap(R, e, s);
    Balance(P, H, R, s, y, e);
    Balance(P, H, R, s, b, s);
  }

  /** s against both parts of an explanation. */
  lemma Balance(P: Mat, H: Mat, R: Mat, s: Vec, y: Vec, e: Vec)
    requires P.rows == P.cols == H.cols == |y| && R.rows == R.cols == H.rows == |s| == |e|
    ensures Dot(s, Add(Apply(H, Apply(P, y)), Apply(R, e))) ==
            Form(P, Apply(Transpose(H), s), y) + Form(R, s, e)
  {
    var hp, re := Apply(H, Apply(P, y)), Apply(R, e);
    DotComm(s, Add(hp, re));
    DotAdd(hp, re, s);
    DotComm(hp, s);
    DotComm(re, s);
    Adjoint(H, s, Apply(P, y));
  }

  /** The gain applied to the residual is the displacement by H' s. */
  lemma GainDisplaces(P: Mat, H: Mat, R: Mat, K: Mat, r: Vec, s: Vec)
    requires KalmanGain(P, H, R, K) && Solves(P, H, R, r, s)
    ensures Apply(K, r) == Apply(P, Apply(Transpose(H), s))
  {
    ApplyMul(K, Innovation(P, H, R), s);
    ApplyMul(P, Transpose(H), s);
  }

  /** Main result: the updated mean x + K (z - H x) strains prior and measurement least,
      and it is the only state that does. */
  lemma MeanIsLeastSquares(P: Mat, H: Mat, R: Mat, K: Mat, x: Vec, z: Vec, s: Vec, y: Vec, e: Vec)
    requires KalmanGain(P, H, R, K) && Covariance(P, H.cols) && Covariance(R, H.rows)
    requires |x| == H.cols && |z| == H.rows
    requires Solves(P, H, R, Innovates(H, x, z), s) && Explains(P, H, R, x, z, y, e)
    ensures var b := Apply(Transpose(H), s);
      && Add(x, Apply(K, Innovates(H, x, z))) == Add(x, Apply(P, b)) && Explains(P, H, R, x, z, b, s)
      && Strain(P, R, b, s) <= Strain(P, R, y, e)
      && (Strain(P, R, b, s) == Strain(P, R, y, e) ==>
            Add(x, Apply(P, y)) == Add(x, Apply(K, Innovates(H, x, z))))
  {
    var b := Apply(Transpose(H), s);
    GainDisplaces(P, H, R, K, Innovates(H, x, z), s);
    BestExplains(P, H, R, x, z, s);
    StrainGap(P, H, R, x, z, s, y, e);
    assert Quad(P, Sub(y, b)) >= 0.0 && Quad(R, Sub(e, s)) >= 0.0;
    if Strain(P, R, b, s) == Strain(P, R, y, e) {
      SameDisplacement(P, y, b);
    }
  }

  lemma SameDisplacement(P: Mat, y: Vec, b: Vec)
    requires |y| == |b| && Covariance(P, |y|) && Quad(P, Sub(y, b)) == 0.0
    ensures Apply(P, y) == Apply(P, b)
  {
    PsdKernel(P, Sub(y, b));
    ApplySub(P, y, b);
    var u, v := Apply(P, y), Apply(P, b);
    forall i | 0 <= i < |y| ensures u[i] == v[i] { assert Sub(u, v)[i] == Zeros(|y|)[i]; }
  }

  /** With the inverse that the source computes, the equations have such a solution. */
  lemma InverseSolves(P: Mat, H: Mat, R: Mat, Sinv: Mat, r: Vec)
    requires P.rows == P.cols == H.cols && R.rows == R.cols == H.rows == |r| && Square(Sinv, H.rows)
    requires Mul(Innovation(P, H, R), Sinv) == Identity(H.rows)
    ensures Solves(P, H, R, r, Apply(Sinv, r))
  {
    ApplyMul(Innovation(P, H, R), Sinv, r);
    ApplyIdentity(H.rows, r);
  }
}
