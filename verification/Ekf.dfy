/** The extended Kalman filter of tools/extended_kalman_filter.cpp, in any
    dimension.  Matrix inverses, the measurement function and the residual
    functions are inputs; nothing below assumes that an inverse is exact unless
    it says so. */
module Ekf {
  import opened Matrix

  // ----- Covariance algebra -----

  /** F P F' + Q */
  function Predicted(F: Mat, P: Mat, Q: Mat): (r: Mat)
    requires F.rows == F.cols == P.rows == P.cols == Q.rows == Q.cols
    ensures r.rows == r.cols == P.rows
  {
    MAdd(Congruence(F, P), Q)
  }

  /** I - K H */
  function Residual(K: Mat, H: Mat): (r: Mat)
    requires K.cols == H.rows && K.rows == H.cols
    ensures r.rows == r.cols == H.cols
  {
    MSub(Identity(H.cols), Mul(K, H))
  }

  predicate Measures(P: Mat, H: Mat, R: Mat, K: Mat) {
    && P.rows == P.cols == H.cols && R.rows == R.cols == H.rows
    && K.rows == H.cols && K.cols == H.rows
  }

  /** (I - K H) P (I - K H)' + K R K' */
  function Joseph(P: Mat, H: Mat, R: Mat, K: Mat): (r: Mat)
    requires Measures(P, H, R, K)
    ensures r.rows == r.cols == P.rows
  {
    MAdd(Congruence(Residual(K, H), P), Congruence(K, R))
  }

  /** H P H' + R */
  function Innovation(P: Mat, H: Mat, R: Mat): (r: Mat)
    requires P.rows == P.cols == H.cols && R.rows == R.cols == H.rows
    ensures r.rows == r.cols == H.rows
  {
    MAdd(Congruence(H, P), R)
  }

  lemma PredictKeeps(F: Mat, P: Mat, Q: Mat)
    requires Covariance(P, F.rows) && Covariance(Q, F.rows) && F.rows == F.cols
    ensures Covariance(Predicted(F, P, Q), F.rows)
  {
    SymmetricCongruence(F, P);
    PsdCongruence(F, P);
    SymmetricMAdd(Congruence(F, P), Q);
    PsdMAdd(Congruence(F, P), Q);
  }

  /** The Joseph form keeps a covariance whatever the gain. */
  lemma JosephKeeps(P: Mat, H: Mat, R: Mat, K: Mat)
    requires Measures(P, H, R, K) && Covariance(P, H.cols) && Covariance(R, H.rows)
    ensures Covariance(Joseph(P, H, R, K), H.cols)
  {
    var M := Residual(K, H);
    SymmetricCongruence(M, P);
    PsdCongruence(M, P);
    SymmetricCongruence(K, R);
    PsdCongruence(K, R);
    SymmetricMAdd(Congruence(M, P), Congruence(K, R));
    PsdMAdd(Congruence(M, P), Congruence(K, R));
  }

  // ----- Every run -----

  datatype Event =
    | Predict(F: Mat, Q: Mat)
    | Update(H: Mat, R: Mat, K: Mat)

  ghost predicate EventOk(e: Event, n: nat) {
    match e
    case Predict(F, Q) => Square(F, n) && Covariance(Q, n)
    case Update(H, R, K) => H.cols == n && K.rows == n && K.cols == H.rows && Covariance(R, H.rows)
  }

  ghost function Step(P: Mat, n: nat, e: Event): (r: Mat)
    requires Square(P, n) && EventOk(e, n)
    ensures Square(r, n)
  {
    match e
    case Predict(F, Q) => Predicted(F, P, Q)
    case Update(H, R, K) => Joseph(P, H, R, K)
  }

  ghost function After(P: Mat, n: nat, run: seq<Event>): (r: Mat)
    requires Square(P, n) && forall i :: 0 <= i < |run| ==> EventOk(run[i], n)
    ensures Square(r, n)
    decreases |run|
  {
    if run == [] then P else
      assert EventOk(run[0], n);
      After(Step(P, n, run[0]), n, run[1..])
  }

  lemma StepKeepsCovariance(P: Mat, n: nat, e: Event)
    requires Covariance(P, n) && EventOk(e, n)
    ensures Covariance(Step(P, n, e), n)
  {
    match e
    case Predict(F, Q) => PredictKeeps(F, P, Q);
    case Update(H, R, K) => JosephKeeps(P, H, R, K);
  }

  lemma {:induction false} RunKeepsCovariance(P: Mat, n: nat, run: seq<Event>)
    requires Covariance(P, n) && forall i :: 0 <= i < |run| ==> EventOk(run[i], n)
    ensures Covariance(After(P, n, run), n)
    decreases |run|
  {
    if run != [] {
      assert EventOk(run[0], n);
      StepKeepsCovariance(P, n, run[0]);
      RunKeepsCovariance(Step(P, n, run[0]), n, run[1..]);
    }
  }

  // ----- The gain is the best one -----

  /** K S = P H' : what K = P H' S^-1 solves. */
  ghost predicate KalmanGain(P: Mat, H: Mat, R: Mat, K: Mat) {
    Measures(P, H, R, K) && Mul(K, Innovation(P, H, R)) == Mul(P, Transpose(H))
  }

  lemma GainFromInverse(P: Mat, H: Mat, R: Mat, Sinv: Mat)
    requires P.rows == P.cols == H.cols && R.rows == R.cols == H.rows && Square(Sinv, H.rows)
    requires Mul(Sinv, Innovation(P, H, R)) == Identity(H.rows)
    ensures KalmanGain(P, H, R, Mul(Mul(P, Transpose(H)), Sinv))
  {
    var PH, S := Mul(P, Transpose(H)), Innovation(P, H, R);
    MulAssoc(PH, Sinv, S);
    MulIdentity(PH);
  }

  /** (I - L H)' x = x - H' (L' x) */
  lemma ResidualTransposed(L: Mat, H: Mat, x: Vec)
    requires L.cols == H.rows && L.rows == H.cols == |x|
    ensures Apply(Transpose(Residual(L, H)), x) == Sub(x, Apply(Transpose(H), Apply(Transpose(L), x)))
  {
    var I, LH := Identity(H.cols), Mul(L, H);
    SymmetricDiag(seq(H.cols, i => 1.0));
    TransposeMSub(I, LH);
    ApplyMSub(Transpose(I), Transpose(LH), x);
    ApplyIdentity(H.cols, x);
    TransposeMul(L, H);
    ApplyMul(Transpose(H), Transpose(L), x);
  }

  lemma TransposeMSub(A: Mat, B: Mat)
    requires A.rows == B.rows && A.cols == B.cols
    ensures Transpose(MSub(A, B)) == MSub(Transpose(A), Transpose(B))
  {
    var L, R := Transpose(MSub(A, B)), MSub(Transpose(A), Transpose(B));
    forall j | 0 <= j < A.cols ensures L.row[j] == R.row[j] {
      forall i | 0 <= i < A.rows ensures L.row[j][i] == R.row[j][i] {}
    }
    assert L.row == R.row;
  }

  /** x' Joseph(L) x, in terms of a = L' x. */
  lemma QuadJoseph(P: Mat, H: Mat, R: Mat, L: Mat, x: Vec)
    requires Measures(P, H, R, L) && Symmetric(P) && |x| == H.cols
    ensures var a := Apply(Transpose(L), x);
            Quad(Joseph(P, H, R, L), x) ==
            Quad(P, x) - 2.0 * Dot(a, Apply(H, Apply(P, x))) + Quad(Innovation(P, H, R), a)
  {
    var a := Apply(Transpose(L), x);
    var ha := Apply(Transpose(H), a);
    QuadMAdd(Congruence(Residual(L, H), P), Congruence(L, R), x);
    QuadCongruence(Residual(L, H), P, x);
    QuadCongruence(L, R, x);
    ResidualTransposed(L, H, x);
    QuadSub(P, x, ha);
    Adjoint(H, a, Apply(P, x));
    QuadMAdd(Congruence(H, P), R, a);
    QuadCongruence(H, P, a);
  }

  lemma InnovationSymmetric(P: Mat, H: Mat, R: Mat)
    requires P.rows == P.cols == H.cols && R.rows == R.cols == H.rows && Symmetric(P) && Symmetric(R)
    ensures Symmetric(Innovation(P, H, R))
  {
    SymmetricCongruence(H, P);
    SymmetricMAdd(Congruence(H, P), R);
  }

  /** S (K' x) = H (P x) */
  lemma GainTransposed(P: Mat, H: Mat, R: Mat, K: Mat, x: Vec)
    requires KalmanGain(P, H, R, K) && Symmetric(P) && Symmetric(R) && |x| == H.cols
    ensures Apply(Innovation(P, H, R), Apply(Transpose(K), x)) == Apply(H, Apply(P, x))
  {
    var S := Innovation(P, H, R);
    InnovationSymmetric(P, H, R);
    TransposeMul(K, S);
    TransposeMul(P, Transpose(H));
    TransposeTwice(H);
    ApplyMul(S, Transpose(K), x);
    ApplyMul(H, P, x);
  }

  /** Any other gain does worse by exactly the weighted square of its difference. */
  lemma GainGap(P: Mat, H: Mat, R: Mat, K: Mat, L: Mat, x: Vec)
    requires KalmanGain(P, H, R, K) && Measures(P, H, R, L) && Symmetric(P) && Symmetric(R)
    requires |x| == H.cols
    ensures Quad(Joseph(P, H, R, L), x) == Quad(Joseph(P, H, R, K), x)
            + Quad(Innovation(P, H, R), Sub(Apply(Transpose(L), x), Apply(Transpose(K), x)))
  {
    var S, a, b := Innovation(P, H, R), Apply(Transpose(L), x), Apply(Transpose(K), x);
    QuadJoseph(P, H, R, L, x);
    QuadJoseph(P, H, R, K, x);
    GainTransposed(P, H, R, K, x);
    InnovationSymmetric(P, H, R);
    QuadSub(S, a, b);
    FormSwap(S, a, b);
  }

  lemma InnovationPsd(P: Mat, H: Mat, R: Mat, e: Vec)
    requires Covariance(P, H.cols) && Covariance(R, H.rows) && |e| == H.rows
    ensures Quad(Innovation(P, H, R), e) >= 0.0
  {
    PsdCongruence(H, P);
    PsdMAdd(Congruence(H, P), R);
  }

  /** The Kalman gain minimises the posterior covariance over all gains. */
  lemma GainIsOptimal(P: Mat, H: Mat, R: Mat, K: Mat, L: Mat)
    requires KalmanGain(P, H, R, K) && Measures(P, H, R, L)
    requires Covariance(P, H.cols) && Covariance(R, H.rows)
    ensures Loewner(Joseph(P, H, R, K), Joseph(P, H, R, L))
  {
    forall x: Vec | |x| == H.cols
      ensures Quad(Joseph(P, H, R, K), x) <= Quad(Joseph(P, H, R, L), x)
    {
      GainGap(P, H, R, K, L, x);
      InnovationPsd(P, H, R, Sub(Apply(Transpose(L), x), Apply(Transpose(K), x)));
    }
  }

  /** A measurement never increases the covariance. */
  lemma MeasurementHelps(P: Mat, H: Mat, R: Mat, K: Mat)
    requires KalmanGain(P, H, R, K) && Covariance(P, H.cols) && Covariance(R, H.rows)
    ensures Loewner(Joseph(P, H, R, K), P)
  {
    forall x: Vec | |x| == H.cols ensures Quad(Joseph(P, H, R, K), x) <= Quad(P, x) {
      QuadJoseph(P, H, R, K, x);
      GainTransposed(P, H, R, K, x);
      InnovationPsd(P, H, R, Apply(Transpose(K), x));
    }
  }

  // ----- The sliding window of chi-square failures -----

  const WINDOW: nat := 100

  function Last(s: seq<int>, n: nat): seq<int> {
    if |s| <= n then s else s[|s| - n..]
  }

  /** One push_back, then pop_front if the window is over-full. */
  function Slide(w: seq<int>, fail: bool): seq<int> {
    var pushed := w + [if fail then 1 else 0];
    if |pushed| > WINDOW then pushed[1..] else pushed
  }

  function Slides(w: seq<int>, fails: seq<bool>): seq<int>
    decreases |fails|
  {
    if fails == [] then w else Slides(Slide(w, fails[0]), fails[1..])
  }

  function Bits(fails: seq<bool>): seq<int> {
    seq(|fails|, i requires 0 <= i < |fails| => if fails[i] then 1 else 0)
  }

  /** The window is the last hundred outcomes, the initial 0 included. */
  lemma {:induction false} WindowIsLastHundred(w: seq<int>, fails: seq<bool>)
    requires |w| <= WINDOW
    ensures Slides(w, fails) == Last(w + Bits(fails), WINDOW)
    decreases |fails|
  {
    if fails == [] {
      assert w + Bits(fails) == w;
    } else {
      var w', all := Slide(w, fails[0]), w + Bits(fails);
      WindowIsLastHundred(w', fails[1..]);
      assert Bits(fails) == [if fails[0] then 1 else 0] + Bits(fails[1..]);
      if |w| < WINDOW {
        assert w' + Bits(fails[1..]) == all;
      } else {
        assert w' + Bits(fails[1..]) == all[1..];
        assert Last(all[1..], WINDOW) == Last(all, WINDOW);
      }
    }
  }

  function Sum(s: seq<int>): int {
    if s == [] then 0 else s[0] + Sum(s[1..])
  }

  // ----- The filter object -----

  const NIS_THRESHOLD: real := 0.711
  const NEES_THRESHOLD: real := 0.711

  ghost predicate Maps(f: Vec --> Vec, n: nat, m: nat) {
    forall a: Vec {:trigger f.requires(a)} {:trigger f(a)} :: |a| == n ==> f.requires(a) && |f(a)| == m
  }

  ghost predicate Combines(f: (Vec, Vec) --> Vec, n: nat) {
    forall a: Vec, b: Vec {:trigger f.requires(a, b)} {:trigger f(a, b)} ::
      |a| == |b| == n ==> f.requires(a, b) && |f(a, b)| == n
  }

  class ExtendedKalmanFilter {
    var x: Vec
    var P: Mat
    var recentNisFailures: seq<int>
    var lastNis: real
    var recentRate: real
    var neesCount: int
    var nisCount: int
    var totalCount: int
    const xAdd: (Vec, Vec) --> Vec

    ghost predicate Valid()
      reads this
    {
      |x| == P.rows == P.cols && 1 <= |recentNisFailures| <= WINDOW
    }

    constructor (x0: Vec, P0: Mat, add: (Vec, Vec) --> Vec)
      requires |x0| == P0.rows == P0.cols
      ensures Valid() && x == x0 && P == P0 && xAdd == add && recentNisFailures == [0]
      ensures nisCount == neesCount == totalCount == 0
    {
      x, P, xAdd := x0, P0, add;
      recentNisFailures, lastNis, recentRate := [0], 0.0, 0.0;
      neesCount, nisCount, totalCount := 0, 0, 0;
    }

    method Predict(F: Mat, Q: Mat, f: Vec --> Vec) returns (r: Vec)
      requires Valid() && Square(F, |x|) && Square(Q, |x|) && f.requires(x) && |f(x)| == |x|
      modifies this`x, this`P
      ensures Valid() && r == x == f(old(x)) && P == Predicted(F, old(P), Q)
      ensures Covariance(old(P), |x|) && Covariance(Q, |x|) ==> Covariance(P, |x|)
    {
      P := MAdd(Mul(Mul(F, P), Transpose(F)), Q);
      if Covariance(old(P), |x|) && Covariance(Q, |x|) {
        PredictKeeps(F, old(P), Q);
      }
      x := f(x);
      return x;
    }

    /** Sinv, S1inv and P1inv are whatever the three inverse() calls return. */
    method Update(z: Vec, H: Mat, R: Mat, h: Vec --> Vec, zSubtract: (Vec, Vec) --> Vec,
                  Sinv: Mat, S1inv: Mat, P1inv: Mat) returns (r: Vec)
      requires Valid() && H.cols == |x| && Square(R, H.rows)
      requires Square(Sinv, H.rows) && Square(S1inv, H.rows) && Square(P1inv, |x|)
      requires |z| == H.rows && Maps(h, |x|, H.rows) && Combines(zSubtract, H.rows) && Combines(xAdd, |x|)
      modifies this
      ensures Valid() && r == x && |x| == |old(x)|
      ensures P == Joseph(old(P), H, R, Mul(Mul(old(P), Transpose(H)), Sinv))
      ensures x == xAdd(old(x), Apply(Mul(Mul(old(P), Transpose(H)), Sinv), zSubtract(z, h(old(x)))))
      ensures Covariance(old(P), |x|) && Covariance(R, H.rows) ==> Covariance(P, |x|)
      ensures lastNis == Quad(S1inv, zSubtract(z, h(x)))
      ensures recentNisFailures == Slide(old(recentNisFailures), lastNis > NIS_THRESHOLD)
      ensures recentRate == (Sum(recentNisFailures) as real) / (|recentNisFailures| as real)
      ensures totalCount == old(totalCount) + 1
      ensures nisCount == old(nisCount) + if lastNis > NIS_THRESHOLD then 1 else 0
      ensures neesCount == old(neesCount) + if Quad(P1inv, Sub(x, old(x))) > NEES_THRESHOLD then 1 else 0
    {
      var prior := x;
      var K := Mul(Mul(P, Transpose(H)), Sinv);
      var M := MSub(Identity(|x|), Mul(K, H));
      if Covariance(P, |x|) && Covariance(R, H.rows) {
        JosephKeeps(P, H, R, K);
      }
      P := MAdd(Mul(Mul(M, P), Transpose(M)), Mul(Mul(K, R), Transpose(K)));
      x := xAdd(x, Apply(K, zSubtract(z, h(x))));
      var residual := zSubtract(z, h(x));
      var nis := Quad(S1inv, residual);
      var nees := Quad(P1inv, Sub(x, prior));
      Record(nis, nees);
      return x;
    }

    /** The bookkeeping of the chi-square tests. */
    method Record(nis: real, nees: real)
      requires 1 <= |recentNisFailures| <= WINDOW
      modifies this`nisCount, this`neesCount, this`totalCount, this`lastNis,
        this`recentNisFailures, this`recentRate
      ensures lastNis == nis
      ensures recentNisFailures == Slide(old(recentNisFailures), nis > NIS_THRESHOLD)
      ensures 1 <= |recentNisFailures| <= WINDOW
      ensures recentRate == (Sum(recentNisFailures) as real) / (|recentNisFailures| as real)
      ensures totalCount == old(totalCount) + 1
      ensures nisCount == old(nisCount) + if nis > NIS_THRESHOLD then 1 else 0
      ensures neesCount == old(neesCount) + if nees > NEES_THRESHOLD then 1 else 0
    {
      if nis > NIS_THRESHOLD { nisCount := nisCount + 1; }
      if nees > NEES_THRESHOLD { neesCount := neesCount + 1; }
      totalCount := totalCount + 1;
      lastNis := nis;
      recentNisFailures := recentNisFailures + [if nis > NIS_THRESHOLD then 1 else 0];
      if |recentNisFailures| > WINDOW {
        recentNisFailures := recentNisFailures[1..];
      }
      var failures := Accumulate(recentNisFailures);
      recentRate := (failures as real) / (|recentNisFailures| as real);
    }
  }

  lemma {:induction false} SumAppend(s: seq<int>, t: int)
    ensures Sum(s + [t]) == Sum(s) + t
  {
    if s == [] {
      assert s + [t] == [t];
    } else {
      assert (s + [t])[1..] == s[1..] + [t];
      SumAppend(s[1..], t);
    }
  }

  /** std::accumulate from 0 */
  method Accumulate(s: seq<int>) returns (r: int)
    ensures r == Sum(s)
  {
    r := 0;
    for i := 0 to |s|
      invariant r == Sum(s[..i])
    {
      assert s[..i + 1] == s[..i] + [s[i]];
      SumAppend(s[..i], s[i]);
      r := r + s[i];
    }
    assert s[..|s|] == s;
  }
}
