/** When the cache that tiny_precompute_and_set_cache leaves satisfies its defining
    equations (3rdparty/tinympc/tiny_api.cpp:267-294): its gain belongs to the cost-to-go
    before the last step, its inverse to the one after it, and the loop stops as soon as
    the gain, not the cost-to-go, has settled. */
module CacheExactness {
  import opened Matrix
  import opened Lqr
  import opened Admm
  import opened AdmmOptimality
  import opened TinyApi

  // ----- Symmetric matrices and their quadratic forms -----

  ghost predicate SameQuad(A: Mat, B: Mat, x: Vec)
    requires A.rows == A.cols == B.rows == B.cols == |x|
  {
    Quad(A, x) == Quad(B, x)
  }

  lemma SameQuads(A: Mat, B: Mat)
    requires A.rows == A.cols == B.rows == B.cols && Symmetric(A) && Symmetric(B)
    requires forall x: Vec {:trigger SameQuad(A, B, x)} :: |x| == A.rows ==> SameQuad(A, B, x)
    ensures A == B
  {
    forall i | 0 <= i < A.rows ensures A.row[i] == B.row[i] {
      forall j | 0 <= j < A.rows ensures A.row[i][j] == B.row[i][j] { SameEntry(A, B, i, j); }
    }
    assert A.row == B.row;
  }

  lemma SameEntry(A: Mat, B: Mat, i: nat, j: nat)
    requires A.rows == A.cols == B.rows == B.cols && Symmetric(A) && Symmetric(B) && i < A.rows && j < A.rows
    requires forall x: Vec {:trigger SameQuad(A, B, x)} :: |x| == A.rows ==> SameQuad(A, B, x)
    ensures A.row[i][j] == B.row[i][j]
  {
    var a, b := Unit(A.rows, i), Unit(A.rows, j);
    assert SameQuad(A, B, a) && SameQuad(A, B, b) && SameQuad(A, B, Add(a, b));
    QuadAdd(A, a, b);
    QuadAdd(B, a, b);
    FormOfUnits(A, i, j);
    FormOfUnits(B, i, j);
  }

  /** P and R agree on the range of L. */
  ghost predicate Unchanged(P: Mat, R: Mat, L: Mat)
    requires P.rows == P.cols == R.rows == R.cols == L.rows
  {
    forall x: Vec {:trigger Apply(L, x)} :: |x| == L.cols ==> SameQuad(P, R, Apply(L, x))
  }

  /** M P M' = M R M' exactly when P and R agree on the range of M'. */
  lemma CongruencesAgree(M: Mat, P: Mat, R: Mat)
    requires M.cols == P.rows == P.cols == R.rows == R.cols && Symmetric(P) && Symmetric(R)
    ensures Congruence(M, P) == Congruence(M, R) <==> Unchanged(P, R, Transpose(M))
  {
    var A, B := Congruence(M, P), Congruence(M, R);
    if A == B {
      forall x: Vec | |x| == M.rows ensures SameQuad(P, R, Apply(Transpose(M), x)) {
        QuadCongruence(M, P, x);
        QuadCongruence(M, R, x);
      }
    }
    if Unchanged(P, R, Transpose(M)) {
      forall x: Vec | |x| == M.rows ensures SameQuad(A, B, x) {
        QuadCongruence(M, P, x);
        QuadCongruence(M, R, x);
        assert SameQuad(P, R, Apply(Transpose(M), x));
      }
      SymmetricCongruence(M, P);
      SymmetricCongruence(M, R);
      SameQuads(A, B);
    }
  }

  // ----- One more step -----

  lemma ApplyNeg(M: Mat, v: Vec)
    requires |v| == M.cols
    ensures Apply(M, Neg(v)) == Neg(Apply(M, v))
  {
    forall i | 0 <= i < M.rows ensures Apply(M, Neg(v))[i] == Neg(Apply(M, v))[i] {
      DotComm(M.row[i], Neg(v));
      DotNeg(v, M.row[i]);
      DotComm(M.row[i], v);
    }
  }

  function Loop(pr: Problem, c: Cache): (L: Mat)
    requires pr.Valid() && c.Fits(pr)
    ensures Square(L, pr.Nx())
  {
    MSub(pr.A, Mul(pr.B, c.Kinf))
  }

  /** The distance between what two feedback laws do in x. */
  function Apart(d: Cache, e: Cache, x: Vec): (r: Vec)
    requires d.Kinf.cols == e.Kinf.cols == |x| && d.Kinf.rows == e.Kinf.rows
    ensures |r| == d.Kinf.rows
  {
    Add(Neg(Apply(d.Kinf, x)), Apply(e.Kinf, x))
  }

  /** d is the step that was made last, e the one that would follow: what the last
      step added to the cost of the next state is what the following one would add to
      the cost of this state, plus the price of the outdated feedback law. */
  lemma NextStep(pr: Problem, d: Cache, e: Cache, x: Vec)
    requires pr.Valid() && d.Fits(pr) && e.Fits(pr) && GainExact(pr, d) && GainExact(pr, e) && |x| == pr.Nx()
    requires e.Pinf == Riccati(pr, d)
    ensures Quad(e.Pinf, Apply(Loop(pr, d), x)) - Quad(d.Pinf, Apply(Loop(pr, d), x)) ==
            Quad(Riccati(pr, e), x) - Quad(e.Pinf, x) + Quad(Quu(pr, e), Apart(d, e, x))
  {
    var u, y := Neg(Apply(d.Kinf, x)), Apply(Loop(pr, d), x);
    ClosedLoop(pr, d, x);
    ApplyNeg(pr.B, Apply(d.Kinf, x));
    assert Add(Apply(pr.A, x), Apply(pr.B, u)) == y;
    Bellman(pr, e, x, u);
    BellmanAtPolicy(pr, d, x);
  }

  lemma ApartIsZero(d: Cache, e: Cache, x: Vec)
    requires d.Kinf.cols == e.Kinf.cols == |x| && d.Kinf.rows == e.Kinf.rows
    ensures Apart(d, e, x) == Zeros(d.Kinf.rows) <==> Apply(d.Kinf, x) == Apply(e.Kinf, x)
  {
    var a, b, r := Apply(d.Kinf, x), Apply(e.Kinf, x), Apart(d, e, x);
    if r == Zeros(|r|) {
      forall i | 0 <= i < |r| ensures a[i] == b[i] { assert r[i] == 0.0; }
    }
  }

  /** In x, the last step changed nothing that matters exactly when the following one
      would change neither the cost-to-go nor the control. */
  lemma AtRestIn(pr: Problem, d: Cache, e: Cache, x: Vec)
    requires pr.Valid() && d.Fits(pr) && e.Fits(pr) && GainExact(pr, d) && GainExact(pr, e) && |x| == pr.Nx()
    requires e.Pinf == Riccati(pr, d) && Loewner(d.Pinf, e.Pinf)
    ensures SameQuad(e.Pinf, d.Pinf, Apply(Loop(pr, d), x)) <==>
            SameQuad(Riccati(pr, e), e.Pinf, x) && Apply(d.Kinf, x) == Apply(e.Kinf, x)
  {
    NextStep(pr, d, e, x);
    ApartIsZero(d, e, x);
    RiccatiMonotone(pr, d, e);
    assert Quad(Riccati(pr, d), x) <= Quad(Riccati(pr, e), x);
    PdAtLeastZero(Quu(pr, e), Apart(d, e, x));
    if Apart(d, e, x) == Zeros(pr.Nu()) {
      DotZeros(pr.Nu(), Apply(Quu(pr, e), Apart(d, e, x)));
    } else {
      assert Quad(Quu(pr, e), Apart(d, e, x)) > 0.0;
    }
  }

  ghost predicate Successive(pr: Problem, d: Cache, e: Cache) {
    && pr.Valid() && d.Fits(pr) && e.Fits(pr) && GainExact(pr, d) && GainExact(pr, e)
    && e.Pinf == Riccati(pr, d) && Loewner(d.Pinf, e.Pinf) && Symmetric(pr.Q1)
  }

  lemma SameCosts(pr: Problem, d: Cache, e: Cache, S: Mat, P: Mat)
    requires Successive(pr, d, e) && Unchanged(e.Pinf, d.Pinf, Loop(pr, d))
    requires S == Riccati(pr, e) && P == e.Pinf
    ensures forall x: Vec {:trigger SameQuad(S, P, x)} :: |x| == S.rows ==> SameQuad(S, P, x)
  {
    forall x: Vec | |x| == S.rows ensures SameQuad(S, P, x) {
      assert SameQuad(P, d.Pinf, Apply(Loop(pr, d), x));
      AtRestIn(pr, d, e, x);
    }
  }

  lemma SameCostToGo(pr: Problem, d: Cache, e: Cache)
    requires Successive(pr, d, e) && Unchanged(e.Pinf, d.Pinf, Loop(pr, d))
    ensures Riccati(pr, e) == e.Pinf
  {
    SameCosts(pr, d, e, Riccati(pr, e), e.Pinf);
    RiccatiSymmetric(pr, e);
    SameQuads(Riccati(pr, e), e.Pinf);
  }

  lemma SameControl(pr: Problem, d: Cache, e: Cache)
    requires Successive(pr, d, e) && Unchanged(e.Pinf, d.Pinf, Loop(pr, d))
    ensures d.Kinf == e.Kinf
  {
    forall x: Vec | |x| == pr.Nx() ensures Apply(d.Kinf, x) == Apply(e.Kinf, x) {
      assert SameQuad(e.Pinf, d.Pinf, Apply(Loop(pr, d), x));
      AtRestIn(pr, d, e, x);
    }
    SameAction(d.Kinf, e.Kinf);
  }

  lemma AtRest(pr: Problem, d: Cache, e: Cache)
    requires Successive(pr, d, e)
    ensures Unchanged(e.Pinf, d.Pinf, Loop(pr, d)) <==> Riccati(pr, e) == e.Pinf && d.Kinf == e.Kinf
  {
    if Unchanged(e.Pinf, d.Pinf, Loop(pr, d)) {
      SameCostToGo(pr, d, e);
      SameControl(pr, d, e);
    } else if Riccati(pr, e) == e.Pinf && d.Kinf == e.Kinf {
      forall x: Vec | |x| == pr.Nx() ensures SameQuad(e.Pinf, d.Pinf, Apply(Loop(pr, d), x)) {
        AtRestIn(pr, d, e, x);
      }
    }
  }

  // ----- The cache -----

  /** The state of the call: the cost-to-go P before its last step, which made c. */
  ghost predicate MadeFrom(pr: Problem, inv: Mat -> Mat, step: Mat -> Mat, gain: Mat -> Mat, P: Mat, c: Cache) {
    && Sound(pr, inv, step, gain) && Covariance(P, pr.Nx()) && Loewner(P, step(P))
    && Derived(pr, inv, c) && c.Kinf == gain(P) && c.Pinf == step(P)
  }

  /** Main result 1: the cache is exact exactly when the last step of the loop did not
      change the cost of any state that the closed loop can reach, which one product
      with the cached (A - B K)' before and after that step tells. */
  lemma ExactIffReachableSettled(pr: Problem, inv: Mat -> Mat, step: Mat -> Mat, gain: Mat -> Mat, P: Mat, c: Cache)
    requires MadeFrom(pr, inv, step, gain, P, c)
    ensures Exact(pr, c) <==> Congruence(c.AmBKt, c.Pinf) == Congruence(c.AmBKt, P)
  {
    StepKeeps(pr, inv, step, gain, P);
    CacheHasGain(pr, inv, 0.0, P);
    CacheHasGain(pr, inv, 0.0, c.Pinf);
    var d, e := CacheOf(pr, inv, 0.0, P), CacheOf(pr, inv, 0.0, c.Pinf);
    AtRest(pr, d, e);
    ExactIs(pr, inv, c, e);
    TransposeTwice(Loop(pr, d));
    CongruencesAgree(c.AmBKt, c.Pinf, P);
  }

  /** Of the equations of a derived cache, only those of the gain and of the
      cost-to-go are open. */
  lemma ExactIs(pr: Problem, inv: Mat -> Mat, c: Cache, e: Cache)
    requires pr.Valid() && Derived(pr, inv, c) && e.Fits(pr) && GainExact(pr, e)
    requires e.Pinf == c.Pinf && e.QuuInv == c.QuuInv
    ensures Exact(pr, c) <==> Riccati(pr, e) == e.Pinf && c.Kinf == e.Kinf
  {
    assert Quu(pr, c) == Quu(pr, e);
    if c.Kinf == e.Kinf { assert Riccati(pr, c) == Riccati(pr, e); }
  }

  /** In particular it is exact if the last step left the cost-to-go as it was. */
  lemma UnchangedIsExact(pr: Problem, inv: Mat -> Mat, step: Mat -> Mat, gain: Mat -> Mat, P: Mat, c: Cache)
    requires MadeFrom(pr, inv, step, gain, P, c) && c.Pinf == P
    ensures Exact(pr, c)
  {
    ExactIffReachableSettled(pr, inv, step, gain, P, c);
  }

  /** Main result 2: the same of every call with regular weights. */
  lemma ComputedIsExactIff(w: Weights, inv: Mat -> Mat, step: Mat -> Mat, gain: Mat -> Mat, c: Cache, k: nat)
    requires w.Regular() && KeepsSize(inv) && Inverts(inv) && Performs(w.Problem(), inv, step, gain)
    requires Computed(w, inv, step, gain, c, k)
    ensures var P := Repeated(step, RhoI(w.A.rows, w.rho), k - 1);
      && MadeFrom(w.Problem(), inv, step, gain, P, c)
      && (Exact(w.Problem(), c) <==> Congruence(c.AmBKt, c.Pinf) == Congruence(c.AmBKt, P))
  {
    var pr, P0 := w.Problem(), RhoI(w.A.rows, w.rho);
    var P := Repeated(step, P0, k - 1);
    RegularIsSound(w, inv, step, gain);
    CostToGoIsCovariance(pr, inv, step, gain, P0, k - 1);
    CostToGoRises(pr, inv, step, gain, P0, k - 1);
    ExactIffReachableSettled(pr, inv, step, gain, P, c);
  }

  /** A solver that is set up with such a cache, and with the weights it was made from,
      meets all that the optimality results ask for exactly when the cache is exact. */
  lemma WellPosedIffExact(
    w: Weights, inv: Mat -> Mat, step: Mat -> Mat, gain: Mat -> Mat, c: Cache, k: nat, s: Setup)
    requires w.Regular() && KeepsSize(inv) && Inverts(inv) && Performs(w.Problem(), inv, step, gain)
    requires Computed(w, inv, step, gain, c, k)
    requires s.Valid() && s.pr == w.Problem() && s.cache == c && s.Qd == w.Qd && s.Rd == w.Rd
    ensures WellPosed(s) <==> Exact(w.Problem(), c)
  {
    ComputedIsExactIff(w, inv, step, gain, c, k);
    StepKeeps(w.Problem(), inv, step, gain, Repeated(step, RhoI(w.A.rows, w.rho), k - 1));
  }

  // ----- A settled gain is not enough -----

  lemma ZeroProducts(M: Mat, n: nat)
    ensures Mul(ZeroMat(n, M.rows), M) == ZeroMat(n, M.cols) && Mul(M, ZeroMat(M.cols, n)) == ZeroMat(M.rows, n)
  {
    forall x: Vec | |x| == M.cols ensures Apply(Mul(ZeroMat(n, M.rows), M), x) == Apply(ZeroMat(n, M.cols), x) {
      ApplyMul(ZeroMat(n, M.rows), M, x);
      ApplyZeroMat(n, M.rows, Apply(M, x));
      ApplyZeroMat(n, M.cols, x);
    }
    SameAction(Mul(ZeroMat(n, M.rows), M), ZeroMat(n, M.cols));
    forall x: Vec | |x| == n ensures Apply(Mul(M, ZeroMat(M.cols, n)), x) == Apply(ZeroMat(M.rows, n), x) {
      ApplyMul(M, ZeroMat(M.cols, n), x);
      ApplyZeroMat(M.cols, n, x);
      ApplyZeros(M);
      ApplyZeroMat(M.rows, n, x);
    }
    SameAction(Mul(M, ZeroMat(M.cols, n)), ZeroMat(M.rows, n));
  }

  lemma ApplyZeroMat(r: nat, n: nat, x: Vec)
    requires |x| == n
    ensures Apply(ZeroMat(r, n), x) == Zeros(r)
  {
    forall i | 0 <= i < r ensures Apply(ZeroMat(r, n), x)[i] == 0.0 { DotZeros(n, x); }
  }

  lemma TransposeZero(r: nat, n: nat)
    ensures Transpose(ZeroMat(r, n)) == ZeroMat(n, r)
  {
    forall i | 0 <= i < n ensures Transpose(ZeroMat(r, n)).row[i] == Zeros(r) {}
    assert Transpose(ZeroMat(r, n)).row == ZeroMat(n, r).row;
  }

  lemma QuadZero(n: nat, x: Vec)
    requires |x| == n
    ensures Quad(ZeroMat(n, n), x) == 0.0
  {
    ApplyZeroMat(n, n, x);
    DotComm(x, Zeros(n));
    DotZeros(n, x);
  }

  /** A plant that no input reaches. */
  ghost predicate NoInput(w: Weights) {
    w.Regular() && w.B == ZeroMat(w.A.rows, w.B.cols)
  }

  lemma NoInputGain(w: Weights, inv: Mat -> Mat, P: Mat)
    requires NoInput(w) && Applies(w.Problem(), inv, P)
    ensures CacheOf(w.Problem(), inv, 0.0, P).Kinf == ZeroMat(w.B.cols, w.A.rows)
  {
    TransposeZero(w.A.rows, w.B.cols);
    ZeroProducts(Mul(P, w.A), w.B.cols);
    ZeroProducts(inv(QuuOf(w.Problem(), P)), w.A.rows);
  }

  lemma NoDifference(K: Mat)
    ensures SameGain(K, K)
  {
    ResidualIff(0.00001, K.row, K.row);
  }

  /** The loop finds the gain settled after its first step. */
  lemma NoInputStopsAtOnce(w: Weights, inv: Mat -> Mat, step: Mat -> Mat, gain: Mat -> Mat, c: Cache, k: nat)
    requires NoInput(w) && KeepsSize(inv) && Performs(w.Problem(), inv, step, gain)
    requires Computed(w, inv, step, gain, c, k)
    ensures k == 1 && c.Kinf == ZeroMat(w.B.cols, w.A.rows) && c.Pinf == step(RhoI(w.A.rows, w.rho))
  {
    var zero, P0 := ZeroMat(w.B.cols, w.A.rows), RhoI(w.A.rows, w.rho);
    assert Applies(w.Problem(), inv, P0);
    NoInputGain(w, inv, P0);
    NoDifference(zero);
    assert GainAt(zero, step, gain, P0, 1) == gain(Repeated(step, P0, 0)) == zero;
    assert SettledAt(zero, step, gain, P0, 1);
    assert Repeated(step, P0, 1) == step(Repeated(step, P0, 0));
  }

  /** What the one step adds to the cost of a state y. */
  lemma NoInputStep(w: Weights, inv: Mat -> Mat, y: Vec)
    requires NoInput(w) && |y| == w.A.rows && Applies(w.Problem(), inv, RhoI(w.A.rows, w.rho))
    ensures var P0 := RhoI(w.A.rows, w.rho);
      Quad(Riccati(w.Problem(), CacheOf(w.Problem(), inv, 0.0, P0)), y) ==
      Quad(P0, y) + Quad(Diag(w.Qd), y) + Quad(P0, Apply(w.A, y))
  {
    var pr, P0 := w.Problem(), RhoI(w.A.rows, w.rho);
    var d := CacheOf(pr, inv, 0.0, P0);
    var ay := Apply(w.A, y);
    FormRiccati(pr, d, y, y);
    QuadMAdd(Diag(w.Qd), P0, y);
    ApplyZeroMat(w.A.rows, w.B.cols, Apply(d.Kinf, y));
    ApplyZeros(P0);
    DotComm(ay, Zeros(w.A.rows));
    DotZeros(w.A.rows, ay);
  }

  /** The state after next is at rest, and the next one costs nothing. */
  ghost predicate Spent(w: Weights, x: Vec)
    requires w.Valid() && |x| == w.A.rows
  {
    Apply(w.A, Apply(w.A, x)) == Zeros(w.A.rows) && Quad(Diag(w.Qd), Apply(w.A, x)) == 0.0
  }

  ghost predicate AllSpent(w: Weights)
    requires w.Valid()
  {
    forall x: Vec {:trigger Spent(w, x)} :: |x| == w.A.rows ==> Spent(w, x)
  }

  lemma NoInputUnchanged(w: Weights, inv: Mat -> Mat, P1: Mat, x: Vec)
    requires NoInput(w) && |x| == w.A.rows && Applies(w.Problem(), inv, RhoI(w.A.rows, w.rho))
    requires P1 == Riccati(w.Problem(), CacheOf(w.Problem(), inv, 0.0, RhoI(w.A.rows, w.rho)))
    ensures SameQuad(P1, RhoI(w.A.rows, w.rho), Apply(w.A, x)) <==> Spent(w, x)
  {
    var P0, y := RhoI(w.A.rows, w.rho), Apply(w.A, x);
    var z := Apply(w.A, y);
    NoInputStep(w, inv, y);
    PsdDiag(w.Qd);
    assert Quad(Diag(w.Qd), y) >= 0.0;
    if z == Zeros(w.A.rows) {
      DotZeros(w.A.rows, Apply(P0, z));
    } else {
      RhoQuad(w.A.rows, w.rho, z);
    }
  }

  /** The whole condition on the plant, as two matrix equations. */
  lemma SpentIff(w: Weights)
    requires w.Valid()
    ensures AllSpent(w) <==>
            Mul(w.A, w.A) == ZeroMat(w.A.rows, w.A.rows)
            && Congruence(Transpose(w.A), Diag(w.Qd)) == ZeroMat(w.A.rows, w.A.rows)
  {
    if AllSpent(w) {
      SpentSquare(w);
      SpentCost(w);
    } else if Mul(w.A, w.A) == ZeroMat(w.A.rows, w.A.rows)
              && Congruence(Transpose(w.A), Diag(w.Qd)) == ZeroMat(w.A.rows, w.A.rows) {
      forall x: Vec | |x| == w.A.rows ensures Spent(w, x) {
        ApplyMul(w.A, w.A, x);
        ApplyZeroMat(w.A.rows, w.A.rows, x);
        TransposeTwice(w.A);
        QuadCongruence(Transpose(w.A), Diag(w.Qd), x);
        QuadZero(w.A.rows, x);
      }
    }
  }

  lemma SpentSquare(w: Weights)
    requires w.Valid() && AllSpent(w)
    ensures Mul(w.A, w.A) == ZeroMat(w.A.rows, w.A.rows)
  {
    var S, Z := Mul(w.A, w.A), ZeroMat(w.A.rows, w.A.rows);
    forall x: Vec | |x| == w.A.rows ensures Apply(S, x) == Apply(Z, x) {
      ApplyMul(w.A, w.A, x);
      assert Spent(w, x);
      ApplyZeroMat(w.A.rows, w.A.rows, x);
    }
    SameAction(S, Z);
  }

  lemma SpentCost(w: Weights)
    requires w.Valid() && AllSpent(w)
    ensures Congruence(Transpose(w.A), Diag(w.Qd)) == ZeroMat(w.A.rows, w.A.rows)
  {
    SpentCosts(w, Congruence(Transpose(w.A), Diag(w.Qd)), ZeroMat(w.A.rows, w.A.rows));
    SymmetricDiag(w.Qd);
    SymmetricCongruence(Transpose(w.A), Diag(w.Qd));
    TransposeZero(w.A.rows, w.A.rows);
    SameQuads(Congruence(Transpose(w.A), Diag(w.Qd)), ZeroMat(w.A.rows, w.A.rows));
  }

  lemma SpentCosts(w: Weights, C: Mat, Z: Mat)
    requires w.Valid() && AllSpent(w)
    requires C == Congruence(Transpose(w.A), Diag(w.Qd)) && Z == ZeroMat(w.A.rows, w.A.rows)
    ensures forall x: Vec {:trigger SameQuad(C, Z, x)} :: |x| == C.rows ==> SameQuad(C, Z, x)
  {
    TransposeTwice(w.A);
    forall x: Vec | |x| == C.rows ensures SameQuad(C, Z, x) {
      QuadCongruence(Transpose(w.A), Diag(w.Qd), x);
      assert Spent(w, x);
      QuadZero(w.A.rows, x);
    }
  }

  /** Main result 3: on a plant without input the gain settles at once, and the cache
      is exact just for those plants that come to rest in two steps, the second of them
      for free. */
  lemma NoInputExactIff(w: Weights, inv: Mat -> Mat, step: Mat -> Mat, gain: Mat -> Mat, c: Cache, k: nat)
    requires NoInput(w) && KeepsSize(inv) && Inverts(inv) && Performs(w.Problem(), inv, step, gain)
    requires Computed(w, inv, step, gain, c, k)
    ensures k == 1
    ensures Exact(w.Problem(), c) <==>
            Mul(w.A, w.A) == ZeroMat(w.A.rows, w.A.rows)
            && Congruence(Transpose(w.A), Diag(w.Qd)) == ZeroMat(w.A.rows, w.A.rows)
  {
    var pr, P0 := w.Problem(), RhoI(w.A.rows, w.rho);
    ComputedIsExactIff(w, inv, step, gain, c, k);
    NoInputStopsAtOnce(w, inv, step, gain, c, k);
    NoInputLoop(w, c);
    StepKeeps(pr, inv, step, gain, P0);
    CongruencesAgree(c.AmBKt, c.Pinf, P0);
    TransposeTwice(w.A);
    assert Applies(pr, inv, P0) && c.Pinf == Riccati(pr, CacheOf(pr, inv, 0.0, P0));
    UnchangedIffSpent(w, inv, c.Pinf);
    SpentIff(w);
  }

  lemma UnchangedIffSpent(w: Weights, inv: Mat -> Mat, P1: Mat)
    requires NoInput(w) && Applies(w.Problem(), inv, RhoI(w.A.rows, w.rho))
    requires P1 == Riccati(w.Problem(), CacheOf(w.Problem(), inv, 0.0, RhoI(w.A.rows, w.rho)))
    ensures Unchanged(P1, RhoI(w.A.rows, w.rho), w.A) <==> AllSpent(w)
  {
    if Unchanged(P1, RhoI(w.A.rows, w.rho), w.A) {
      forall x: Vec | |x| == w.A.rows ensures Spent(w, x) { NoInputUnchanged(w, inv, P1, x); }
    } else if AllSpent(w) {
      forall x: Vec | |x| == w.A.rows ensures SameQuad(P1, RhoI(w.A.rows, w.rho), Apply(w.A, x)) {
        assert Spent(w, x);
        NoInputUnchanged(w, inv, P1, x);
      }
    }
  }

  lemma NoInputLoop(w: Weights, c: Cache)
    requires NoInput(w) && c.Fits(w.Problem()) && c.AmBKt == Transpose(MSub(w.A, Mul(w.B, c.Kinf)))
    ensures c.AmBKt == Transpose(w.A)
  {
    ZeroProducts(c.Kinf, w.A.rows);
    var Z := ZeroMat(w.A.rows, w.A.rows);
    forall i | 0 <= i < w.A.rows ensures MSub(w.A, Z).row[i] == w.A.row[i] {
      forall j | 0 <= j < w.A.rows ensures MSub(w.A, Z).row[i][j] == w.A.row[i][j] {}
    }
    assert MSub(w.A, Z).row == w.A.row;
  }

  /** A plant that halves its state in every step. */
  const HALVING: Weights :=
    Weights(RawMat(1, 1, [[0.5]]), RawMat(1, 1, [[0.0]]), [0.0], [0.0], [0.0], 1.0)

  /** So a settled gain does not make a cache exact: here the loop stops after one
      step, at 5/4 of the way to 4/3. */
  lemma SettledGainIsNotEnough(inv: Mat -> Mat, step: Mat -> Mat, gain: Mat -> Mat, c: Cache, k: nat)
    requires KeepsSize(inv) && Inverts(inv) && Performs(HALVING.Problem(), inv, step, gain)
    requires Computed(HALVING, inv, step, gain, c, k)
    ensures k == 1 && !Exact(HALVING.Problem(), c) && c.Pinf.row[0][0] == 1.25
  {
    var A := HALVING.A;
    assert ZeroMat(1, 1).row[0] == [0.0];
    assert HALVING.B.row == ZeroMat(1, 1).row;
    NoInputExactIff(HALVING, inv, step, gain, c, k);
    NoInputStopsAtOnce(HALVING, inv, step, gain, c, k);
    ApplyMul(A, A, [1.0]);
    assert Apply(A, [1.0]) == [0.5] && Apply(A, [0.5]) == [0.25];
    ApplyZeroMat(1, 1, [1.0]);
    HalvingStep(inv, c.Pinf);
  }

  lemma HalvingStep(inv: Mat -> Mat, P1: Mat)
    requires NoInput(HALVING) && Applies(HALVING.Problem(), inv, RhoI(1, 1.0))
    requires P1 == Riccati(HALVING.Problem(), CacheOf(HALVING.Problem(), inv, 0.0, RhoI(1, 1.0)))
    ensures P1.row[0][0] == 1.25
  {
    NoInputStep(HALVING, inv, [1.0]);
    assert Apply(HALVING.A, [1.0]) == [0.5];
    ApplyRhoI(1.0, [1.0]);
    ApplyRhoI(1.0, [0.5]);
    ApplyDiag([0.0], [1.0]);
    assert Unit(1, 0) == [1.0];
    FormOfUnits(P1, 0, 0);
  }
}
