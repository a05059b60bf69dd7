/** The cache of 3rdparty/tinympc/tiny_api.cpp: the Riccati recursion that
    tiny_precompute_and_set_cache runs, what every one of its steps keeps, and
    the cache it leaves.  The matrix inverse is an input. */
module TinyApi {
  import opened Matrix
  import opened Lqr
  import opened Admm
  import opened AdmmOptimality

  /** inverse() of a positive definite matrix is its inverse. */
  ghost predicate Inverts(inv: Mat -> Mat) {
    forall M: Mat {:trigger inv(M)} :: M.rows == M.cols && Pd(M) ==> RightInverse(M, inv(M))
  }

  ghost predicate RightInverse(M: Mat, N: Mat) {
    M.rows == M.cols && Square(N, M.rows) && Mul(M, N) == Identity(M.rows)
  }

  /** The weights that a caller gives: Q1 and R1 are these plus rho on the diagonal. */
  datatype Weights = Weights(A: Mat, B: Mat, f: Vec, Qd: Vec, Rd: Vec, rho: real)
  {
    predicate Valid() {
      && A.rows == A.cols == B.rows == |f| == |Qd| && B.cols == |Rd|
    }

    function Problem(): (pr: Problem)
      requires Valid()
      ensures pr.Valid() && pr.Nx() == A.rows && pr.Nu() == B.cols
    {
      Lqr.Problem.Problem(A, B, f, MAdd(Diag(Qd), RhoI(|Qd|, rho)), MAdd(Diag(Rd), RhoI(|Rd|, rho)))
    }

    ghost predicate Regular() {
      Valid() && NonNegative(Qd) && NonNegative(Rd) && rho > 0.0
    }
  }

  /** The cache that a cost-to-go P gives, with the gain that belongs to it. */
  function CacheOf(pr: Problem, inv: Mat -> Mat, rho: real, P: Mat): (c: Cache)
    requires pr.Valid() && Square(P, pr.Nx()) && Square(inv(QuuOf(pr, P)), pr.Nu())
    ensures c.Fits(pr) && c.Pinf == P
  {
    var Qi := inv(QuuOf(pr, P));
    var K := Mul(Qi, Mul(Transpose(pr.B), Mul(P, pr.A)));
    var AmBKt := Transpose(MSub(pr.A, Mul(pr.B, K)));
    Cache(rho, K, P, Qi, AmBKt, Apply(AmBKt, Apply(P, pr.f)), Apply(Transpose(pr.B), Apply(P, pr.f)))
  }

  function QuuOf(pr: Problem, P: Mat): (r: Mat)
    requires pr.Valid() && Square(P, pr.Nx())
    ensures Square(r, pr.Nu())
  {
    MAdd(pr.R1, Mul(Transpose(pr.B), Mul(P, pr.B)))
  }

  // ----- What one step keeps -----

  /** Positive definite, with the weights of a regular problem. */
  ghost predicate Convex(pr: Problem)
    requires pr.Valid()
  {
    Covariance(pr.Q1, pr.Nx()) && Symmetric(pr.R1) && Pd(pr.R1)
  }

  lemma QuuIsPd(pr: Problem, P: Mat)
    requires pr.Valid() && Convex(pr) && Covariance(P, pr.Nx())
    ensures Pd(QuuOf(pr, P))
  {
    var Bt := Transpose(pr.B);
    TransposeTwice(pr.B);
    MulAssoc(Bt, P, pr.B);
    PsdCongruence(Bt, P);
    forall x: Vec | |x| == pr.Nu() && x != Zeros(pr.Nu()) ensures Quad(QuuOf(pr, P), x) > 0.0 {
      QuadMAdd(pr.R1, Congruence(Bt, P), x);
      assert Quad(Congruence(Bt, P), x) >= 0.0 && Quad(pr.R1, x) > 0.0;
    }
  }

  /** The gain of a covariance satisfies its equations. */
  lemma CacheHasGain(pr: Problem, inv: Mat -> Mat, rho: real, P: Mat)
    requires pr.Valid() && Convex(pr) && Covariance(P, pr.Nx()) && Inverts(inv)
    ensures Square(inv(QuuOf(pr, P)), pr.Nu()) && GainExact(pr, CacheOf(pr, inv, rho, P))
  {
    QuuIsPd(pr, P);
    assert RightInverse(QuuOf(pr, P), inv(QuuOf(pr, P)));
  }

  /** The Bellman equation: a stage followed by P costs Riccati(P) plus the weighted
      square of the distance from the feedback law. */
  lemma Bellman(pr: Problem, c: Cache, x: Vec, u: Vec)
    requires pr.Valid() && c.Fits(pr) && GainExact(pr, c) && |x| == pr.Nx() && |u| == pr.Nu()
    ensures Quad(pr.Q1, x) + Quad(pr.R1, u) + Quad(c.Pinf, Add(Apply(pr.A, x), Apply(pr.B, u))) ==
            Quad(Riccati(pr, c), x) + Quad(Quu(pr, c), Add(u, Apply(c.Kinf, x)))
  {
    var ax, bu, y := Apply(pr.A, x), Apply(pr.B, u), Apply(c.Kinf, x);
    QuuSymmetric(pr, c);
    QuadAdd(c.Pinf, ax, bu);
    QuadAdd(Quu(pr, c), u, y);
    FormRiccati(pr, c, x, x);
    FormQuu(pr, c, u, u);
    FormGain(pr, c, u, x);
    FormGain(pr, c, y, x);
    FormSwap(c.Pinf, ax, bu);
    FormSwap(c.Pinf, ax, Apply(pr.B, y));
  }

  lemma SymmetricFromForm(M: Mat)
    requires M.rows == M.cols
    requires forall x: Vec, y: Vec {:trigger Form(M, x, y)} :: |x| == |y| == M.rows ==> Form(M, x, y) == Form(M, y, x)
    ensures Symmetric(M)
  {
    var n := M.rows;
    forall i | 0 <= i < n ensures Transpose(M).row[i] == M.row[i] {
      forall j | 0 <= j < n ensures Transpose(M).row[i][j] == M.row[i][j] {
        assert Form(M, Unit(n, i), Unit(n, j)) == Form(M, Unit(n, j), Unit(n, i));
        FormOfUnits(M, i, j);
        FormOfUnits(M, j, i);
      }
    }
    assert Transpose(M).row == M.row;
  }

  lemma FormOfUnits(M: Mat, i: nat, j: nat)
    requires i < M.rows == M.cols && j < M.cols
    ensures Form(M, Unit(M.rows, i), Unit(M.rows, j)) == M.row[i][j]
  {
    var v := Apply(M, Unit(M.rows, j));
    DotComm(Unit(M.rows, i), v);
    DotUnit(v, i);
    DotUnit(M.row[i], j);
  }

  lemma RiccatiSymmetric(pr: Problem, c: Cache)
    requires pr.Valid() && c.Fits(pr) && GainExact(pr, c) && Symmetric(pr.Q1)
    ensures Symmetric(Riccati(pr, c))
  {
    var M := Riccati(pr, c);
    forall x: Vec, y: Vec | |x| == |y| == M.rows ensures Form(M, x, y) == Form(M, y, x) {
      RiccatiFormSwaps(pr, c, x, y);
    }
    SymmetricFromForm(M);
  }

  lemma RiccatiFormSwaps(pr: Problem, c: Cache, x: Vec, y: Vec)
    requires pr.Valid() && c.Fits(pr) && GainExact(pr, c) && Symmetric(pr.Q1) && |x| == |y| == pr.Nx()
    ensures Form(Riccati(pr, c), x, y) == Form(Riccati(pr, c), y, x)
  {
    var ax, ay, kx, ky := Apply(pr.A, x), Apply(pr.A, y), Apply(c.Kinf, x), Apply(c.Kinf, y);
    FormRiccati(pr, c, x, y);
    FormRiccati(pr, c, y, x);
    FormSwap(pr.Q1, x, y);
    FormSwap(c.Pinf, ax, ay);
    FormSwap(c.Pinf, ax, Apply(pr.B, ky));
    FormSwap(c.Pinf, ay, Apply(pr.B, kx));
    FormGain(pr, c, ky, x);
    FormGain(pr, c, kx, y);
    QuuSymmetric(pr, c);
    FormSwap(Quu(pr, c), ky, kx);
  }

  /** The control that the feedback law gives leaves no square over. */
  lemma BellmanAtPolicy(pr: Problem, c: Cache, x: Vec)
    requires pr.Valid() && c.Fits(pr) && GainExact(pr, c) && |x| == pr.Nx()
    ensures var u := Neg(Apply(c.Kinf, x));
            Quad(Riccati(pr, c), x) ==
            Quad(pr.Q1, x) + Quad(pr.R1, u) + Quad(c.Pinf, Add(Apply(pr.A, x), Apply(pr.B, u)))
  {
    var u := Neg(Apply(c.Kinf, x));
    Bellman(pr, c, x, u);
    assert Add(u, Apply(c.Kinf, x)) == Zeros(pr.Nu());
    DotZeros(pr.Nu(), Apply(Quu(pr, c), Zeros(pr.Nu())));
  }

  lemma PdAtLeastZero(M: Mat, x: Vec)
    requires Pd(M) && |x| == M.rows
    ensures Quad(M, x) >= 0.0
  {
    if x == Zeros(M.rows) { DotZeros(M.rows, Apply(M, x)); }
  }

  lemma RiccatiAbove(pr: Problem, c: Cache, x: Vec)
    requires pr.Valid() && c.Fits(pr) && GainExact(pr, c) && Pd(pr.R1) && Psd(c.Pinf) && |x| == pr.Nx()
    ensures Quad(pr.Q1, x) <= Quad(Riccati(pr, c), x)
  {
    var u := Neg(Apply(c.Kinf, x));
    BellmanAtPolicy(pr, c, x);
    PdAtLeastZero(pr.R1, u);
    assert Quad(c.Pinf, Add(Apply(pr.A, x), Apply(pr.B, u))) >= 0.0;
  }

  lemma RiccatiAboveAll(pr: Problem, c: Cache, Q: Mat, S: Mat)
    requires pr.Valid() && c.Fits(pr) && GainExact(pr, c) && Pd(pr.R1) && Psd(c.Pinf)
    requires Q == pr.Q1 && S == Riccati(pr, c)
    ensures Loewner(Q, S)
  {
    forall x: Vec | |x| == pr.Nx() ensures Quad(Q, x) <= Quad(S, x) {
      RiccatiAbove(pr, c, x);
    }
  }

  /** A step of the recursion keeps a covariance, and never falls below Q1. */
  lemma RiccatiKeeps(pr: Problem, c: Cache)
    requires pr.Valid() && c.Fits(pr) && GainExact(pr, c) && Convex(pr) && Covariance(c.Pinf, pr.Nx())
    ensures Covariance(Riccati(pr, c), pr.Nx()) && Loewner(pr.Q1, Riccati(pr, c))
  {
    RiccatiSymmetric(pr, c);
    RiccatiAboveAll(pr, c, pr.Q1, Riccati(pr, c));
    AbovePsd(pr.Q1, Riccati(pr, c));
  }

  lemma AbovePsd(A: Mat, B: Mat)
    requires Psd(A) && Loewner(A, B)
    ensures Psd(B)
  {
    forall x: Vec | |x| == A.rows ensures Quad(B, x) >= 0.0 {
      assert Quad(A, x) >= 0.0;
    }
  }

  /** A larger cost-to-go gives a larger one: the feedback law of the larger is one
      of the controls that the smaller could choose. */
  lemma RiccatiMonotone(pr: Problem, c: Cache, d: Cache)
    requires pr.Valid() && c.Fits(pr) && GainExact(pr, c) && d.Fits(pr) && GainExact(pr, d)
    requires Loewner(c.Pinf, d.Pinf)
    ensures Loewner(Riccati(pr, c), Riccati(pr, d))
  {
    forall x: Vec | |x| == pr.Nx() ensures Quad(Riccati(pr, c), x) <= Quad(Riccati(pr, d), x) {
      var u := Neg(Apply(d.Kinf, x));
      var y := Add(Apply(pr.A, x), Apply(pr.B, u));
      BellmanAtPolicy(pr, d, x);
      Bellman(pr, c, x, u);
      PdAtLeastZero(Quu(pr, c), Add(u, Apply(c.Kinf, x)));
      assert Quad(c.Pinf, y) <= Quad(d.Pinf, y);
    }
  }

  // ----- Repeating a step -----

  /** What a step may promise on covariances of size n. */
  ghost predicate KeepsCovariance(step: Mat -> Mat, n: nat) {
    forall P: Mat {:trigger step(P)} :: Covariance(P, n) ==> Covariance(step(P), n)
  }

  ghost predicate Monotone(step: Mat -> Mat, n: nat) {
    forall P: Mat, R: Mat {:trigger step(P), step(R)} ::
      Covariance(P, n) && Covariance(R, n) && Loewner(P, R) ==> Loewner(step(P), step(R))
  }

  ghost function Repeated(step: Mat -> Mat, P0: Mat, k: nat): Mat {
    if k == 0 then P0 else step(Repeated(step, P0, k - 1))
  }

  lemma {:induction false} RepeatedIsCovariance(step: Mat -> Mat, n: nat, P0: Mat, k: nat)
    requires KeepsCovariance(step, n) && Covariance(P0, n)
    ensures Covariance(Repeated(step, P0, k), n)
  {
    if k > 0 { RepeatedIsCovariance(step, n, P0, k - 1); }
  }

  lemma {:induction false} RepeatedRises(step: Mat -> Mat, n: nat, P0: Mat, k: nat)
    requires KeepsCovariance(step, n) && Monotone(step, n) && Covariance(P0, n) && Loewner(P0, step(P0))
    ensures Loewner(Repeated(step, P0, k), Repeated(step, P0, k + 1))
  {
    if k == 0 {
      assert Repeated(step, P0, 1) == step(Repeated(step, P0, 0));
    } else {
      RepeatedRises(step, n, P0, k - 1);
      RepeatedIsCovariance(step, n, P0, k - 1);
      RepeatedIsCovariance(step, n, P0, k);
      assert Repeated(step, P0, k + 1) == step(Repeated(step, P0, k));
    }
  }

  /** Nothing that a step maps below a bound ever leaves from below it. */
  lemma {:induction false} RepeatedStaysBelow(step: Mat -> Mat, n: nat, P0: Mat, k: nat, S: Mat)
    requires KeepsCovariance(step, n) && Covariance(P0, n) && Loewner(P0, S)
    requires forall P: Mat {:trigger step(P)} :: Covariance(P, n) && Loewner(P, S) ==> Loewner(step(P), S)
    ensures Loewner(Repeated(step, P0, k), S)
  {
    if k > 0 {
      RepeatedStaysBelow(step, n, P0, k - 1, S);
      RepeatedIsCovariance(step, n, P0, k - 1);
    }
  }

  // ----- The Riccati step is one -----

  /** inverse() keeps the size of a square matrix. */
  ghost predicate KeepsSize(inv: Mat -> Mat) {
    forall M: Mat {:trigger inv(M)} :: M.rows == M.cols ==> Square(inv(M), M.rows)
  }

  ghost predicate Applies(pr: Problem, inv: Mat -> Mat, P: Mat) {
    pr.Valid() && Square(P, pr.Nx()) && Square(inv(QuuOf(pr, P)), pr.Nu())
  }

  /** step and gain are what one pass of the recursion computes: the next cost-to-go
      and, on the way, the gain. */
  ghost predicate Performs(pr: Problem, inv: Mat -> Mat, step: Mat -> Mat, gain: Mat -> Mat) {
    forall P: Mat {:trigger CacheOf(pr, inv, 0.0, P)} :: Applies(pr, inv, P) ==>
      step(P) == Riccati(pr, CacheOf(pr, inv, 0.0, P)) && gain(P) == CacheOf(pr, inv, 0.0, P).Kinf
  }

  /** There are such functions. */
  lemma PerformsExist(pr: Problem, inv: Mat -> Mat) returns (step: Mat -> Mat, gain: Mat -> Mat)
    ensures Performs(pr, inv, step, gain)
  {
    step := (P: Mat) => if Applies(pr, inv, P) then Riccati(pr, CacheOf(pr, inv, 0.0, P)) else P;
    gain := (P: Mat) => if Applies(pr, inv, P) then CacheOf(pr, inv, 0.0, P).Kinf else P;
  }

  ghost predicate Sound(pr: Problem, inv: Mat -> Mat, step: Mat -> Mat, gain: Mat -> Mat) {
    pr.Valid() && Convex(pr) && KeepsSize(inv) && Inverts(inv) && Performs(pr, inv, step, gain)
  }

  lemma StepKeeps(pr: Problem, inv: Mat -> Mat, step: Mat -> Mat, gain: Mat -> Mat, P: Mat)
    requires Sound(pr, inv, step, gain) && Covariance(P, pr.Nx())
    ensures Covariance(step(P), pr.Nx()) && Loewner(pr.Q1, step(P))
  {
    CacheHasGain(pr, inv, 0.0, P);
    RiccatiKeeps(pr, CacheOf(pr, inv, 0.0, P));
  }

  lemma StepMonotone(pr: Problem, inv: Mat -> Mat, step: Mat -> Mat, gain: Mat -> Mat, P: Mat, R: Mat)
    requires Sound(pr, inv, step, gain) && Covariance(P, pr.Nx()) && Covariance(R, pr.Nx()) && Loewner(P, R)
    ensures Loewner(step(P), step(R))
  {
    CacheHasGain(pr, inv, 0.0, P);
    CacheHasGain(pr, inv, 0.0, R);
    RiccatiMonotone(pr, CacheOf(pr, inv, 0.0, P), CacheOf(pr, inv, 0.0, R));
  }

  /** An exact cache is above what a step makes of anything below it. */
  lemma StepBelowExact(pr: Problem, inv: Mat -> Mat, step: Mat -> Mat, gain: Mat -> Mat, P: Mat, c: Cache)
    requires Sound(pr, inv, step, gain) && Covariance(P, pr.Nx())
    requires c.Fits(pr) && Exact(pr, c) && Loewner(P, c.Pinf)
    ensures Loewner(step(P), c.Pinf)
  {
    CacheHasGain(pr, inv, 0.0, P);
    RiccatiMonotone(pr, CacheOf(pr, inv, 0.0, P), c);
  }

  /** The names by which the general lemmas know the step. */
  lemma StepPromises(pr: Problem, inv: Mat -> Mat, step: Mat -> Mat, gain: Mat -> Mat)
    requires Sound(pr, inv, step, gain)
    ensures KeepsCovariance(step, pr.Nx()) && Monotone(step, pr.Nx())
  {
    forall P: Mat | Covariance(P, pr.Nx()) ensures Covariance(step(P), pr.Nx()) {
      StepKeeps(pr, inv, step, gain, P);
    }
    forall P: Mat, R: Mat | Covariance(P, pr.Nx()) && Covariance(R, pr.Nx()) && Loewner(P, R)
      ensures Loewner(step(P), step(R))
    {
      StepMonotone(pr, inv, step, gain, P, R);
    }
  }

  lemma LoewnerTransitive(A: Mat, B: Mat, C: Mat)
    requires Loewner(A, B) && Loewner(B, C)
    ensures Loewner(A, C)
  {
    forall x: Vec | |x| == A.rows ensures Quad(A, x) <= Quad(C, x) {
      assert Quad(A, x) <= Quad(B, x) <= Quad(C, x);
    }
  }

  /** Every iterate is a covariance. */
  lemma CostToGoIsCovariance(pr: Problem, inv: Mat -> Mat, step: Mat -> Mat, gain: Mat -> Mat, P0: Mat, k: nat)
    requires Sound(pr, inv, step, gain) && Covariance(P0, pr.Nx())
    ensures Covariance(Repeated(step, P0, k), pr.Nx())
  {
    StepPromises(pr, inv, step, gain);
    RepeatedIsCovariance(step, pr.Nx(), P0, k);
  }

  /** Main result 1: from a start below the state weight, as rho on the diagonal is,
      the iterates of the recursion only ever grow ... */
  lemma CostToGoRises(pr: Problem, inv: Mat -> Mat, step: Mat -> Mat, gain: Mat -> Mat, P0: Mat, k: nat)
    requires Sound(pr, inv, step, gain) && Covariance(P0, pr.Nx()) && Loewner(P0, pr.Q1)
    ensures Loewner(Repeated(step, P0, k), Repeated(step, P0, k + 1))
  {
    StepPromises(pr, inv, step, gain);
    StepKeeps(pr, inv, step, gain, P0);
    LoewnerTransitive(P0, pr.Q1, step(P0));
    RepeatedRises(step, pr.Nx(), P0, k);
  }

  /** ... and never above the cost-to-go of an exact cache. */
  lemma CostToGoStaysBelow(pr: Problem, inv: Mat -> Mat, step: Mat -> Mat, gain: Mat -> Mat,
                           P0: Mat, k: nat, c: Cache)
    requires Sound(pr, inv, step, gain) && Covariance(P0, pr.Nx()) && Loewner(P0, pr.Q1)
    requires c.Fits(pr) && Exact(pr, c) && Psd(c.Pinf)
    ensures Loewner(Repeated(step, P0, k), c.Pinf)
  {
    var S := c.Pinf;
    StepPromises(pr, inv, step, gain);
    RiccatiAboveAll(pr, c, pr.Q1, S);
    LoewnerTransitive(P0, pr.Q1, S);
    forall P: Mat | Covariance(P, pr.Nx()) && Loewner(P, S) ensures Loewner(step(P), S) {
      StepBelowExact(pr, inv, step, gain, P, c);
    }
    RepeatedStaysBelow(step, pr.Nx(), P0, k, S);
  }

  // ----- What the iterates mean -----

  function Moved(pr: Problem, x: Vec, u: Vec): (y: Vec)
    requires pr.Valid() && |x| == pr.Nx() && |u| == pr.Nu()
    ensures |y| == pr.Nx()
  {
    Add(Apply(pr.A, x), Apply(pr.B, u))
  }

  function StageQuad(pr: Problem, x: Vec, u: Vec): real
    requires pr.Valid() && |x| == pr.Nx() && |u| == pr.Nu()
  {
    Quad(pr.Q1, x) + Quad(pr.R1, u)
  }

  /** Twice the cost of a trajectory without affine term, with P0 at its end. */
  ghost function HorizonCost(pr: Problem, P0: Mat, x: Vec, us: seq<Vec>): real
    requires pr.Valid() && Square(P0, pr.Nx()) && |x| == pr.Nx() && Sized(us, pr.Nu())
    decreases |us|
  {
    if us == [] then Quad(P0, x)
    else StageQuad(pr, x, us[0]) + HorizonCost(pr, P0, Moved(pr, x, us[0]), us[1..])
  }

  lemma StageLowerBound(pr: Problem, inv: Mat -> Mat, step: Mat -> Mat, gain: Mat -> Mat, P: Mat, x: Vec, u: Vec)
    requires Sound(pr, inv, step, gain) && Covariance(P, pr.Nx()) && |x| == pr.Nx() && |u| == pr.Nu()
    ensures Square(step(P), pr.Nx()) && StageQuad(pr, x, u) + Quad(P, Moved(pr, x, u)) >= Quad(step(P), x)
  {
    CacheHasGain(pr, inv, 0.0, P);
    var c := CacheOf(pr, inv, 0.0, P);
    Bellman(pr, c, x, u);
    PdAtLeastZero(Quu(pr, c), Add(u, Apply(c.Kinf, x)));
  }

  lemma BestControl(pr: Problem, inv: Mat -> Mat, step: Mat -> Mat, gain: Mat -> Mat, P: Mat, x: Vec) returns (u: Vec)
    requires Sound(pr, inv, step, gain) && Covariance(P, pr.Nx()) && |x| == pr.Nx()
    ensures |u| == pr.Nu() && Square(step(P), pr.Nx())
    ensures StageQuad(pr, x, u) + Quad(P, Moved(pr, x, u)) == Quad(step(P), x)
  {
    CacheHasGain(pr, inv, 0.0, P);
    var c := CacheOf(pr, inv, 0.0, P);
    u := Neg(Apply(c.Kinf, x));
    BellmanAtPolicy(pr, c, x);
  }

  lemma FirstStage(pr: Problem, P0: Mat, x: Vec, u: Vec, rest: seq<Vec>)
    requires pr.Valid() && Square(P0, pr.Nx()) && |x| == pr.Nx() && |u| == pr.Nu() && Sized(rest, pr.Nu())
    ensures Sized([u] + rest, pr.Nu())
    ensures HorizonCost(pr, P0, x, [u] + rest) == StageQuad(pr, x, u) + HorizonCost(pr, P0, Moved(pr, x, u), rest)
  {
    assert ([u] + rest)[0] == u && ([u] + rest)[1..] == rest;
  }

  /** x' P x, and 0 where the sizes do not fit. */
  function Energy(P: Mat, x: Vec): real { if Square(P, |x|) then Quad(P, x) else 0.0 }

  /** No controls cost less than the k-th iterate says ... */
  lemma {:induction false} IterateIsLowerBound(pr: Problem, inv: Mat -> Mat, step: Mat -> Mat, gain: Mat -> Mat,
                                               P0: Mat, x: Vec, us: seq<Vec>)
    requires Sound(pr, inv, step, gain) && Covariance(P0, pr.Nx()) && |x| == pr.Nx() && Sized(us, pr.Nu())
    ensures HorizonCost(pr, P0, x, us) >= Energy(Repeated(step, P0, |us|), x)
    decreases |us|
  {
    if us != [] {
      var P, y := Repeated(step, P0, |us| - 1), Moved(pr, x, us[0]);
      IterateIsLowerBound(pr, inv, step, gain, P0, y, us[1..]);
      CostToGoIsCovariance(pr, inv, step, gain, P0, |us| - 1);
      StageLowerBound(pr, inv, step, gain, P, x, us[0]);
    }
  }

  /** ... and some controls cost just that: it is the optimal cost over k stages. */
  lemma {:induction false} IterateIsAttained(pr: Problem, inv: Mat -> Mat, step: Mat -> Mat, gain: Mat -> Mat,
                                             P0: Mat, x: Vec, k: nat) returns (us: seq<Vec>)
    requires Sound(pr, inv, step, gain) && Covariance(P0, pr.Nx()) && |x| == pr.Nx()
    ensures |us| == k && Sized(us, pr.Nu()) && HorizonCost(pr, P0, x, us) == Energy(Repeated(step, P0, k), x)
    decreases k
  {
    if k == 0 {
      us := [];
    } else {
      var P := Repeated(step, P0, k - 1);
      CostToGoIsCovariance(pr, inv, step, gain, P0, k - 1);
      var u := BestControl(pr, inv, step, gain, P, x);
      var rest := IterateIsAttained(pr, inv, step, gain, P0, Moved(pr, x, u), k - 1);
      us := [u] + rest;
      FirstStage(pr, P0, x, u, rest);
    }
  }

  // ----- The loop -----

  const MAX_STEPS: nat := 1000

  /** The gain of step k; step 0 stands for the zero gain it starts from. */
  ghost function GainAt(zero: Mat, step: Mat -> Mat, gain: Mat -> Mat, P0: Mat, k: nat): Mat {
    if k == 0 then zero else gain(Repeated(step, P0, k - 1))
  }

  /** The state of the loop after k steps. */
  ghost predicate Reached(zero: Mat, step: Mat -> Mat, gain: Mat -> Mat, P0: Mat, k: nat, K: Mat, P: Mat) {
    P == Repeated(step, P0, k) && K == GainAt(zero, step, gain, P0, k)
  }

  lemma ReachedNext(zero: Mat, step: Mat -> Mat, gain: Mat -> Mat, P0: Mat, k: nat, K: Mat, P: Mat)
    requires Reached(zero, step, gain, P0, k, K, P)
    ensures Reached(zero, step, gain, P0, k + 1, gain(P), step(P))
  {
  }

  /** The loop's test on two gains. */
  predicate SameGain(K: Mat, L: Mat) {
    K.rows == L.rows && K.cols == L.cols && MaxDiffAll(K.row, L.row) < 0.00001
  }

  /** Two gains count as the same exactly when no entry differs by 0.00001 or more. */
  lemma SameGainIff(K: Mat, L: Mat)
    ensures SameGain(K, L) <==>
            && K.rows == L.rows && K.cols == L.cols
            && forall i, j :: 0 <= i < K.rows && 0 <= j < K.cols ==> -0.00001 < K.row[i][j] - L.row[i][j] < 0.00001
  {
    if K.rows == L.rows && K.cols == L.cols { ResidualIff(0.00001, K.row, L.row); }
  }

  ghost predicate SettledAt(zero: Mat, step: Mat -> Mat, gain: Mat -> Mat, P0: Mat, k: nat)
    requires k >= 1
  {
    SameGain(GainAt(zero, step, gain, P0, k), GainAt(zero, step, gain, P0, k - 1))
  }

  /** The loop stops at the first step that leaves the gain as it was, or at the last. */
  ghost predicate Stopped(zero: Mat, step: Mat -> Mat, gain: Mat -> Mat, P0: Mat, k: nat) {
    && 1 <= k <= MAX_STEPS && (k == MAX_STEPS || SettledAt(zero, step, gain, P0, k))
    && forall j :: 1 <= j < k ==> !SettledAt(zero, step, gain, P0, j)
  }

  /** The products as the source associates them. */
  lemma GainOfStep(pr: Problem, inv: Mat -> Mat, P: Mat)
    requires pr.Valid() && KeepsSize(inv) && Square(P, pr.Nx())
    ensures var Bt := Transpose(pr.B);
      && MAdd(pr.R1, Mul(Mul(Bt, P), pr.B)) == QuuOf(pr, P) && Applies(pr, inv, P)
      && Mul(Mul(Mul(inv(QuuOf(pr, P)), Bt), P), pr.A) == CacheOf(pr, inv, 0.0, P).Kinf
  {
    var Bt := Transpose(pr.B);
    var Qi := inv(QuuOf(pr, P));
    assert Square(Qi, pr.Nu());
    MulAssoc(Bt, P, pr.B);
    MulAssoc(Qi, Bt, P);
    MulAssoc(Qi, Mul(Bt, P), pr.A);
    MulAssoc(Bt, P, pr.A);
  }

  lemma RiccatiOfStep(pr: Problem, inv: Mat -> Mat, P: Mat, K: Mat)
    requires Applies(pr, inv, P) && K == CacheOf(pr, inv, 0.0, P).Kinf
    ensures MAdd(pr.Q1, Mul(Mul(Transpose(pr.A), P), MSub(pr.A, Mul(pr.B, K)))) == Riccati(pr, CacheOf(pr, inv, 0.0, P))
  {
    MulAssoc(Transpose(pr.A), P, MSub(pr.A, Mul(pr.B, K)));
  }

  /** One pass of the loop. */
  method RiccatiStep(pr: Problem, inv: Mat -> Mat, Ptp1: Mat, ghost step: Mat -> Mat, ghost gain: Mat -> Mat)
    returns (Kinf: Mat, Pinf: Mat)
    requires pr.Valid() && KeepsSize(inv) && Performs(pr, inv, step, gain) && Square(Ptp1, pr.Nx())
    ensures Kinf == gain(Ptp1) && Pinf == step(Ptp1) && Square(Pinf, pr.Nx())
    ensures Kinf.rows == pr.Nu() && Kinf.cols == pr.Nx()
  {
    var Bt := Transpose(pr.B);
    GainOfStep(pr, inv, Ptp1);
    Kinf := Mul(Mul(Mul(inv(MAdd(pr.R1, Mul(Mul(Bt, Ptp1), pr.B))), Bt), Ptp1), pr.A);
    RiccatiOfStep(pr, inv, Ptp1, Kinf);
    Pinf := MAdd(pr.Q1, Mul(Mul(Transpose(pr.A), Ptp1), MSub(pr.A, Mul(pr.B, Kinf))));
  }

  /** The recursion, at most a thousand times, until the gain settles. */
  method RiccatiLoop(pr: Problem, inv: Mat -> Mat, P0: Mat, zero: Mat, ghost step: Mat -> Mat, ghost gain: Mat -> Mat)
    returns (Kinf: Mat, Pinf: Mat, ghost k: nat)
    requires pr.Valid() && KeepsSize(inv) && Performs(pr, inv, step, gain) && Square(P0, pr.Nx())
    requires zero.rows == pr.Nu() && zero.cols == pr.Nx()
    ensures Stopped(zero, step, gain, P0, k) && Reached(zero, step, gain, P0, k, Kinf, Pinf)
    ensures Square(Pinf, pr.Nx()) && Kinf.rows == pr.Nu() && Kinf.cols == pr.Nx()
  {
    var Ktp1, Ptp1 := zero, P0;
    Kinf, Pinf, k := Ktp1, Ptp1, 0;
    var i := 0;
    while i < MAX_STEPS
      invariant 0 <= i <= MAX_STEPS && k == i
      invariant Square(Ptp1, pr.Nx()) && Ktp1.rows == pr.Nu() && Ktp1.cols == pr.Nx()
      invariant Reached(zero, step, gain, P0, i, Ktp1, Ptp1) && Kinf == Ktp1 && Pinf == Ptp1
      invariant forall j :: 1 <= j <= i ==> !SettledAt(zero, step, gain, P0, j)
    {
      ReachedNext(zero, step, gain, P0, i, Ktp1, Ptp1);
      Kinf, Pinf := RiccatiStep(pr, inv, Ptp1, step, gain);
      k := i + 1;
      if SameGain(Kinf, Ktp1) { break; }
      Ktp1, Ptp1 := Kinf, Pinf;
      i := i + 1;
    }
  }

  /** The derived matrices: they use the last gain, but the inverse that belongs to
      the last cost-to-go. */
  ghost predicate Derived(pr: Problem, inv: Mat -> Mat, c: Cache)
    requires pr.Valid()
  {
    && c.Fits(pr) && c.QuuInv == inv(QuuOf(pr, c.Pinf))
    && c.AmBKt == Transpose(MSub(pr.A, Mul(pr.B, c.Kinf)))
    && c.APf == Apply(c.AmBKt, Apply(c.Pinf, pr.f)) && c.BPf == Apply(Transpose(pr.B), Apply(c.Pinf, pr.f))
  }

  method DeriveCache(pr: Problem, inv: Mat -> Mat, rho: real, Kinf: Mat, Pinf: Mat) returns (c: Cache)
    requires pr.Valid() && KeepsSize(inv) && Square(Pinf, pr.Nx()) && Kinf.rows == pr.Nu() && Kinf.cols == pr.Nx()
    ensures Derived(pr, inv, c) && c.rho == rho && c.Kinf == Kinf && c.Pinf == Pinf
  {
    var Bt := Transpose(pr.B);
    GainOfStep(pr, inv, Pinf);
    var QuuInv := inv(MAdd(pr.R1, Mul(Mul(Bt, Pinf), pr.B)));
    var AmBKt := Transpose(MSub(pr.A, Mul(pr.B, Kinf)));
    ApplyMul(AmBKt, Pinf, pr.f);
    ApplyMul(Bt, Pinf, pr.f);
    c := Cache(rho, Kinf, Pinf, QuuInv, AmBKt, Apply(Mul(AmBKt, Pinf), pr.f), Apply(Mul(Bt, Pinf), pr.f));
  }

  /** What the call leaves after k steps of the loop. */
  ghost predicate Computed(w: Weights, inv: Mat -> Mat, step: Mat -> Mat, gain: Mat -> Mat, c: Cache, k: nat)
    requires w.Valid()
  {
    var zero, P0 := ZeroMat(w.B.cols, w.A.rows), RhoI(w.A.rows, w.rho);
    && Derived(w.Problem(), inv, c) && c.rho == w.rho
    && Stopped(zero, step, gain, P0, k) && Reached(zero, step, gain, P0, k, c.Kinf, c.Pinf)
  }

  /** tiny_precompute_and_set_cache, whatever the weights. */
  method PrecomputeCache(w: Weights, inv: Mat -> Mat)
    returns (c: Cache, ghost k: nat, ghost step: Mat -> Mat, ghost gain: Mat -> Mat)
    requires w.Valid() && KeepsSize(inv)
    ensures Performs(w.Problem(), inv, step, gain)
    ensures Computed(w, inv, step, gain, c, k)
  {
    var pr, zero := w.Problem(), ZeroMat(w.B.cols, w.A.rows);
    var P0 := RhoI(w.A.rows, w.rho);
    step, gain := PerformsExist(pr, inv);
    var Kinf, Pinf;
    Kinf, Pinf, k := RiccatiLoop(pr, inv, P0, zero, step, gain);
    c := DeriveCache(pr, inv, w.rho, Kinf, Pinf);
  }

  lemma RhoIsCovariance(w: Weights)
    requires w.Regular()
    ensures Covariance(RhoI(w.A.rows, w.rho), w.A.rows)
  {
    var d := seq(w.A.rows, i => w.rho);
    SymmetricDiag(d);
    PsdDiag(d);
  }

  lemma RhoQuad(n: nat, rho: real, x: Vec)
    requires |x| == n && rho > 0.0 && x != Zeros(n)
    ensures Quad(RhoI(n, rho), x) > 0.0
  {
    ApplyRhoI(rho, x);
    DotScale(rho, x, x);
    SelfDot(x);
    TimesOrder(rho, Dot(x, x));
  }

  lemma WeightIsCovariance(d: Vec, rho: real)
    requires NonNegative(d) && rho > 0.0
    ensures Covariance(MAdd(Diag(d), RhoI(|d|, rho)), |d|)
  {
    var r := seq(|d|, i => rho);
    SymmetricDiag(d);
    SymmetricDiag(r);
    PsdDiag(d);
    PsdDiag(r);
    SymmetricMAdd(Diag(d), Diag(r));
    PsdMAdd(Diag(d), Diag(r));
  }

  /** The weights of a regular problem are convex. */
  lemma RegularIsConvex(w: Weights)
    requires w.Regular()
    ensures Convex(w.Problem())
  {
    WeightIsCovariance(w.Qd, w.rho);
    WeightIsCovariance(w.Rd, w.rho);
    var n := |w.Rd|;
    var R1 := MAdd(Diag(w.Rd), RhoI(n, w.rho));
    forall x: Vec | |x| == n && x != Zeros(n) ensures Quad(R1, x) > 0.0 {
      QuadMAdd(Diag(w.Rd), RhoI(n, w.rho), x);
      PsdDiag(w.Rd);
      assert Quad(Diag(w.Rd), x) >= 0.0;
      RhoQuad(n, w.rho, x);
    }
  }

  lemma RhoBelowWeight(w: Weights)
    requires w.Regular()
    ensures Loewner(RhoI(w.A.rows, w.rho), w.Problem().Q1)
  {
    var n := w.A.rows;
    PsdDiag(w.Qd);
    forall x: Vec | |x| == n ensures Quad(RhoI(n, w.rho), x) <= Quad(w.Problem().Q1, x) {
      QuadMAdd(Diag(w.Qd), RhoI(n, w.rho), x);
      assert Quad(Diag(w.Qd), x) >= 0.0;
    }
  }

  /** All of the above holds of a regular problem. */
  lemma RegularIsSound(w: Weights, inv: Mat -> Mat, step: Mat -> Mat, gain: Mat -> Mat)
    requires w.Regular() && KeepsSize(inv) && Inverts(inv) && Performs(w.Problem(), inv, step, gain)
    ensures Sound(w.Problem(), inv, step, gain)
    ensures Covariance(RhoI(w.A.rows, w.rho), w.A.rows) && Loewner(RhoI(w.A.rows, w.rho), w.Problem().Q1)
  {
    RegularIsConvex(w);
    RhoIsCovariance(w);
    RhoBelowWeight(w);
  }
}
