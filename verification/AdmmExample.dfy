/** Problems that meet all that the convergence results of the solver ask for: plants that
    come to rest at once, of every size, with any input weights and rho 1; and one whose
    fixed point lies at a bound. */
module AdmmExample {
  import opened Matrix
  import opened Lqr
  import opened Admm
  import opened AdmmOptimality
  import opened AdmmConvergence
  import opened CacheExactness
  import opened TinyApi

  // ----- The plant and its cache -----

  function Rest(n: nat, Rd: Vec): (w: Weights)
    ensures w.Valid()
  {
    Weights(ZeroMat(n, n), ZeroMat(n, |Rd|), Zeros(n), Zeros(n), Rd, 1.0)
  }

  /** 1 / (Rd + rho) */
  function Shares(Rd: Vec): (r: Vec)
    requires NonNegative(Rd)
    ensures |r| == |Rd|
  {
    seq(|Rd|, i requires 0 <= i < |Rd| => 1.0 / (Rd[i] + 1.0))
  }

  function RestCache(n: nat, Rd: Vec): (c: Cache)
    requires NonNegative(Rd)
    ensures c.Fits(Rest(n, Rd).Problem())
  {
    var m := |Rd|;
    Cache(1.0, ZeroMat(m, n), Rest(n, Rd).Problem().Q1, Diag(Shares(Rd)), ZeroMat(n, n), Zeros(n), Zeros(m))
  }

  lemma MAddZero(M: Mat)
    ensures MAdd(M, ZeroMat(M.rows, M.cols)) == M && MSub(M, ZeroMat(M.rows, M.cols)) == M
  {
    var Z := ZeroMat(M.rows, M.cols);
    forall i | 0 <= i < M.rows ensures MAdd(M, Z).row[i] == M.row[i] && MSub(M, Z).row[i] == M.row[i] {
      assert Z.row[i] == Zeros(M.cols);
    }
    assert MAdd(M, Z).row == M.row && MSub(M, Z).row == M.row;
  }

  lemma SharesInvert(Rd: Vec)
    requires NonNegative(Rd)
    ensures Mul(MAdd(Diag(Rd), RhoI(|Rd|, 1.0)), Diag(Shares(Rd))) == Identity(|Rd|)
  {
    var R1, D, m := MAdd(Diag(Rd), RhoI(|Rd|, 1.0)), Diag(Shares(Rd)), |Rd|;
    forall x: Vec | |x| == m ensures Apply(Mul(R1, D), x) == Apply(Identity(m), x) {
      var y := Hadamard(Shares(Rd), x);
      ApplyMul(R1, D, x);
      ApplyDiag(Shares(Rd), x);
      ApplyMAdd(Diag(Rd), RhoI(m, 1.0), y);
      ApplyDiag(Rd, y);
      ApplyRhoI(1.0, y);
      ApplyIdentity(m, x);
      forall i | 0 <= i < m ensures Add(Hadamard(Rd, y), Scale(1.0, y))[i] == x[i] { Share(Rd[i], x[i]); }
    }
    SameAction(Mul(R1, D), Identity(m));
  }

  lemma Share(r: real, x: real)
    requires r >= 0.0
    ensures Times(r, Times(1.0 / (r + 1.0), x)) + Times(1.0, Times(1.0 / (r + 1.0), x)) == x
  {
    var q := 1.0 / (r + 1.0);
    assert q * (r + 1.0) == 1.0;
    assert r * (q * x) + q * x == (q * (r + 1.0)) * x;
  }

  lemma RestGain(n: nat, Rd: Vec)
    requires NonNegative(Rd)
    ensures Quu(Rest(n, Rd).Problem(), RestCache(n, Rd)) == Rest(n, Rd).Problem().R1
    ensures GainExact(Rest(n, Rd).Problem(), RestCache(n, Rd))
  {
    var pr, c, m := Rest(n, Rd).Problem(), RestCache(n, Rd), |Rd|;
    RegularIsConvex(Rest(n, Rd));
    TransposeZero(n, m);
    ZeroProducts(Mul(c.Pinf, pr.B), m);
    ZeroProducts(Mul(c.Pinf, pr.A), m);
    ZeroProducts(c.QuuInv, n);
    MAddZero(pr.R1);
    SharesInvert(Rd);
  }

  lemma RestExact(n: nat, Rd: Vec)
    requires NonNegative(Rd)
    ensures Exact(Rest(n, Rd).Problem(), RestCache(n, Rd))
  {
    var pr, c := Rest(n, Rd).Problem(), RestCache(n, Rd);
    RestGain(n, Rd);
    ZeroProducts(c.Kinf, n);
    MAddZero(pr.A);
    TransposeZero(n, n);
    ZeroProducts(Mul(c.Pinf, pr.A), n);
    MAddZero(pr.Q1);
    TransposeZero(n, |Rd|);
    ApplyZeros(c.Pinf);
    ApplyZeros(c.AmBKt);
    ApplyZeros(Transpose(pr.B));
  }

  // ----- The task -----

  /** Horizon N, inputs to track, and bounds on the inputs if there are any. */
  function Task(n: nat, Rd: Vec, N: nat, Uref: Columns, bounded: bool, lo: Columns, hi: Columns): (s: Setup)
    requires N >= 1 && NonNegative(Rd)
    requires Shape(Uref, |Rd|, N - 1) && Shape(lo, |Rd|, N - 1) && Shape(hi, |Rd|, N - 1)
    ensures s.Valid()
  {
    var xs := ZeroColumns(n, N);
    Setup(Rest(n, Rd).Problem(), RestCache(n, Rd), N, Zeros(n), Rd, xs, Uref, xs, xs, lo, hi,
          Settings(0.001, 0.001, 1000, 1, false, bounded))
  }

  lemma TaskIsWellPosed(n: nat, Rd: Vec, N: nat, Uref: Columns, bounded: bool, lo: Columns, hi: Columns)
    requires N >= 1 && NonNegative(Rd)
    requires Shape(Uref, |Rd|, N - 1) && Shape(lo, |Rd|, N - 1) && Shape(hi, |Rd|, N - 1)
    ensures WellPosed(Task(n, Rd, N, Uref, bounded, lo, hi)) && Tolerant(Task(n, Rd, N, Uref, bounded, lo, hi))
  {
    RestExact(n, Rd);
    RegularIsConvex(Rest(n, Rd));
  }

  // ----- Nothing to track -----

  function Quiet(n: nat, Rd: Vec, N: nat): (s: Setup)
    requires N >= 1 && NonNegative(Rd)
    ensures s.Valid()
  {
    var us := ZeroColumns(|Rd|, N - 1);
    Task(n, Rd, N, us, false, us, us)
  }

  function Still(n: nat, m: nat, N: nat): Work
    requires N >= 1
  {
    var xs, us := ZeroColumns(n, N), ZeroColumns(m, N - 1);
    Work(xs, us, xs, us, xs, us, xs, xs, us, us, xs, us)
  }

  lemma NothingCosts(weight: Vec, k: nat)
    ensures var z := ZeroColumns(|weight|, k); ColumnsLinearCost(weight, z, 1.0, z, z) == z
  {
    var z := Zeros(|weight|);
    assert LinearCost(weight, z, 1.0, z, z) == z;
  }

  lemma StillSettled(n: nat, Rd: Vec, N: nat)
    requires N >= 1 && NonNegative(Rd)
    ensures Still(n, |Rd|, N).Fits(Quiet(n, Rd, N)) && Settled(Quiet(n, Rd, N), Still(n, |Rd|, N))
  {
    var s := Quiet(n, Rd, N);
    NothingCosts(Zeros(n), N);
    NothingCosts(Rd, N - 1);
    ApplyZeros(Transpose(s.cache.Pinf));
    assert TerminalCost(s.cache.Pinf, Zeros(n), 1.0, Zeros(n), Zeros(n)) == Zeros(n);
    HomogeneousBackward(s.pr, s.cache, N - 1);
    StillRolls(n, Rd, N);
  }

  lemma StillRolls(n: nat, Rd: Vec, N: nat)
    requires N >= 1 && NonNegative(Rd)
    ensures var us := ZeroColumns(|Rd|, N - 1);
      ForwardDone(Rest(n, Rd).Problem(), RestCache(n, Rd), ZeroColumns(n, N), us, us)
  {
    var pr, c, m := Rest(n, Rd).Problem(), RestCache(n, Rd), |Rd|;
    ApplyZeros(c.Kinf);
    ApplyZeros(pr.A);
    ApplyZeros(pr.B);
    assert Policy(pr, c, Zeros(n), Zeros(m)) == Zeros(m);
    assert Next(pr, Zeros(n), Zeros(m)) == Zeros(n);
  }

  /** The hypotheses of the convergence results hold together, in every size. */
  lemma ConvergentExists(n: nat, Rd: Vec, N: nat)
    requires N >= 1 && NonNegative(Rd)
    ensures var w := Still(n, |Rd|, N); Convergent(Quiet(n, Rd, N), w, w)
  {
    var us := ZeroColumns(|Rd|, N - 1);
    TaskIsWellPosed(n, Rd, N, us, false, us, us);
    StillSettled(n, Rd, N);
  }

  // ----- A reference out of reach -----

  /** One state, one input between -1 and 1, two columns, and an input reference. */
  function Pull(uref: real, bounded: bool): (s: Setup)
    ensures s.Valid()
  {
    Task(1, [1.0], 2, [[uref]], bounded, [[-1.0]], [[1.0]])
  }

  /** The input at its upper bound, held there by its dual. */
  function AtBound(uref: real): Work {
    var xs := ZeroColumns(1, 2);
    Work(xs, [[1.0]], xs, [[-2.0]], xs, [[-1.0]], xs, xs, [[1.0]], [[1.0]], xs, [[uref - 1.0]])
  }

  lemma AtBoundTerms(uref: real)
    ensures AtBound(uref).Fits(Pull(uref, true)) && AtBound(uref).LinearTermsCurrent(Pull(uref, true))
  {
    var s, w := Pull(uref, true), AtBound(uref);
    NothingCosts(Zeros(1), 2);
    ApplyZeros(Transpose(s.cache.Pinf));
    assert TerminalCost(s.cache.Pinf, Zeros(1), 1.0, Zeros(1), Zeros(1)) == Zeros(1);
    assert Times(1.0, uref) == uref && Times(1.0, 1.0 - (uref - 1.0)) == 2.0 - uref;
    assert LinearCost([1.0], [uref], 1.0, [1.0], [uref - 1.0]) == [-2.0];
    assert ColumnsLinearCost(s.Rd, s.Uref, 1.0, w.znew, w.y) == w.r;
  }

  lemma AtBoundPasses(uref: real)
    ensures var s, w := Pull(uref, true), AtBound(uref);
      && w.Fits(s)
      && BackwardDone(s.pr, s.cache, w.q, w.r, w.p, w.d) && ForwardDone(s.pr, s.cache, w.x, w.u, w.d)
  {
    var s, w, z := Pull(uref, true), AtBound(uref), Zeros(1);
    var c := s.cache;
    TransposeZero(1, 1);
    ApplyZeroMat(1, 1, z);
    ApplyZeroMat(1, 1, [-2.0]);
    ApplyZeroMat(1, 1, [1.0]);
    assert Add(Add(z, [-2.0]), z) == [-2.0];
    ApplyDiag(Shares([1.0]), [-2.0]);
    assert Times(0.5, -2.0) == -1.0;
    assert BackD(s.pr, c, z, [-2.0]) == [-1.0];
    assert BackP(s.pr, c, z, z, [-2.0]) == z;
    assert Policy(s.pr, c, z, [-1.0]) == [1.0];
    assert Next(s.pr, z, [1.0]) == z;
  }

  /** They hold together also with a bound that is active, and a dual that is not zero. */
  lemma ConvergentAtBound(uref: real)
    requires uref > 1.0
    ensures Convergent(Pull(uref, true), AtBound(uref), AtBound(uref))
    ensures AtBound(uref).y[0][0] > 0.0
  {
    TaskIsWellPosed(1, [1.0], 2, [[uref]], true, [[-1.0]], [[1.0]]);
    AtBoundTerms(uref);
    AtBoundPasses(uref);
  }
}
