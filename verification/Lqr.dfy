/** The linear-quadratic core of the ADMM solver: what the cached matrices of
    3rdparty/tinympc/tiny_api.cpp mean, and why one backward and one forward
    pass of 3rdparty/tinympc/admm.cpp give the unique optimal trajectory. */
module Lqr {
  import opened Matrix

  /** x[i+1] = A x[i] + B u[i] + f, with stage weights Q1 and R1. */
  datatype Problem = Problem(A: Mat, B: Mat, f: Vec, Q1: Mat, R1: Mat)
  {
    predicate Valid() {
      && A.rows == A.cols == B.rows == |f|
      && Q1.rows == Q1.cols == A.rows
      && R1.rows == R1.cols == B.cols
    }
    function Nx(): nat { A.rows }
    function Nu(): nat { B.cols }
  }

  datatype Cache = Cache(
    rho: real, Kinf: Mat, Pinf: Mat, QuuInv: Mat, AmBKt: Mat, APf: Vec, BPf: Vec)
  {
    predicate Fits(pr: Problem)
      requires pr.Valid()
    {
      && Kinf.rows == pr.Nu() && Kinf.cols == pr.Nx()
      && Square(Pinf, pr.Nx()) && Square(QuuInv, pr.Nu()) && Square(AmBKt, pr.Nx())
      && |APf| == pr.Nx() && |BPf| == pr.Nu()
    }
  }

  function Quu(pr: Problem, c: Cache): (r: Mat)
    requires pr.Valid() && c.Fits(pr)
    ensures Square(r, pr.Nu())
  {
    MAdd(pr.R1, Mul(Transpose(pr.B), Mul(c.Pinf, pr.B)))
  }

  /** The gain that belongs to Pinf. */
  ghost predicate GainExact(pr: Problem, c: Cache)
    requires pr.Valid() && c.Fits(pr)
  {
    && Symmetric(pr.R1) && Symmetric(c.Pinf) && Pd(Quu(pr, c))
    && Mul(Quu(pr, c), c.QuuInv) == Identity(pr.Nu())
    && c.Kinf == Mul(c.QuuInv, Mul(Transpose(pr.B), Mul(c.Pinf, pr.A)))
  }

  /** One step of the Riccati recursion: Q1 + A' P (A - B K). */
  function Riccati(pr: Problem, c: Cache): (r: Mat)
    requires pr.Valid() && c.Fits(pr)
    ensures Square(r, pr.Nx())
  {
    MAdd(pr.Q1, Mul(Transpose(pr.A), Mul(c.Pinf, MSub(pr.A, Mul(pr.B, c.Kinf)))))
  }

  /** The equations that tiny_precompute_and_set_cache iterates towards. */
  ghost predicate Exact(pr: Problem, c: Cache)
    requires pr.Valid() && c.Fits(pr)
  {
    && GainExact(pr, c)
    && c.Pinf == Riccati(pr, c)
    && c.AmBKt == Transpose(MSub(pr.A, Mul(pr.B, c.Kinf)))
    && c.APf == Apply(c.AmBKt, Apply(c.Pinf, pr.f))
    && c.BPf == Apply(Transpose(pr.B), Apply(c.Pinf, pr.f))
  }

  // ----- The two passes, one column at a time -----

  function BackD(pr: Problem, c: Cache, p1: Vec, r: Vec): (d: Vec)
    requires pr.Valid() && c.Fits(pr) && |p1| == pr.Nx() && |r| == pr.Nu()
    ensures |d| == pr.Nu()
  {
    Apply(c.QuuInv, Add(Add(Apply(Transpose(pr.B), p1), r), c.BPf))
  }

  function BackP(pr: Problem, c: Cache, p1: Vec, q: Vec, r: Vec): (p: Vec)
    requires pr.Valid() && c.Fits(pr) && |p1| == |q| == pr.Nx() && |r| == pr.Nu()
    ensures |p| == pr.Nx()
  {
    Add(Sub(Add(q, Apply(c.AmBKt, p1)), Apply(Transpose(c.Kinf), r)), c.APf)
  }

  function Policy(pr: Problem, c: Cache, x: Vec, d: Vec): (u: Vec)
    requires pr.Valid() && c.Fits(pr) && |x| == pr.Nx() && |d| == pr.Nu()
    ensures |u| == pr.Nu()
  {
    Sub(Neg(Apply(c.Kinf, x)), d)
  }

  function Next(pr: Problem, x: Vec, u: Vec): (y: Vec)
    requires pr.Valid() && |x| == pr.Nx() && |u| == pr.Nu()
    ensures |y| == pr.Nx()
  {
    Add(Add(Apply(pr.A, x), Apply(pr.B, u)), pr.f)
  }

  // ----- Scalar identities behind completing the square -----

  /** v' Quu w = v' R1 w + (Bv)' P (Bw) */
  lemma FormQuu(pr: Problem, c: Cache, v: Vec, w: Vec)
    requires pr.Valid() && c.Fits(pr) && |v| == |w| == pr.Nu()
    ensures Form(Quu(pr, c), v, w) ==
            Form(pr.R1, v, w) + Form(c.Pinf, Apply(pr.B, v), Apply(pr.B, w))
  {
    var M := Mul(Transpose(pr.B), Mul(c.Pinf, pr.B));
    ApplyMAdd(pr.R1, M, w);
    DotComm(v, Add(Apply(pr.R1, w), Apply(M, w)));
    DotAdd(Apply(pr.R1, w), Apply(M, w), v);
    DotComm(v, Apply(pr.R1, w));
    DotComm(v, Apply(M, w));
    ApplyMul(Transpose(pr.B), Mul(c.Pinf, pr.B), w);
    ApplyMul(c.Pinf, pr.B, w);
    TransposeDot(pr.B, v, Apply(c.Pinf, Apply(pr.B, w)));
  }

  /** v . (M' y) = (M v) . y */
  lemma TransposeDot(M: Mat, v: Vec, y: Vec)
    requires |v| == M.cols && |y| == M.rows
    ensures Dot(v, Apply(Transpose(M), y)) == Dot(Apply(M, v), y)
  {
    Adjoint(M, y, v);
    DotComm(v, Apply(Transpose(M), y));
    DotComm(y, Apply(M, v));
  }

  lemma QuuSymmetric(pr: Problem, c: Cache)
    requires pr.Valid() && c.Fits(pr) && Symmetric(pr.R1) && Symmetric(c.Pinf)
    ensures Symmetric(Quu(pr, c))
  {
    var Bt := Transpose(pr.B);
    TransposeTwice(pr.B);
    MulAssoc(Bt, c.Pinf, pr.B);
    SymmetricCongruence(Bt, c.Pinf);
    SymmetricMAdd(pr.R1, Congruence(Bt, c.Pinf));
  }

  lemma QuuInverse(pr: Problem, c: Cache, w: Vec)
    requires pr.Valid() && c.Fits(pr) && GainExact(pr, c) && |w| == pr.Nu()
    ensures Apply(Quu(pr, c), Apply(c.QuuInv, w)) == w
  {
    ApplyMul(Quu(pr, c), c.QuuInv, w);
    ApplyIdentity(pr.Nu(), w);
  }

  /** v' Quu (K x) = (Bv)' P (Ax) */
  lemma FormGain(pr: Problem, c: Cache, v: Vec, x: Vec)
    requires pr.Valid() && c.Fits(pr) && GainExact(pr, c) && |v| == pr.Nu() && |x| == pr.Nx()
    ensures Form(Quu(pr, c), v, Apply(c.Kinf, x)) == Form(c.Pinf, Apply(pr.B, v), Apply(pr.A, x))
  {
    var w := Apply(Mul(Transpose(pr.B), Mul(c.Pinf, pr.A)), x);
    ApplyMul(c.QuuInv, Mul(Transpose(pr.B), Mul(c.Pinf, pr.A)), x);
    QuuInverse(pr, c, w);
    ApplyMul(Transpose(pr.B), Mul(c.Pinf, pr.A), x);
    ApplyMul(c.Pinf, pr.A, x);
    TransposeDot(pr.B, v, Apply(c.Pinf, Apply(pr.A, x)));
  }

  /** v' Quu d = (Bv) . p1 + v . r + (Bv)' P f */
  lemma FormFeedforward(pr: Problem, c: Cache, v: Vec, p1: Vec, r: Vec)
    requires pr.Valid() && c.Fits(pr) && Exact(pr, c)
    requires |v| == |r| == pr.Nu() && |p1| == pr.Nx()
    ensures Form(Quu(pr, c), v, BackD(pr, c, p1, r)) ==
            Dot(Apply(pr.B, v), p1) + Dot(v, r) + Form(c.Pinf, Apply(pr.B, v), pr.f)
  {
    var Btp := Apply(Transpose(pr.B), p1);
    var g := Add(Add(Btp, r), c.BPf);
    QuuInverse(pr, c, g);
    DotComm(v, g);
    DotAdd(Add(Btp, r), c.BPf, v);
    DotAdd(Btp, r, v);
    DotComm(Btp, v);
    DotComm(r, v);
    DotComm(c.BPf, v);
    TransposeDot(pr.B, v, p1);
    TransposeDot(pr.B, v, Apply(c.Pinf, pr.f));
  }

  /** (A - BK) x = Ax - B(Kx) */
  lemma ClosedLoop(pr: Problem, c: Cache, x: Vec)
    requires pr.Valid() && c.Fits(pr) && |x| == pr.Nx()
    ensures Apply(MSub(pr.A, Mul(pr.B, c.Kinf)), x) ==
            Sub(Apply(pr.A, x), Apply(pr.B, Apply(c.Kinf, x)))
  {
    ApplyMSub(pr.A, Mul(pr.B, c.Kinf), x);
    ApplyMul(pr.B, c.Kinf, x);
  }

  /** x' Riccati y = x' Q1 y + (Ax)' P (Ay) - (Ax)' P (BKy) */
  lemma FormRiccati(pr: Problem, c: Cache, x: Vec, y: Vec)
    requires pr.Valid() && c.Fits(pr) && |x| == |y| == pr.Nx()
    ensures Form(Riccati(pr, c), x, y) ==
            Form(pr.Q1, x, y) + Form(c.Pinf, Apply(pr.A, x), Apply(pr.A, y))
            - Form(c.Pinf, Apply(pr.A, x), Apply(pr.B, Apply(c.Kinf, y)))
  {
    var L := MSub(pr.A, Mul(pr.B, c.Kinf));
    var ax, ay, bk := Apply(pr.A, x), Apply(pr.A, y), Apply(pr.B, Apply(c.Kinf, y));
    var M := Mul(Transpose(pr.A), Mul(c.Pinf, L));
    FormMAdd(pr.Q1, M, x, y);
    ApplyMul(Transpose(pr.A), Mul(c.Pinf, L), y);
    ApplyMul(c.Pinf, L, y);
    ClosedLoop(pr, c, y);
    TransposeDot(pr.A, x, Apply(c.Pinf, Sub(ay, bk)));
    FormSubRight(c.Pinf, ax, ay, bk);
  }

  /** p . x, expanded through the closed loop. */
  lemma DotBackP(pr: Problem, c: Cache, p1: Vec, q: Vec, r: Vec, x: Vec)
    requires pr.Valid() && c.Fits(pr) && Exact(pr, c)
    requires |p1| == |q| == |x| == pr.Nx() && |r| == pr.Nu()
    ensures var ax, y := Apply(pr.A, x), Apply(c.Kinf, x);
            var bk := Apply(pr.B, y);
            Dot(BackP(pr, c, p1, q, r), x) ==
              Dot(q, x) + Dot(ax, p1) - Dot(bk, p1) - Dot(y, r)
              + Form(c.Pinf, ax, pr.f) - Form(c.Pinf, bk, pr.f)
  {
    var L := MSub(pr.A, Mul(pr.B, c.Kinf));
    var ax, y := Apply(pr.A, x), Apply(c.Kinf, x);
    var bk, pf := Apply(pr.B, y), Apply(c.Pinf, pr.f);
    var lp, kr := Apply(c.AmBKt, p1), Apply(Transpose(c.Kinf), r);
    DotAdd(Sub(Add(q, lp), kr), c.APf, x);
    DotSub(Add(q, lp), kr, x);
    DotAdd(q, lp, x);
    ClosedLoop(pr, c, x);
    ClosedLoopDot(L, p1, x, ax, bk);
    ClosedLoopDot(L, pf, x, ax, bk);
    DotComm(kr, x);
    TransposeDot(c.Kinf, x, r);
  }

  lemma ClosedLoopDot(L: Mat, w: Vec, x: Vec, ax: Vec, bk: Vec)
    requires |x| == L.cols && |w| == |ax| == |bk| == L.rows
    requires Apply(L, x) == Sub(ax, bk)
    ensures Dot(Apply(Transpose(L), w), x) == Dot(ax, w) - Dot(bk, w)
  {
    DotComm(Apply(Transpose(L), w), x);
    TransposeDot(L, x, w);
    DotSub(ax, bk, w);
  }

  // ----- Completing the square over one stage -----

  function Half(t: real): real { t / 2.0 }

  /** Distance of a control from the feedback law. */
  function Deviation(pr: Problem, c: Cache, x: Vec, u: Vec, d: Vec): (e: Vec)
    requires pr.Valid() && c.Fits(pr) && |x| == pr.Nx() && |u| == |d| == pr.Nu()
    ensures |e| == pr.Nu()
  {
    Add(u, Add(Apply(c.Kinf, x), d))
  }

  lemma DeviationZero(pr: Problem, c: Cache, x: Vec, u: Vec, d: Vec)
    requires pr.Valid() && c.Fits(pr) && |x| == pr.Nx() && |u| == |d| == pr.Nu()
    ensures Deviation(pr, c, x, u, d) == Zeros(pr.Nu()) <==> u == Policy(pr, c, x, d)
  {
    var e, k, z := Deviation(pr, c, x, u, d), Apply(c.Kinf, x), Zeros(pr.Nu());
    var w := Policy(pr, c, x, d);
    if e == z {
      forall i | 0 <= i < |u| ensures u[i] == w[i] {
        assert e[i] == z[i];
      }
    }
    if u == w {
      forall i | 0 <= i < |u| ensures e[i] == z[i] {
        assert u[i] == w[i];
      }
    }
  }

  function StageCost(pr: Problem, x: Vec, u: Vec, q: Vec, r: Vec): real
    requires pr.Valid() && |x| == |q| == pr.Nx() && |u| == |r| == pr.Nu()
  {
    Half(Quad(pr.Q1, x)) + Dot(q, x) + Half(Quad(pr.R1, u)) + Dot(r, u)
  }

  /** The cost-to-go that the backward pass maintains, up to a constant. */
  function Value(c: Cache, p: Vec, x: Vec): real
    requires |p| == |x| == c.Pinf.rows == c.Pinf.cols
  {
    Half(Quad(c.Pinf, x)) + Dot(p, x)
  }

  /** The part of a stage that does not depend on x or u. */
  function StageConst(pr: Problem, c: Cache, p1: Vec, r: Vec): real
    requires pr.Valid() && c.Fits(pr) && |p1| == pr.Nx() && |r| == pr.Nu()
  {
    Half(Quad(c.Pinf, pr.f)) + Dot(p1, pr.f) - Half(Quad(Quu(pr, c), BackD(pr, c, p1, r)))
  }

  lemma QuadNext(pr: Problem, c: Cache, x: Vec, u: Vec)
    requires pr.Valid() && c.Fits(pr) && Symmetric(c.Pinf) && |x| == pr.Nx() && |u| == pr.Nu()
    ensures var ax, bu := Apply(pr.A, x), Apply(pr.B, u);
            Quad(c.Pinf, Next(pr, x, u)) ==
              Quad(c.Pinf, ax) + 2.0 * Form(c.Pinf, bu, ax) + Quad(c.Pinf, bu)
              + 2.0 * Form(c.Pinf, ax, pr.f) + 2.0 * Form(c.Pinf, bu, pr.f) + Quad(c.Pinf, pr.f)
  {
    var ax, bu := Apply(pr.A, x), Apply(pr.B, u);
    QuadAdd(c.Pinf, Add(ax, bu), pr.f);
    QuadAdd(c.Pinf, ax, bu);
    FormSwap(c.Pinf, ax, bu);
    FormAddLeft(c.Pinf, ax, bu, pr.f);
  }

  lemma QuadDeviation(pr: Problem, c: Cache, x: Vec, u: Vec, d: Vec)
    requires pr.Valid() && c.Fits(pr) && Symmetric(Quu(pr, c))
    requires |x| == pr.Nx() && |u| == |d| == pr.Nu()
    ensures var M, y := Quu(pr, c), Apply(c.Kinf, x);
            Quad(M, Deviation(pr, c, x, u, d)) ==
              Quad(M, u) + 2.0 * Form(M, u, y) + 2.0 * Form(M, u, d)
              + Quad(M, y) + 2.0 * Form(M, y, d) + Quad(M, d)
  {
    var M, y := Quu(pr, c), Apply(c.Kinf, x);
    QuadAdd(M, u, Add(y, d));
    QuadAdd(M, y, d);
    FormAddRight(M, u, y, d);
  }

  lemma DotNext(pr: Problem, x: Vec, u: Vec, p1: Vec)
    requires pr.Valid() && |x| == |p1| == pr.Nx() && |u| == pr.Nu()
    ensures Dot(p1, Next(pr, x, u)) == Dot(Apply(pr.A, x), p1) + Dot(Apply(pr.B, u), p1) + Dot(p1, pr.f)
  {
    var ax, bu := Apply(pr.A, x), Apply(pr.B, u);
    DotComm(p1, Next(pr, x, u));
    DotAdd(Add(ax, bu), pr.f, p1);
    DotAdd(ax, bu, p1);
    DotComm(pr.f, p1);
  }

  /** One stage plus the cost-to-go is the new cost-to-go, plus a constant, plus
      the weighted square of the deviation from the feedback law. */
  lemma StageIdentity(pr: Problem, c: Cache, x: Vec, u: Vec, p1: Vec, q: Vec, r: Vec)
    requires pr.Valid() && c.Fits(pr) && Exact(pr, c)
    requires |x| == |p1| == |q| == pr.Nx() && |u| == |r| == pr.Nu()
    ensures StageCost(pr, x, u, q, r) + Value(c, p1, Next(pr, x, u)) ==
            Value(c, BackP(pr, c, p1, q, r), x) + StageConst(pr, c, p1, r)
            + Half(Quad(Quu(pr, c), Deviation(pr, c, x, u, BackD(pr, c, p1, r))))
  {
    var d, y := BackD(pr, c, p1, r), Apply(c.Kinf, x);
    QuuSymmetric(pr, c);
    QuadNext(pr, c, x, u);
    QuadDeviation(pr, c, x, u, d);
    DotNext(pr, x, u, p1);
    FormRiccati(pr, c, x, x);
    DotBackP(pr, c, p1, q, r, x);
    FormQuu(pr, c, u, u);
    FormGain(pr, c, u, x);
    FormGain(pr, c, y, x);
    FormFeedforward(pr, c, u, p1, r);
    FormFeedforward(pr, c, y, p1, r);
    FormSwap(c.Pinf, Apply(pr.A, x), Apply(pr.B, y));
    DotComm(u, r);
  }

  // ----- Whole trajectories -----

  ghost predicate Sized(vs: seq<Vec>, n: nat) {
    forall i :: 0 <= i < |vs| ==> |vs[i]| == n
  }

  /** xs and us satisfy the affine dynamics exactly. */
  ghost predicate Dynamics(pr: Problem, xs: seq<Vec>, us: seq<Vec>)
    requires pr.Valid()
  {
    && |xs| == |us| + 1 && Sized(xs, pr.Nx()) && Sized(us, pr.Nu())
    && forall i :: 0 <= i < |us| ==> xs[i + 1] == Next(pr, xs[i], us[i])
  }

  /** The linear terms of the cost, and the passes' output over the horizon. */
  ghost predicate Linear(pr: Problem, n: nat, q: seq<Vec>, r: seq<Vec>, p: seq<Vec>)
    requires pr.Valid()
  {
    |q| == |p| == n + 1 && |r| == n && Sized(q, pr.Nx()) && Sized(p, pr.Nx()) && Sized(r, pr.Nu())
  }

  /** The backward recursion holds from column i on. */
  ghost predicate BackwardFrom(pr: Problem, c: Cache, q: seq<Vec>, r: seq<Vec>, p: seq<Vec>, d: seq<Vec>, i: int)
    requires pr.Valid() && c.Fits(pr)
  {
    && Linear(pr, |d|, q, r, p)
    && forall k {:trigger d[k]} :: 0 <= k < |d| && i <= k ==>
         d[k] == BackD(pr, c, p[k + 1], r[k]) && p[k] == BackP(pr, c, p[k + 1], q[k], r[k])
  }

  ghost predicate BackwardDone(pr: Problem, c: Cache, q: seq<Vec>, r: seq<Vec>, p: seq<Vec>, d: seq<Vec>)
    requires pr.Valid() && c.Fits(pr)
  {
    BackwardFrom(pr, c, q, r, p, d, 0)
  }

  lemma BackwardExtend(pr: Problem, c: Cache, q: seq<Vec>, r: seq<Vec>, p: seq<Vec>, d: seq<Vec>, i: nat)
    requires pr.Valid() && c.Fits(pr) && i < |d| && BackwardFrom(pr, c, q, r, p, d, i + 1)
    ensures var d' := d[i := BackD(pr, c, p[i + 1], r[i])];
            var p' := p[i := BackP(pr, c, p[i + 1], q[i], r[i])];
            BackwardFrom(pr, c, q, r, p', d', i)
  {
    var d' := d[i := BackD(pr, c, p[i + 1], r[i])];
    var p' := p[i := BackP(pr, c, p[i + 1], q[i], r[i])];
    forall k | i <= k < |d'|
      ensures d'[k] == BackD(pr, c, p'[k + 1], r[k]) && p'[k] == BackP(pr, c, p'[k + 1], q[k], r[k])
    {
      if k > i {
        assert d'[k] == d[k] && p'[k] == p[k] && p'[k + 1] == p[k + 1];
      }
    }
  }

  ghost predicate ForwardDone(pr: Problem, c: Cache, xs: seq<Vec>, us: seq<Vec>, d: seq<Vec>)
    requires pr.Valid() && c.Fits(pr)
  {
    && Dynamics(pr, xs, us) && |d| == |us| && Sized(d, pr.Nu())
    && forall i :: 0 <= i < |us| ==> us[i] == Policy(pr, c, xs[i], d[i])
  }

  /** Stage costs from i on, plus the terminal cost. */
  ghost function CostFrom(pr: Problem, c: Cache, xs: seq<Vec>, us: seq<Vec>,
                          q: seq<Vec>, r: seq<Vec>, pN: Vec, i: nat): real
    requires pr.Valid() && c.Fits(pr) && Dynamics(pr, xs, us) && i <= |us|
    requires |q| == |xs| && |r| == |us| && Sized(q, pr.Nx()) && Sized(r, pr.Nu()) && |pN| == pr.Nx()
    decreases |us| - i
  {
    if i == |us| then Value(c, pN, xs[i])
    else StageCost(pr, xs[i], us[i], q[i], r[i]) + CostFrom(pr, c, xs, us, q, r, pN, i + 1)
  }

  ghost function Cost(pr: Problem, c: Cache, xs: seq<Vec>, us: seq<Vec>,
                      q: seq<Vec>, r: seq<Vec>, pN: Vec): real
    requires pr.Valid() && c.Fits(pr) && Dynamics(pr, xs, us)
    requires |q| == |xs| && |r| == |us| && Sized(q, pr.Nx()) && Sized(r, pr.Nu()) && |pN| == pr.Nx()
  {
    CostFrom(pr, c, xs, us, q, r, pN, 0)
  }

  /** Weighted squared deviations from stage i on. */
  ghost function Gap(pr: Problem, c: Cache, xs: seq<Vec>, us: seq<Vec>, d: seq<Vec>, i: nat): real
    requires pr.Valid() && c.Fits(pr) && Dynamics(pr, xs, us) && i <= |us| == |d| && Sized(d, pr.Nu())
    decreases |us| - i
  {
    if i == |us| then 0.0
    else Half(Quad(Quu(pr, c), Deviation(pr, c, xs[i], us[i], d[i]))) + Gap(pr, c, xs, us, d, i + 1)
  }

  ghost function ConstFrom(pr: Problem, c: Cache, r: seq<Vec>, p: seq<Vec>, i: nat): real
    requires pr.Valid() && c.Fits(pr) && i <= |r| && |p| == |r| + 1
    requires Sized(p, pr.Nx()) && Sized(r, pr.Nu())
    decreases |r| - i
  {
    if i == |r| then 0.0 else StageConst(pr, c, p[i + 1], r[i]) + ConstFrom(pr, c, r, p, i + 1)
  }

  ghost predicate StageBalances(pr: Problem, c: Cache, x: Vec, u: Vec, x1: Vec,
                                q: Vec, r: Vec, p: Vec, p1: Vec, d: Vec)
    requires pr.Valid() && c.Fits(pr) && |x| == |x1| == |q| == |p| == |p1| == pr.Nx() && |u| == |r| == |d| == pr.Nu()
  {
    StageCost(pr, x, u, q, r) + Value(c, p1, x1) ==
      Value(c, p, x) + StageConst(pr, c, p1, r) + Half(Quad(Quu(pr, c), Deviation(pr, c, x, u, d)))
  }

  /** Adding up the stages. */
  lemma SumOfBalances(pr: Problem, c: Cache, xs: seq<Vec>, us: seq<Vec>,
                      q: seq<Vec>, r: seq<Vec>, p: seq<Vec>, d: seq<Vec>)
    requires pr.Valid() && c.Fits(pr) && Dynamics(pr, xs, us)
    requires Linear(pr, |us|, q, r, p) && |d| == |us| && Sized(d, pr.Nu())
    requires forall i :: 0 <= i < |us| ==>
      StageBalances(pr, c, xs[i], us[i], xs[i + 1], q[i], r[i], p[i], p[i + 1], d[i])
    ensures CostFrom(pr, c, xs, us, q, r, p[|us|], 0) ==
            Value(c, p[0], xs[0]) + ConstFrom(pr, c, r, p, 0) + Gap(pr, c, xs, us, d, 0)
  {
    var i := |us|;
    while i > 0
      invariant 0 <= i <= |us|
      invariant CostFrom(pr, c, xs, us, q, r, p[|us|], i) ==
                Value(c, p[i], xs[i]) + ConstFrom(pr, c, r, p, i) + Gap(pr, c, xs, us, d, i)
    {
      i := i - 1;
      assert StageBalances(pr, c, xs[i], us[i], xs[i + 1], q[i], r[i], p[i], p[i + 1], d[i]);
    }
  }

  /** The cost of ANY trajectory is a function of its start plus its gap. */
  lemma CostIsValuePlusGap(
    pr: Problem, c: Cache, xs: seq<Vec>, us: seq<Vec>,
    q: seq<Vec>, r: seq<Vec>, p: seq<Vec>, d: seq<Vec>)
    requires pr.Valid() && c.Fits(pr) && Exact(pr, c)
    requires Dynamics(pr, xs, us) && BackwardDone(pr, c, q, r, p, d) && |d| == |us|
    ensures CostFrom(pr, c, xs, us, q, r, p[|us|], 0) ==
            Value(c, p[0], xs[0]) + ConstFrom(pr, c, r, p, 0) + Gap(pr, c, xs, us, d, 0)
  {
    forall i | 0 <= i < |us|
      ensures |d[i]| == pr.Nu()
      ensures StageBalances(pr, c, xs[i], us[i], xs[i + 1], q[i], r[i], p[i], p[i + 1], d[i])
    {
      assert d[i] == BackD(pr, c, p[i + 1], r[i]);
      StageIdentity(pr, c, xs[i], us[i], p[i + 1], q[i], r[i]);
    }
    SumOfBalances(pr, c, xs, us, q, r, p, d);
  }

  lemma {:induction false} GapNonNegative(
    pr: Problem, c: Cache, xs: seq<Vec>, us: seq<Vec>, d: seq<Vec>, i: nat)
    requires pr.Valid() && c.Fits(pr) && Exact(pr, c)
    requires Dynamics(pr, xs, us) && i <= |us| == |d| && Sized(d, pr.Nu())
    ensures Gap(pr, c, xs, us, d, i) >= 0.0
    ensures Gap(pr, c, xs, us, d, i) == 0.0 <==>
            forall k :: i <= k < |us| ==> us[k] == Policy(pr, c, xs[k], d[k])
    decreases |us| - i
  {
    if i < |us| {
      GapNonNegative(pr, c, xs, us, d, i + 1);
      StageGap(pr, c, xs[i], us[i], d[i]);
    }
  }

  /** One stage loses nothing exactly when it follows the feedback law. */
  lemma StageGap(pr: Problem, c: Cache, x: Vec, u: Vec, d: Vec)
    requires pr.Valid() && c.Fits(pr) && Exact(pr, c) && |x| == pr.Nx() && |u| == |d| == pr.Nu()
    ensures Quad(Quu(pr, c), Deviation(pr, c, x, u, d)) >= 0.0
    ensures Quad(Quu(pr, c), Deviation(pr, c, x, u, d)) == 0.0 <==> u == Policy(pr, c, x, d)
  {
    var e := Deviation(pr, c, x, u, d);
    DeviationZero(pr, c, x, u, d);
    if e == Zeros(pr.Nu()) {
      DotZeros(pr.Nu(), Apply(Quu(pr, c), e));
    }
  }

  /** Following the feedback law from the same start gives the same trajectory. */
  lemma {:induction false} PolicyUnique(
    pr: Problem, c: Cache, xs: seq<Vec>, us: seq<Vec>, ys: seq<Vec>, ws: seq<Vec>, d: seq<Vec>, i: nat)
    requires pr.Valid() && c.Fits(pr)
    requires ForwardDone(pr, c, xs, us, d) && ForwardDone(pr, c, ys, ws, d)
    requires xs[0] == ys[0] && i <= |us|
    ensures ys[i] == xs[i] && (i < |us| ==> ws[i] == us[i])
  {
    if i > 0 {
      PolicyUnique(pr, c, xs, us, ys, ws, d, i - 1);
    }
  }

  /** Any trajectory costs exactly its gap more than the one the passes produce. */
  lemma CostAboveOptimum(
    pr: Problem, c: Cache, xs: seq<Vec>, us: seq<Vec>,
    q: seq<Vec>, r: seq<Vec>, p: seq<Vec>, d: seq<Vec>, ys: seq<Vec>, ws: seq<Vec>)
    requires pr.Valid() && c.Fits(pr) && Exact(pr, c)
    requires BackwardDone(pr, c, q, r, p, d) && ForwardDone(pr, c, xs, us, d)
    requires Dynamics(pr, ys, ws) && |ws| == |us| && ys[0] == xs[0]
    ensures Cost(pr, c, ys, ws, q, r, p[|us|]) ==
            Cost(pr, c, xs, us, q, r, p[|us|]) + Gap(pr, c, ys, ws, d, 0)
  {
    CostIsValuePlusGap(pr, c, xs, us, q, r, p, d);
    CostIsValuePlusGap(pr, c, ys, ws, q, r, p, d);
    GapNonNegative(pr, c, xs, us, d, 0);
  }

  /** Main result: whatever the horizon, the output of the backward pass followed
      by the forward pass costs no more than any trajectory of the same dynamics
      from the same start, and it is the only one with that cost. */
  lemma PassesAreOptimal(
    pr: Problem, c: Cache, xs: seq<Vec>, us: seq<Vec>,
    q: seq<Vec>, r: seq<Vec>, p: seq<Vec>, d: seq<Vec>, ys: seq<Vec>, ws: seq<Vec>)
    requires pr.Valid() && c.Fits(pr) && Exact(pr, c)
    requires BackwardDone(pr, c, q, r, p, d) && ForwardDone(pr, c, xs, us, d)
    requires Dynamics(pr, ys, ws) && |ws| == |us| && ys[0] == xs[0]
    ensures Cost(pr, c, ys, ws, q, r, p[|us|]) >= Cost(pr, c, xs, us, q, r, p[|us|])
    ensures Cost(pr, c, ys, ws, q, r, p[|us|]) == Cost(pr, c, xs, us, q, r, p[|us|]) <==> ws == us
  {
    CostAboveOptimum(pr, c, xs, us, q, r, p, d, ys, ws);
    GapNonNegative(pr, c, ys, ws, d, 0);
    if Gap(pr, c, ys, ws, d, 0) == 0.0 {
      forall i | 0 <= i < |us| ensures ws[i] == us[i] {
        PolicyUnique(pr, c, xs, us, ys, ws, d, i);
      }
      assert ws == us;
    }
    if ws == us {
      SameInputsSameStates(pr, xs, ys, us, |us|);
      assert ys == xs;
    }
  }

  lemma {:induction false} SameInputsSameStates(pr: Problem, xs: seq<Vec>, ys: seq<Vec>, us: seq<Vec>, n: nat)
    requires pr.Valid() && Dynamics(pr, xs, us) && Dynamics(pr, ys, us) && xs[0] == ys[0] && n <= |us|
    ensures forall i :: 0 <= i <= n ==> ys[i] == xs[i]
  {
    if n > 0 {
      SameInputsSameStates(pr, xs, ys, us, n - 1);
      assert xs[n - 1 + 1] == Next(pr, xs[n - 1], us[n - 1]) == ys[n - 1 + 1];
    }
  }
}
