/** What the ADMM iteration converges to: a fixed point of the loop in
    3rdparty/tinympc/admm.cpp solves the box-constrained tracking problem. */
module AdmmOptimality {
  import opened Matrix
  import opened Lqr
  import opened Admm

  /** rho times the identity. */
  function RhoI(n: nat, rho: real): (r: Mat)
    ensures r.rows == r.cols == n
  {
    Diag(seq(n, i => rho))
  }

  /** tiny_precompute_and_set_cache adds rho to the diagonal weights it is given. */
  ghost predicate WeightsFromDiagonals(s: Setup)
    requires s.Valid()
  {
    && s.pr.Q1 == MAdd(Diag(s.Qd), RhoI(s.pr.Nx(), s.cache.rho))
    && s.pr.R1 == MAdd(Diag(s.Rd), RhoI(s.pr.Nu(), s.cache.rho))
  }

  ghost predicate NonNegative(d: Vec) { forall i :: 0 <= i < |d| ==> d[i] >= 0.0 }

  /** An exact cache for non-negative weights. */
  ghost predicate WellPosed(s: Setup)
    requires s.Valid()
  {
    && Exact(s.pr, s.cache) && WeightsFromDiagonals(s) && Psd(s.cache.Pinf)
    && NonNegative(s.Qd) && NonNegative(s.Rd) && s.cache.rho >= 0.0
  }

  // ----- The tracking objective, with the penalty terms taken out -----

  function TrackTerm(w: Vec, reference: Vec, x: Vec): real
    requires |w| == |reference| == |x|
  {
    Half(Quad(Diag(w), x)) - Dot(Hadamard(w, reference), x)
  }

  function TrackTerminal(P: Mat, rho: real, reference: Vec, x: Vec): real
    requires P.rows == P.cols == |reference| == |x|
  {
    Half(Quad(P, x)) - Half(Quad(RhoI(|x|, rho), x)) - Dot(Apply(Transpose(P), reference), x)
  }

  ghost predicate Pair(s: Setup, xs: Columns, us: Columns)
    requires s.Valid()
  {
    s.States(xs) && s.Inputs(us)
  }

  ghost function TrackFrom(s: Setup, xs: Columns, us: Columns, i: nat): real
    requires s.Valid() && Pair(s, xs, us) && i < s.N
    decreases s.N - i
  {
    if i == s.N - 1 then TrackTerminal(s.cache.Pinf, s.cache.rho, s.Xref[i], xs[i])
    else TrackTerm(s.Qd, s.Xref[i], xs[i]) + TrackTerm(s.Rd, s.Uref[i], us[i]) + TrackFrom(s, xs, us, i + 1)
  }

  /** The tracking cost of a trajectory: stage weights Qd and Rd around the
      references, terminal weight Pinf - rho I with linear term -Pinf Xref. */
  ghost function Track(s: Setup, xs: Columns, us: Columns): real
    requires s.Valid() && Pair(s, xs, us)
  {
    TrackFrom(s, xs, us, 0)
  }

  function Penalty(rho: real, v: Vec): real { Half(Quad(RhoI(|v|, rho), v)) }

  function Slope(rho: real, g: Vec, v: Vec): real
    requires |g| == |v|
  {
    Form(RhoI(|v|, rho), g, v)
  }

  /** (rho/2) of the squared distance between two trajectories, from column i on. */
  ghost function PenaltyFrom(s: Setup, dx: Columns, du: Columns, i: nat): real
    requires s.Valid() && Pair(s, dx, du) && i < s.N
    decreases s.N - i
  {
    if i == s.N - 1 then Penalty(s.cache.rho, dx[i])
    else Penalty(s.cache.rho, dx[i]) + Penalty(s.cache.rho, du[i]) + PenaltyFrom(s, dx, du, i + 1)
  }

  /** rho times the duals against a displacement, from column i on. */
  ghost function SlopeFrom(s: Setup, g: Columns, y: Columns, dx: Columns, du: Columns, i: nat): real
    requires s.Valid() && Pair(s, g, y) && Pair(s, dx, du) && i < s.N
    decreases s.N - i
  {
    if i == s.N - 1 then Slope(s.cache.rho, g[i], dx[i])
    else Slope(s.cache.rho, g[i], dx[i]) + Slope(s.cache.rho, y[i], du[i]) + SlopeFrom(s, g, y, dx, du, i + 1)
  }

  // ----- One column -----

  lemma ApplyRhoI(rho: real, v: Vec)
    ensures Apply(RhoI(|v|, rho), v) == Scale(rho, v)
  {
    ApplyDiag(seq(|v|, i => rho), v);
    assert Hadamard(seq(|v|, i => rho), v) == Scale(rho, v);
  }

  /** y . (-h - E (x - g)) */
  lemma DotLinear(h: Vec, E: Mat, x: Vec, g: Vec, y: Vec)
    requires |h| == |x| == |g| == |y| == E.rows == E.cols && Symmetric(E)
    ensures Dot(Sub(Neg(h), Apply(E, Sub(x, g))), y) == -Dot(h, y) - Form(E, x, y) + Form(E, g, y)
  {
    var t := Apply(E, Sub(x, g));
    DotSub(Neg(h), t, y);
    DotNeg(h, y);
    DotComm(t, y);
    FormSubRight(E, y, x, g);
    FormSwap(E, y, x);
    FormSwap(E, y, g);
  }

  /** Moving from x to y changes the penalised column cost by the change in the
      tracking cost, plus the penalty, plus the slope of the dual. */
  lemma ColumnDifference(W: Mat, rho: real, h: Vec, q: Vec, x: Vec, g: Vec, y: Vec)
    requires W.rows == W.cols == |h| == |q| == |x| == |g| == |y|
    requires q == Sub(Neg(h), Scale(rho, Sub(x, g)))
    ensures var E := RhoI(|x|, rho);
            (Half(Quad(W, y)) + Dot(q, y)) - (Half(Quad(W, x)) + Dot(q, x)) ==
              (Half(Quad(W, y)) - Half(Quad(E, y)) - Dot(h, y))
              - (Half(Quad(W, x)) - Half(Quad(E, x)) - Dot(h, x))
              + Penalty(rho, Sub(y, x)) + Slope(rho, g, Sub(y, x))
  {
    var E := RhoI(|x|, rho);
    SymmetricDiag(seq(|x|, i => rho));
    ApplyRhoI(rho, Sub(x, g));
    DotLinear(h, E, x, g, y);
    DotLinear(h, E, x, g, x);
    QuadSub(E, y, x);
    FormSwap(E, x, y);
    FormSubRight(E, g, y, x);
  }

  lemma StageColumn(W: Mat, w: Vec, rho: real, reference: Vec, x: Vec, g: Vec, y: Vec)
    requires |w| == |reference| == |x| == |g| == |y|
    requires W == MAdd(Diag(w), RhoI(|w|, rho))
    ensures var q := LinearCost(w, reference, rho, x, g);
            (Half(Quad(W, y)) + Dot(q, y)) - (Half(Quad(W, x)) + Dot(q, x)) ==
              TrackTerm(w, reference, y) - TrackTerm(w, reference, x)
              + Penalty(rho, Sub(y, x)) + Slope(rho, g, Sub(y, x))
  {
    ColumnDifference(W, rho, Hadamard(w, reference), LinearCost(w, reference, rho, x, g), x, g, y);
    QuadMAdd(Diag(w), RhoI(|w|, rho), x);
    QuadMAdd(Diag(w), RhoI(|w|, rho), y);
  }

  // ----- Displacements obey the homogeneous dynamics -----

  function Homogeneous(pr: Problem): Problem { pr.(f := Zeros(pr.Nx())) }

  function HomogeneousCache(pr: Problem, c: Cache): Cache {
    c.(APf := Zeros(pr.Nx()), BPf := Zeros(pr.Nu()))
  }

  lemma ApplyZeros(M: Mat)
    ensures Apply(M, Zeros(M.cols)) == Zeros(M.rows)
  {
    forall i | 0 <= i < M.rows ensures Apply(M, Zeros(M.cols))[i] == Zeros(M.rows)[i] {
      DotComm(M.row[i], Zeros(M.cols));
      DotZeros(M.cols, M.row[i]);
    }
  }

  lemma HomogeneousExact(pr: Problem, c: Cache)
    requires pr.Valid() && c.Fits(pr) && Exact(pr, c)
    ensures Homogeneous(pr).Valid() && HomogeneousCache(pr, c).Fits(Homogeneous(pr))
    ensures Quu(Homogeneous(pr), HomogeneousCache(pr, c)) == Quu(pr, c)
    ensures Exact(Homogeneous(pr), HomogeneousCache(pr, c))
  {
    ApplyZeros(c.Pinf);
    ApplyZeros(c.AmBKt);
    ApplyZeros(Transpose(pr.B));
  }

  lemma DisplacementDynamics(pr: Problem, xs: Columns, us: Columns, ys: Columns, ws: Columns)
    requires pr.Valid() && Dynamics(pr, xs, us) && Dynamics(pr, ys, ws) && |us| == |ws|
    ensures SameShape(ys, xs) && SameShape(ws, us)
    ensures Homogeneous(pr).Valid() && Dynamics(Homogeneous(pr), ColumnsSub(ys, xs), ColumnsSub(ws, us))
  {
    var dx, du := ColumnsSub(ys, xs), ColumnsSub(ws, us);
    forall i | 0 <= i < |us| ensures dx[i + 1] == Next(Homogeneous(pr), dx[i], du[i]) {
      ApplySub(pr.A, ys[i], xs[i]);
      ApplySub(pr.B, ws[i], us[i]);
      var l, m := dx[i + 1], Next(Homogeneous(pr), dx[i], du[i]);
      assert l == Sub(Next(pr, ys[i], ws[i]), Next(pr, xs[i], us[i]));
      forall j | 0 <= j < pr.Nx() ensures l[j] == m[j] {}
    }
  }

  function ZeroColumns(n: nat, k: nat): (r: Columns)
    ensures |r| == k && forall i :: 0 <= i < k ==> r[i] == Zeros(n)
  {
    seq(k, i => Zeros(n))
  }

  /** The zero linear terms are what the backward pass computes from zero ones. */
  lemma HomogeneousBackward(pr: Problem, c: Cache, n: nat)
    requires pr.Valid() && c.Fits(pr) && pr.f == Zeros(pr.Nx())
    requires c.APf == Zeros(pr.Nx()) && c.BPf == Zeros(pr.Nu())
    ensures BackwardDone(pr, c, ZeroColumns(pr.Nx(), n + 1), ZeroColumns(pr.Nu(), n),
                         ZeroColumns(pr.Nx(), n + 1), ZeroColumns(pr.Nu(), n))
  {
    var zx, zu := Zeros(pr.Nx()), Zeros(pr.Nu());
    ApplyZeros(Transpose(pr.B));
    ApplyZeros(c.AmBKt);
    ApplyZeros(Transpose(c.Kinf));
    ApplyZeros(c.QuuInv);
    assert Add(Add(zu, zu), zu) == zu;
    assert Add(Sub(Add(zx, zx), zx), zx) == zx;
    assert BackD(pr, c, zx, zu) == zu && BackP(pr, c, zx, zx, zu) == zx;
  }

  lemma DeviationOfDisplacement(pr: Problem, c: Cache, x: Vec, u: Vec, d: Vec, y: Vec, w: Vec)
    requires pr.Valid() && c.Fits(pr) && Homogeneous(pr).Valid() && HomogeneousCache(pr, c).Fits(Homogeneous(pr))
    requires |x| == |y| == pr.Nx() && |u| == |w| == |d| == pr.Nu() && u == Policy(pr, c, x, d)
    ensures Deviation(Homogeneous(pr), HomogeneousCache(pr, c), Sub(y, x), Sub(w, u), Zeros(pr.Nu())) ==
            Deviation(pr, c, y, w, d)
  {
    var k := Apply(c.Kinf, x);
    var a := Deviation(pr, c, y, w, d);
    var b := Deviation(Homogeneous(pr), HomogeneousCache(pr, c), Sub(y, x), Sub(w, u), Zeros(pr.Nu()));
    ApplySub(c.Kinf, y, x);
    forall j | 0 <= j < pr.Nu() ensures a[j] == b[j] {
      assert u[j] == -k[j] - d[j];
    }
  }

  /** dx is the displacement from xs to ys, column by column. */
  ghost predicate Displacement(xs: Columns, ys: Columns, dx: Columns) {
    && |dx| == |xs| == |ys|
    && forall i :: 0 <= i < |xs| ==> |xs[i]| == |ys[i]| && dx[i] == Sub(ys[i], xs[i])
  }

  /** The gap depends only on the deviations and their weight. */
  lemma SameDeviationsSameGap(
    pr: Problem, c: Cache, xs: Columns, us: Columns, d: Columns,
    pr0: Problem, c0: Cache, xs0: Columns, us0: Columns, d0: Columns)
    requires pr.Valid() && c.Fits(pr) && Dynamics(pr, xs, us) && |d| == |us| && Sized(d, pr.Nu())
    requires pr0.Valid() && c0.Fits(pr0) && Dynamics(pr0, xs0, us0) && |d0| == |us0| && Sized(d0, pr0.Nu())
    requires |us| == |us0| && Quu(pr, c) == Quu(pr0, c0)
    requires forall k :: 0 <= k < |us| ==>
      Deviation(pr, c, xs[k], us[k], d[k]) == Deviation(pr0, c0, xs0[k], us0[k], d0[k])
    ensures Gap(pr, c, xs, us, d, 0) == Gap(pr0, c0, xs0, us0, d0, 0)
  {
    var i := |us|;
    while i > 0
      invariant 0 <= i <= |us|
      invariant Gap(pr, c, xs, us, d, i) == Gap(pr0, c0, xs0, us0, d0, i)
    {
      i := i - 1;
    }
  }

  /** The gap of a trajectory is the gap of its displacement. */
  lemma GapOfDisplacement(
    pr: Problem, c: Cache, xs: Columns, us: Columns, d: Columns, ys: Columns, ws: Columns,
    dx: Columns, du: Columns)
    requires pr.Valid() && c.Fits(pr)
    requires Homogeneous(pr).Valid() && HomogeneousCache(pr, c).Fits(Homogeneous(pr))
    requires Quu(Homogeneous(pr), HomogeneousCache(pr, c)) == Quu(pr, c)
    requires ForwardDone(pr, c, xs, us, d) && Dynamics(pr, ys, ws)
    requires Displacement(xs, ys, dx) && Displacement(us, ws, du) && Dynamics(Homogeneous(pr), dx, du)
    ensures Gap(pr, c, ys, ws, d, 0) ==
            Gap(Homogeneous(pr), HomogeneousCache(pr, c), dx, du, ZeroColumns(pr.Nu(), |us|), 0)
  {
    var pr0, c0, z := Homogeneous(pr), HomogeneousCache(pr, c), ZeroColumns(pr.Nu(), |us|);
    forall k | 0 <= k < |us|
      ensures Deviation(pr, c, ys[k], ws[k], d[k]) == Deviation(pr0, c0, dx[k], du[k], z[k])
    {
      DeviationOfDisplacement(pr, c, xs[k], us[k], d[k], ys[k], ws[k]);
    }
    SameDeviationsSameGap(pr, c, ys, ws, d, pr0, c0, dx, du, z);
  }

  // ----- Summing over the horizon -----

  /** Stage i of the difference in penalised cost, split into its three parts. */
  ghost predicate StageSplits(s: Setup, w: Work, ys: Columns, ws: Columns, dx: Columns, du: Columns, i: nat)
    requires s.Valid() && w.Fits(s) && Pair(s, ys, ws) && Pair(s, dx, du) && i < s.N - 1
  {
    StageCost(s.pr, ys[i], ws[i], w.q[i], w.r[i]) - StageCost(s.pr, w.x[i], w.u[i], w.q[i], w.r[i]) ==
      TrackTerm(s.Qd, s.Xref[i], ys[i]) + TrackTerm(s.Rd, s.Uref[i], ws[i])
      - TrackTerm(s.Qd, s.Xref[i], w.x[i]) - TrackTerm(s.Rd, s.Uref[i], w.u[i])
      + Penalty(s.cache.rho, dx[i]) + Penalty(s.cache.rho, du[i])
      + Slope(s.cache.rho, w.g[i], dx[i]) + Slope(s.cache.rho, w.y[i], du[i])
  }

  ghost predicate TerminalSplits(s: Setup, w: Work, ys: Columns, dx: Columns)
    requires s.Valid() && w.Fits(s) && s.States(ys) && s.States(dx)
  {
    var n, c := s.N - 1, s.cache;
    Value(c, w.p[n], ys[n]) - Value(c, w.p[n], w.x[n]) ==
      TrackTerminal(c.Pinf, c.rho, s.Xref[n], ys[n]) - TrackTerminal(c.Pinf, c.rho, s.Xref[n], w.x[n])
      + Penalty(c.rho, dx[n]) + Slope(c.rho, w.g[n], dx[n])
  }

  lemma StageDifference(s: Setup, w: Work, ys: Columns, ws: Columns, dx: Columns, du: Columns, i: nat)
    requires s.Valid() && w.Fits(s) && WeightsFromDiagonals(s) && i < s.N - 1
    requires w.LinearTermsCurrent(s) && w.x == w.vnew && w.u == w.znew
    requires Pair(s, ys, ws) && Pair(s, dx, du) && dx[i] == Sub(ys[i], w.x[i]) && du[i] == Sub(ws[i], w.u[i])
    ensures StageSplits(s, w, ys, ws, dx, du, i)
  {
    StageColumn(s.pr.Q1, s.Qd, s.cache.rho, s.Xref[i], w.x[i], w.g[i], ys[i]);
    StageColumn(s.pr.R1, s.Rd, s.cache.rho, s.Uref[i], w.u[i], w.y[i], ws[i]);
  }

  lemma TerminalDifference(s: Setup, w: Work, ys: Columns, dx: Columns)
    requires s.Valid() && w.Fits(s)
    requires w.LinearTermsCurrent(s) && w.x == w.vnew
    requires s.States(ys) && s.States(dx) && dx[s.N - 1] == Sub(ys[s.N - 1], w.x[s.N - 1])
    ensures TerminalSplits(s, w, ys, dx)
  {
    var n := s.N - 1;
    ColumnDifference(s.cache.Pinf, s.cache.rho, Apply(Transpose(s.cache.Pinf), s.Xref[n]),
                     w.p[n], w.x[n], w.g[n], ys[n]);
  }

  /** The split of the whole difference, from stage i on. */
  ghost predicate SumSplits(s: Setup, w: Work, ys: Columns, ws: Columns, dx: Columns, du: Columns, i: nat)
    requires s.Valid() && w.Fits(s) && Dynamics(s.pr, w.x, w.u) && Dynamics(s.pr, ys, ws)
    requires Pair(s, ys, ws) && Pair(s, dx, du) && i < s.N
  {
    CostFrom(s.pr, s.cache, ys, ws, w.q, w.r, w.p[s.N - 1], i)
    - CostFrom(s.pr, s.cache, w.x, w.u, w.q, w.r, w.p[s.N - 1], i) ==
      TrackFrom(s, ys, ws, i) - TrackFrom(s, w.x, w.u, i)
      + PenaltyFrom(s, dx, du, i) + SlopeFrom(s, w.g, w.y, dx, du, i)
  }

  lemma SumStep(s: Setup, w: Work, ys: Columns, ws: Columns, dx: Columns, du: Columns, i: nat)
    requires s.Valid() && w.Fits(s) && Dynamics(s.pr, w.x, w.u) && Dynamics(s.pr, ys, ws)
    requires Pair(s, ys, ws) && Pair(s, dx, du) && i < s.N - 1
    requires StageSplits(s, w, ys, ws, dx, du, i) && SumSplits(s, w, ys, ws, dx, du, i + 1)
    ensures SumSplits(s, w, ys, ws, dx, du, i)
  {
  }

  /** Adding up the stages. */
  lemma SumOfStages(s: Setup, w: Work, ys: Columns, ws: Columns, dx: Columns, du: Columns)
    requires s.Valid() && w.Fits(s) && Dynamics(s.pr, w.x, w.u) && Dynamics(s.pr, ys, ws)
    requires Pair(s, ys, ws) && Pair(s, dx, du)
    requires TerminalSplits(s, w, ys, dx)
    requires forall i :: 0 <= i < s.N - 1 ==> StageSplits(s, w, ys, ws, dx, du, i)
    ensures SumSplits(s, w, ys, ws, dx, du, 0)
  {
    var i := s.N - 1;
    while i > 0
      invariant 0 <= i < s.N && SumSplits(s, w, ys, ws, dx, du, i)
    {
      i := i - 1;
      SumStep(s, w, ys, ws, dx, du, i);
    }
  }

  /** The difference in penalised cost, split into its three parts. */
  lemma CostDifference(
    s: Setup, w: Work, ys: Columns, ws: Columns, dx: Columns, du: Columns)
    requires s.Valid() && w.Fits(s) && WeightsFromDiagonals(s)
    requires w.LinearTermsCurrent(s) && w.x == w.vnew && w.u == w.znew
    requires Dynamics(s.pr, w.x, w.u) && Dynamics(s.pr, ys, ws)
    requires Pair(s, ys, ws) && Pair(s, dx, du) && Displacement(w.x, ys, dx) && Displacement(w.u, ws, du)
    ensures SumSplits(s, w, ys, ws, dx, du, 0)
  {
    TerminalDifference(s, w, ys, dx);
    forall i | 0 <= i < s.N - 1 ensures StageSplits(s, w, ys, ws, dx, du, i) {
      StageDifference(s, w, ys, ws, dx, du, i);
    }
    SumOfStages(s, w, ys, ws, dx, du);
  }

  /** The pure quadratic cost dominates the penalty. */
  lemma {:induction false} CurvatureDominates(s: Setup, c: Cache, dx: Columns, du: Columns, i: nat)
    requires s.Valid() && WeightsFromDiagonals(s) && NonNegative(s.Qd) && NonNegative(s.Rd)
    requires c == HomogeneousCache(s.pr, s.cache)
    requires Homogeneous(s.pr).Valid() && c.Fits(Homogeneous(s.pr))
    requires Dynamics(Homogeneous(s.pr), dx, du) && |dx| == s.N && i < s.N
    requires Half(Quad(c.Pinf, dx[s.N - 1])) >= Penalty(s.cache.rho, dx[s.N - 1])
    ensures Pair(s, dx, du)
    ensures CostFrom(Homogeneous(s.pr), c, dx, du, ZeroColumns(s.pr.Nx(), s.N), ZeroColumns(s.pr.Nu(), s.N - 1),
                     Zeros(s.pr.Nx()), i) >= PenaltyFrom(s, dx, du, i)
    decreases s.N - i
  {
    DotZeros(s.pr.Nx(), dx[i]);
    if i < s.N - 1 {
      CurvatureDominates(s, c, dx, du, i + 1);
      DotZeros(s.pr.Nu(), du[i]);
      WeightDominates(s.Qd, s.cache.rho, dx[i]);
      WeightDominates(s.Rd, s.cache.rho, du[i]);
    }
  }

  lemma WeightDominates(w: Vec, rho: real, v: Vec)
    requires |w| == |v| && NonNegative(w)
    ensures Half(Quad(MAdd(Diag(w), RhoI(|w|, rho)), v)) >= Penalty(rho, v)
  {
    QuadMAdd(Diag(w), RhoI(|w|, rho), v);
    PsdDiag(w);
    assert Quad(Diag(w), v) >= 0.0;
  }

  // ----- The duals point out of the box -----

  lemma {:induction false} NormalDot(lo: Vec, hi: Vec, v: Vec, g: Vec, y: Vec)
    requires |lo| == |hi| == |v| == |g| == |y|
    requires forall j :: 0 <= j < |v| ==> lo[j] <= y[j] <= hi[j]
    requires forall j :: 0 <= j < |v| ==> (g[j] > 0.0 ==> v[j] == hi[j]) && (g[j] < 0.0 ==> v[j] == lo[j])
    ensures Dot(g, Sub(y, v)) <= 0.0
  {
    if |v| != 0 {
      assert Sub(y, v)[1..] == Sub(y[1..], v[1..]);
      NormalDot(lo[1..], hi[1..], v[1..], g[1..], y[1..]);
      TimesSign(g[0], y[0] - v[0]);
    }
  }

  lemma ColumnSlope(on: bool, lo: Columns, hi: Columns, v: Columns, g: Columns, y: Columns, i: nat, rho: real)
    requires SameShape(lo, v) && SameShape(hi, v) && SameShape(g, v) && SameShape(y, v) && i < |v|
    requires if on then InBox(lo, hi, y) && InNormalCone(lo, hi, v, g) else AllZero(g)
    requires rho >= 0.0
    ensures Slope(rho, g[i], Sub(y[i], v[i])) <= 0.0
  {
    var dl := Sub(y[i], v[i]);
    if on {
      NormalDot(lo[i], hi[i], v[i], g[i], y[i]);
    } else {
      assert g[i] == Zeros(|g[i]|);
      DotZeros(|g[i]|, dl);
    }
    ApplyRhoI(rho, dl);
    DotScale(rho, g[i], dl);
    TimesSign(rho, Dot(g[i], dl));
  }

  lemma {:induction false} SlopeNonPositive(s: Setup, w: Work, ys: Columns, ws: Columns, i: nat)
    requires s.Valid() && w.Fits(s) && Pair(s, ys, ws) && i < s.N && s.cache.rho >= 0.0
    requires s.Feasible(ys, ws) && s.DualsNormal(w.x, w.u, w.g, w.y)
    ensures SlopeFrom(s, w.g, w.y, ColumnsSub(ys, w.x), ColumnsSub(ws, w.u), i) <= 0.0
    decreases s.N - i
  {
    ColumnSlope(s.settings.enStateBound, s.xMin, s.xMax, w.x, w.g, ys, i, s.cache.rho);
    if i < s.N - 1 {
      SlopeNonPositive(s, w, ys, ws, i + 1);
      ColumnSlope(s.settings.enInputBound, s.uMin, s.uMax, w.u, w.y, ws, i, s.cache.rho);
    }
  }

  /** The cost-to-go dominates the penalty: x' P x >= x' Q1 x >= rho x'x. */
  lemma RiccatiDominates(s: Setup, v: Vec)
    requires s.Valid() && WellPosed(s)
    requires |v| == s.pr.Nx()
    ensures Half(Quad(s.cache.Pinf, v)) >= Penalty(s.cache.rho, v)
  {
    var pr, c := Homogeneous(s.pr), HomogeneousCache(s.pr, s.cache);
    HomogeneousExact(s.pr, s.cache);
    var zx, zu := Zeros(pr.Nx()), Zeros(pr.Nu());
    HomogeneousBackward(pr, c, 1);
    var d := ZeroColumns(pr.Nu(), 1);
    assert d[0] == zu;
    assert BackD(pr, c, zx, zu) == zu && BackP(pr, c, zx, zx, zu) == zx;
    var u := Policy(pr, c, v, zu);
    var y := Next(pr, v, u);
    StageIdentity(pr, c, v, u, zx, zx, zu);
    DeviationZero(pr, c, v, u, zu);
    DotZeros(pr.Nu(), Apply(Quu(pr, c), zu));
    DotZeros(pr.Nx(), Apply(c.Pinf, zx));
    DotZeros(pr.Nx(), v);
    DotZeros(pr.Nx(), y);
    DotZeros(pr.Nx(), zx);
    DotZeros(pr.Nu(), u);
    WeightDominates(s.Qd, s.cache.rho, v);
    WeightDominates(s.Rd, s.cache.rho, u);
    assert Quad(c.Pinf, y) >= 0.0;
    PsdDiag(seq(|u|, i => s.cache.rho));
    assert Quad(RhoI(|u|, s.cache.rho), u) >= 0.0;
  }

  lemma {:induction false} HomogeneousConst(pr: Problem, c: Cache, n: nat, i: nat)
    requires pr.Valid() && c.Fits(pr) && pr.f == Zeros(pr.Nx())
    requires c.APf == Zeros(pr.Nx()) && c.BPf == Zeros(pr.Nu()) && i <= n
    ensures ConstFrom(pr, c, ZeroColumns(pr.Nu(), n), ZeroColumns(pr.Nx(), n + 1), i) == 0.0
    decreases n - i
  {
    if i < n {
      HomogeneousConst(pr, c, n, i + 1);
      HomogeneousBackward(pr, c, 1);
      var d := ZeroColumns(pr.Nu(), 1);
      assert d[0] == Zeros(pr.Nu());
      assert BackD(pr, c, Zeros(pr.Nx()), Zeros(pr.Nu())) == Zeros(pr.Nu());
      DotZeros(pr.Nx(), Apply(c.Pinf, pr.f));
      DotZeros(pr.Nx(), pr.f);
      DotZeros(pr.Nu(), Apply(Quu(pr, c), Zeros(pr.Nu())));
    }
  }

  /** Without an affine term the cached products with it vanish. */
  lemma HomogeneousProducts(pr: Problem, c: Cache)
    requires pr.Valid() && c.Fits(pr) && Exact(pr, c) && pr.f == Zeros(pr.Nx())
    ensures c.APf == Zeros(pr.Nx()) && c.BPf == Zeros(pr.Nu())
  {
    ApplyZeros(c.Pinf);
    ApplyZeros(c.AmBKt);
    ApplyZeros(Transpose(pr.B));
  }

  lemma ZeroValue(c: Cache, n: nat)
    requires n == c.Pinf.rows == c.Pinf.cols
    ensures Value(c, Zeros(n), Zeros(n)) == 0.0
  {
    DotZeros(n, Apply(c.Pinf, Zeros(n)));
    DotZeros(n, Zeros(n));
  }

  lemma QuadraticGap(pr: Problem, c: Cache, dx: Columns, du: Columns)
    requires pr.Valid() && c.Fits(pr) && Exact(pr, c) && pr.f == Zeros(pr.Nx())
    requires Dynamics(pr, dx, du) && dx[0] == Zeros(pr.Nx())
    ensures var n := |du|;
            Gap(pr, c, dx, du, ZeroColumns(pr.Nu(), n), 0) ==
            CostFrom(pr, c, dx, du, ZeroColumns(pr.Nx(), n + 1), ZeroColumns(pr.Nu(), n), Zeros(pr.Nx()), 0)
  {
    var n := |du|;
    var zx, zu := ZeroColumns(pr.Nx(), n + 1), ZeroColumns(pr.Nu(), n);
    HomogeneousProducts(pr, c);
    HomogeneousBackward(pr, c, n);
    CostIsValuePlusGap(pr, c, dx, du, zx, zu, zx, zu);
    HomogeneousConst(pr, c, n, 0);
    ZeroValue(c, pr.Nx());
  }

  lemma QuadraticAtLeastPenalty(s: Setup, dx: Columns, du: Columns)
    requires s.Valid() && WellPosed(s)
    requires Homogeneous(s.pr).Valid() && HomogeneousCache(s.pr, s.cache).Fits(Homogeneous(s.pr))
    requires Dynamics(Homogeneous(s.pr), dx, du) && |dx| == s.N
    ensures Pair(s, dx, du)
    ensures CostFrom(Homogeneous(s.pr), HomogeneousCache(s.pr, s.cache), dx, du,
                     ZeroColumns(s.pr.Nx(), s.N), ZeroColumns(s.pr.Nu(), s.N - 1), Zeros(s.pr.Nx()), 0)
            >= PenaltyFrom(s, dx, du, 0)
  {
    RiccatiDominates(s, dx[s.N - 1]);
    CurvatureDominates(s, HomogeneousCache(s.pr, s.cache), dx, du, 0);
  }

  lemma GapAtLeastPenalty(s: Setup, xs: Columns, us: Columns, d: Columns, ys: Columns, ws: Columns,
                          dx: Columns, du: Columns)
    requires s.Valid() && WellPosed(s)
    requires ForwardDone(s.pr, s.cache, xs, us, d) && Dynamics(s.pr, ys, ws) && ys[0] == xs[0]
    requires Pair(s, dx, du) && Displacement(xs, ys, dx) && Displacement(us, ws, du)
    requires Homogeneous(s.pr).Valid() && Dynamics(Homogeneous(s.pr), dx, du)
    ensures Gap(s.pr, s.cache, ys, ws, d, 0) >= PenaltyFrom(s, dx, du, 0)
  {
    HomogeneousExact(s.pr, s.cache);
    GapOfDisplacement(s.pr, s.cache, xs, us, d, ys, ws, dx, du);
    NoDisplacement(xs[0], dx[0]);
    HomogeneousGap(s, dx, du);
  }

  lemma NoDisplacement(x: Vec, d: Vec)
    requires d == Sub(x, x)
    ensures d == Zeros(|x|)
  {
  }

  lemma HomogeneousGap(s: Setup, dx: Columns, du: Columns)
    requires s.Valid() && WellPosed(s) && Pair(s, dx, du) && dx[0] == Zeros(s.pr.Nx())
    requires Homogeneous(s.pr).Valid() && HomogeneousCache(s.pr, s.cache).Fits(Homogeneous(s.pr))
    requires Exact(Homogeneous(s.pr), HomogeneousCache(s.pr, s.cache)) && Dynamics(Homogeneous(s.pr), dx, du)
    ensures Gap(Homogeneous(s.pr), HomogeneousCache(s.pr, s.cache), dx, du, ZeroColumns(s.pr.Nu(), |du|), 0)
            >= PenaltyFrom(s, dx, du, 0)
  {
    QuadraticGap(Homogeneous(s.pr), HomogeneousCache(s.pr, s.cache), dx, du);
    QuadraticAtLeastPenalty(s, dx, du);
  }

  lemma GapOfTrajectory(s: Setup, xs: Columns, us: Columns, d: Columns, ys: Columns, ws: Columns)
    requires s.Valid() && WellPosed(s)
    requires ForwardDone(s.pr, s.cache, xs, us, d) && Dynamics(s.pr, ys, ws) && ys[0] == xs[0]
    requires Pair(s, xs, us) && Pair(s, ys, ws)
    ensures Gap(s.pr, s.cache, ys, ws, d, 0) >= PenaltyFrom(s, ColumnsSub(ys, xs), ColumnsSub(ws, us), 0)
  {
    DisplacementDynamics(s.pr, xs, us, ys, ws);
    GapAtLeastPenalty(s, xs, us, d, ys, ws, ColumnsSub(ys, xs), ColumnsSub(ws, us));
  }

  /** The passes have run on the linear terms, and returned exactly the slacks that
      those terms were built from. */
  ghost predicate Settled(s: Setup, w: Work)
    requires s.Valid() && w.Fits(s)
  {
    && w.LinearTermsCurrent(s) && w.x == w.vnew && w.u == w.znew
    && BackwardDone(s.pr, s.cache, w.q, w.r, w.p, w.d) && ForwardDone(s.pr, s.cache, w.x, w.u, w.d)
  }

  /** A state of the solver that a further iteration does not change. */
  ghost predicate FixedPoint(s: Setup, w: Work)
    requires s.Valid()
  {
    w.Fits(s) && Settled(s, w) && s.Feasible(w.vnew, w.znew) && s.DualsNormal(w.vnew, w.znew, w.g, w.y)
  }

  /** Another trajectory of the same dynamics from the same start. */
  ghost predicate Rival(s: Setup, w: Work, ys: Columns, ws: Columns)
    requires s.Valid() && w.Fits(s)
  {
    Dynamics(s.pr, ys, ws) && Pair(s, ys, ws) && ys[0] == w.x[0]
  }

  /** The penalised cost of any trajectory exceeds the optimum by the penalty. */
  lemma CostRises(s: Setup, w: Work, ys: Columns, ws: Columns)
    requires s.Valid() && w.Fits(s) && WellPosed(s) && Settled(s, w) && Rival(s, w, ys, ws)
    ensures CostRose(s, w, ys, ws)
  {
    CostAboveOptimum(s.pr, s.cache, w.x, w.u, w.q, w.r, w.p, w.d, ys, ws);
    GapOfTrajectory(s, w.x, w.u, w.d, ys, ws);
  }

  ghost predicate CostRose(s: Setup, w: Work, ys: Columns, ws: Columns)
    requires s.Valid() && w.Fits(s) && Dynamics(s.pr, w.x, w.u) && Rival(s, w, ys, ws)
  {
    CostFrom(s.pr, s.cache, ys, ws, w.q, w.r, w.p[s.N - 1], 0) >=
    CostFrom(s.pr, s.cache, w.x, w.u, w.q, w.r, w.p[s.N - 1], 0)
    + PenaltyFrom(s, ColumnsSub(ys, w.x), ColumnsSub(ws, w.u), 0)
  }

  /** Taking the difference of the penalised costs apart. */
  lemma TakeApart(s: Setup, w: Work, ys: Columns, ws: Columns)
    requires s.Valid() && w.Fits(s) && WeightsFromDiagonals(s)
    requires w.LinearTermsCurrent(s) && w.x == w.vnew && w.u == w.znew
    requires Dynamics(s.pr, w.x, w.u) && Rival(s, w, ys, ws) && CostRose(s, w, ys, ws)
    ensures Track(s, ys, ws) - Track(s, w.x, w.u)
            + SlopeFrom(s, w.g, w.y, ColumnsSub(ys, w.x), ColumnsSub(ws, w.u), 0) >= 0.0
  {
    CostDifference(s, w, ys, ws, ColumnsSub(ys, w.x), ColumnsSub(ws, w.u));
  }

  /** The first-order condition: no trajectory gains more on the tracking cost than
      the duals charge for it. */
  lemma FirstOrder(s: Setup, w: Work, ys: Columns, ws: Columns)
    requires s.Valid() && w.Fits(s) && WellPosed(s) && Settled(s, w) && Rival(s, w, ys, ws)
    ensures Track(s, ys, ws) - Track(s, w.x, w.u)
            + SlopeFrom(s, w.g, w.y, ColumnsSub(ys, w.x), ColumnsSub(ws, w.u), 0) >= 0.0
  {
    CostRises(s, w, ys, ws);
    TakeApart(s, w, ys, ws);
  }

  /** Main result: at a fixed point the trajectory minimises the tracking cost over
      all trajectories of the dynamics that stay in the boxes. */
  lemma FixedPointIsOptimal(s: Setup, w: Work, ys: Columns, ws: Columns)
    requires s.Valid() && WellPosed(s) && FixedPoint(s, w) && Rival(s, w, ys, ws) && s.Feasible(ys, ws)
    ensures Track(s, ys, ws) >= Track(s, w.x, w.u)
  {
    FirstOrder(s, w, ys, ws);
    SlopeNonPositive(s, w, ys, ws, 0);
  }

  /** An iteration that changes neither slacks nor duals has reached one. */
  lemma UnchangedIsFixedPoint(s: Setup, w: Work, m: Work, w': Work)
    requires s.Valid() && w.Fits(s) && w.LinearTermsCurrent(s) && s.BoundsOrdered()
    requires Passes(s, w, m) && Updates(s, m, w')
    requires w'.vnew == w.vnew && w'.znew == w.znew && w'.g == w.g && w'.y == w.y
    ensures FixedPoint(s, m)
  {
    IterationLeaves(s, w, w');
    SameSum(m.g, m.x, w'.vnew);
    SameSum(m.y, m.u, w'.znew);
  }

  lemma SameSum(g: Columns, x: Columns, v: Columns)
    requires SameShape(g, x) && SameShape(v, x) && Dual(g, x, v) == g
    ensures x == v
  {
    forall i | 0 <= i < |x| ensures x[i] == v[i] {
      forall j | 0 <= j < |x[i]| ensures x[i][j] == v[i][j] {
        assert Dual(g, x, v)[i][j] == g[i][j] + x[i][j] - v[i][j];
      }
    }
  }
}
