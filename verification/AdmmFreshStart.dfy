/** The first call of solve after tiny_setup (3rdparty/tinympc/tiny_api.cpp:68-87): the
    workspace is zero, and so are the linear terms that the first passes read, although the
    references may not be.  From the origin the first iterate is zero and passes every test
    of termination_condition, whatever there is to track. */
module AdmmFreshStart {
  import opened Basics
  import opened Matrix
  import opened Lqr
  import opened Admm
  import opened AdmmOptimality
  import opened AdmmConvergence
  import opened AdmmAccuracy
  import opened AdmmExample
  import opened CacheExactness

  function Fresh(s: Setup): Work
    requires s.Valid()
  {
    Still(s.pr.Nx(), s.pr.Nu(), s.N)
  }

  /** The origin is a place of rest, and in the boxes. */
  ghost predicate AtOrigin(s: Setup)
    requires s.Valid()
  {
    && Exact(s.pr, s.cache) && s.pr.f == Zeros(s.pr.Nx())
    && s.Feasible(ZeroColumns(s.pr.Nx(), s.N), ZeroColumns(s.pr.Nu(), s.N - 1))
  }

  // ----- The passes -----

  lemma ZeroColumn(pr: Problem, c: Cache)
    requires pr.Valid() && c.Fits(pr) && Exact(pr, c) && pr.f == Zeros(pr.Nx())
    ensures var zx, zu := Zeros(pr.Nx()), Zeros(pr.Nu());
      && BackD(pr, c, zx, zu) == zu && BackP(pr, c, zx, zx, zu) == zx
      && Policy(pr, c, zx, zu) == zu && Next(pr, zx, zu) == zx
  {
    HomogeneousProducts(pr, c);
    HomogeneousBackward(pr, c, 1);
    var d := ZeroColumns(pr.Nu(), 1);
    assert d[0] == Zeros(pr.Nu());
    ApplyZeros(c.Kinf);
    ApplyZeros(pr.A);
    ApplyZeros(pr.B);
  }

  lemma BackwardColumn(pr: Problem, c: Cache, q: Columns, r: Columns, p: Columns, d: Columns, i: nat)
    requires pr.Valid() && c.Fits(pr) && BackwardDone(pr, c, q, r, p, d) && i < |d|
    ensures d[i] == BackD(pr, c, p[i + 1], r[i]) && p[i] == BackP(pr, c, p[i + 1], q[i], r[i])
  {
    assert d[i] == d[i];
  }

  lemma {:induction false} BackwardIsZero(
    pr: Problem, c: Cache, q: Columns, r: Columns, p: Columns, d: Columns, i: nat)
    requires pr.Valid() && c.Fits(pr) && Exact(pr, c) && pr.f == Zeros(pr.Nx()) && i <= |d|
    requires BackwardDone(pr, c, q, r, p, d) && p[|d|] == Zeros(pr.Nx())
    requires q == ZeroColumns(pr.Nx(), |d| + 1) && r == ZeroColumns(pr.Nu(), |d|)
    ensures p[i] == Zeros(pr.Nx()) && (i < |d| ==> d[i] == Zeros(pr.Nu()))
    decreases |d| - i
  {
    if i < |d| {
      BackwardIsZero(pr, c, q, r, p, d, i + 1);
      ZeroColumn(pr, c);
      BackwardColumn(pr, c, q, r, p, d, i);
    }
  }

  lemma {:induction false} ForwardIsZero(pr: Problem, c: Cache, xs: Columns, us: Columns, d: Columns, i: nat)
    requires pr.Valid() && c.Fits(pr) && Exact(pr, c) && pr.f == Zeros(pr.Nx())
    requires ForwardDone(pr, c, xs, us, d) && d == ZeroColumns(pr.Nu(), |us|) && xs[0] == Zeros(pr.Nx()) && i <= |us|
    ensures xs[i] == Zeros(pr.Nx()) && (i < |us| ==> us[i] == Zeros(pr.Nu()))
  {
    ZeroColumn(pr, c);
    if i > 0 {
      ForwardIsZero(pr, c, xs, us, d, i - 1);
      assert xs[i - 1 + 1] == Next(pr, xs[i - 1], us[i - 1]);
    }
    if i < |us| { assert us[i] == Policy(pr, c, xs[i], d[i]); }
  }

  lemma FreshPasses(s: Setup, m: Work)
    requires s.Valid() && AtOrigin(s) && Fresh(s).Fits(s) && Passes(s, Fresh(s), m)
    ensures m.x == Fresh(s).x && m.u == Fresh(s).u
  {
    var n, zx, zu := s.N - 1, Fresh(s).x, Fresh(s).u;
    forall i | 0 <= i < n ensures m.d[i] == zu[i] { BackwardIsZero(s.pr, s.cache, m.q, m.r, m.p, m.d, i); }
    assert m.d == zu;
    forall i | 0 <= i <= n ensures m.x[i] == zx[i] && (i < n ==> m.u[i] == zu[i]) {
      ForwardIsZero(s.pr, s.cache, m.x, m.u, m.d, i);
    }
  }

  // ----- The updates -----

  lemma ZeroSlack(on: bool, lo: Columns, hi: Columns, n: nat, k: nat)
    requires Shape(lo, n, k) && Shape(hi, n, k) && (on ==> InBox(lo, hi, ZeroColumns(n, k)))
    ensures var z := ZeroColumns(n, k); Slack(on, lo, hi, z, z) == z && Dual(z, z, z) == z
  {
    var z := ZeroColumns(n, k);
    var v := Slack(on, lo, hi, z, z);
    forall i | 0 <= i < k ensures v[i] == z[i] && Dual(z, z, z)[i] == z[i] {
      forall j | 0 <= j < n ensures v[i][j] == 0.0 {
        assert on ==> lo[i][j] <= z[i][j] <= hi[i][j];
        assert ColumnsAdd(z, z)[i][j] == 0.0;
      }
    }
  }

  /** Main result: the first iterate is zero and is accepted.  The references do not
      occur in the conditions. */
  lemma FreshIterateIsZero(s: Setup, w: Work)
    requires s.Valid() && AtOrigin(s) && Tolerant(s) && Linked(s, Fresh(s), w)
    ensures w.Converged(s)
    ensures w.x == w.vnew == w.g == Fresh(s).x && w.u == w.znew == w.y == Fresh(s).u
  {
    var m :| Passes(s, Fresh(s), m) && Updates(s, m, w);
    FreshPasses(s, m);
    ZeroSlack(s.settings.enStateBound, s.xMin, s.xMax, s.pr.Nx(), s.N);
    ZeroSlack(s.settings.enInputBound, s.uMin, s.uMax, s.pr.Nu(), s.N - 1);
    NoResidual(s, w.x);
    NoResidual(s, w.u);
  }

  lemma NoResidual(s: Setup, a: Columns)
    requires Tolerant(s)
    ensures MaxDiffAll(a, a) < s.settings.absPriTol && Weighted(MaxDiffAll(a, a), s.cache.rho) < s.settings.absDuaTol
  {
    ResidualIff(s.settings.absPriTol, a, a);
    ResidualIff(DualStep(s), a, a);
    Rescaled(s, MaxDiffAll(a, a));
  }

  lemma Rescaled(s: Setup, t: real)
    requires Tolerant(s) && t < DualStep(s)
    ensures Weighted(t, s.cache.rho) < s.settings.absDuaTol
  {
    var rho, q := s.cache.rho, DualStep(s);
    assert q * rho == s.settings.absDuaTol;
    assert Times(rho, t - q) == t * rho - q * rho;
    TimesOrder(rho, t - q);
  }

  /** So with the default check_termination of 1, solve reports "solved" after one
      iteration and returns zero. */
  lemma FreshAnswerIsZero(s: Setup, history: seq<Work>, w: Work, solved: bool)
    requires s.Valid() && AtOrigin(s) && Tolerant(s) && s.settings.maxIter >= 1 && s.settings.checkTermination == 1
    requires Answers(s, Fresh(s), history, w, solved)
    ensures solved && |history| == 1
    ensures w.x == w.vnew == w.g == Fresh(s).x && w.u == w.znew == w.y == Fresh(s).u
  {
    assert history != [] && history[..0] == [];
    assert Linked(s, Kept(Fresh(s), history[..0]), history[0]);
    assert !solved ==> Rejected(s, 0 + 1, history[0]);
    var before := history[..|history| - 1];
    assert solved && before != [] ==> Rejected(s, 0 + 1, before[0]);
    FreshIterateIsZero(s, history[0]);
  }

  // ----- An instance -----

  const FAR: Setup := Pull(10.0, false)

  lemma FarIsAtOrigin()
    ensures AtOrigin(FAR) && WellPosed(FAR) && Tolerant(FAR) && FAR.BoundsOrdered()
  {
    TaskIsWellPosed(1, [1.0], 2, [[10.0]], false, [[-1.0]], [[1.0]]);
  }

  /** Where the input reference is 10 the answer is nothing, at a cost of 0, and following
      the reference costs -50. */
  lemma FreshAnswerIsFarOff(history: seq<Work>, w: Work, solved: bool)
    requires Answers(FAR, Fresh(FAR), history, w, solved)
    ensures solved && w.Fits(FAR)
    ensures var ys, ws := ZeroColumns(1, 2), [[10.0]];
      && Rival(FAR, w, ys, ws) && FAR.Feasible(ys, ws) && Tolerant(FAR) && |Point(ys, ws)| == |Rollout(w)|
      && !WithinOf(FAR, w, ys, ws, Slackness(FAR, w, ys, ws))
  {
    FarIsAtOrigin();
    FreshAnswerIsZero(FAR, history, w, solved);
    FarRival(w);
    FarCosts(w);
    FarSlackness(w);
  }

  /** What the costs depend on. */
  ghost predicate FarLike(s: Setup) {
    && s.Valid() && s.N == 2 && s.Qd == Zeros(1) && s.Rd == [1.0] && s.cache.rho == 1.0 && Square(s.cache.Pinf, 1)
    && s.Xref == ZeroColumns(1, 2) && s.Uref == [[10.0]] && s.pr.Nx() == s.pr.Nu() == 1
  }

  lemma FarFields()
    ensures FarLike(FAR) && Tolerant(FAR) && DualStep(FAR) == 0.001 && FAR.settings.absPriTol == 0.001
    ensures FAR.pr.A == FAR.pr.B == ZeroMat(1, 1) && FAR.pr.f == Zeros(1)
    ensures Fresh(FAR).x == ZeroColumns(1, 2) && Fresh(FAR).u == [[0.0]]
  {
    assert Zeros(1) == [0.0];
  }

  lemma FarRival(w: Work)
    requires w.Fits(FAR) && w.x == Fresh(FAR).x
    ensures Rival(FAR, w, ZeroColumns(1, 2), [[10.0]])
  {
    var z := Zeros(1);
    FarFields();
    ApplyZeroMat(1, 1, [10.0]);
    ApplyZeroMat(1, 1, z);
    assert Next(FAR.pr, z, [10.0]) == z;
  }

  lemma DotOne(a: real, b: real)
    ensures Dot([a], [b]) == Times(a, b)
  {
    assert [a][1..] == [] && [b][1..] == [];
  }

  lemma InputTerm(u: real)
    ensures TrackTerm([1.0], [10.0], [u]) == u * u / 2.0 - 10.0 * u
  {
    ApplyDiag([1.0], [u]);
    assert Hadamard([1.0], [u]) == [u] && Hadamard([1.0], [10.0]) == [10.0];
    DotOne(u, u);
    DotOne(10.0, u);
  }

  lemma NoTrackTerm(w: Vec)
    ensures TrackTerm(w, Zeros(|w|), Zeros(|w|)) == 0.0
  {
    var z := Zeros(|w|);
    DotZeros(|w|, Apply(Diag(w), z));
    DotComm(Hadamard(w, z), z);
    DotZeros(|w|, Hadamard(w, z));
  }

  lemma NoTerminalTerm(P: Mat, rho: real)
    requires P.rows == P.cols
    ensures TrackTerminal(P, rho, Zeros(P.rows), Zeros(P.rows)) == 0.0
  {
    var z := Zeros(P.rows);
    DotZeros(P.rows, Apply(P, z));
    DotZeros(P.rows, Apply(RhoI(P.rows, rho), z));
    DotComm(Apply(Transpose(P), z), z);
    DotZeros(P.rows, Apply(Transpose(P), z));
  }

  lemma TrackOfTwo(s: Setup, xs: Columns, us: Columns)
    requires s.Valid() && Pair(s, xs, us) && s.N == 2
    ensures Track(s, xs, us) == TrackTerm(s.Qd, s.Xref[0], xs[0]) + TrackTerm(s.Rd, s.Uref[0], us[0])
                                + TrackTerminal(s.cache.Pinf, s.cache.rho, s.Xref[1], xs[1])
  {
    assert TrackFrom(s, xs, us, 0) ==
           TrackTerm(s.Qd, s.Xref[0], xs[0]) + TrackTerm(s.Rd, s.Uref[0], us[0]) + TrackFrom(s, xs, us, 1);
  }

  lemma FarTrack(s: Setup, us: Columns, u: real)
    requires FarLike(s) && us == [[u]]
    ensures Pair(s, ZeroColumns(1, 2), us) && Track(s, ZeroColumns(1, 2), us) == TrackTerm([1.0], [10.0], [u])
  {
    TrackOfTwo(s, ZeroColumns(1, 2), us);
    NoTrackTerm(s.Qd);
    NoTerminalTerm(s.cache.Pinf, s.cache.rho);
  }

  lemma FarCosts(w: Work)
    requires w.Fits(FAR) && w.x == Fresh(FAR).x && w.u == Fresh(FAR).u && Pair(FAR, ZeroColumns(1, 2), [[10.0]])
    ensures Track(FAR, w.x, w.u) == 0.0 && Track(FAR, ZeroColumns(1, 2), [[10.0]]) == -50.0
  {
    FarFields();
    FarTrack(FAR, w.u, 0.0);
    FarTrack(FAR, [[10.0]], 10.0);
    InputTerm(0.0);
    InputTerm(10.0);
  }

  lemma FlatOne(a: real)
    ensures Flat([[a]]) == [a]
  {
    assert [[a]][1..] == [];
  }

  lemma FarPoint(u: real)
    ensures Point(ZeroColumns(1, 2), [[u]]) == [0.0, 0.0, u]
  {
    var z := ZeroColumns(1, 2);
    FlatOne(u);
    FlatOne(0.0);
    assert z[0] == [0.0] && z[1..] == [[0.0]];
  }

  lemma TaxiOfThree(u: real)
    ensures Taxi([0.0, 0.0, u]) == Abs(u)
  {
    var a, b, c: Vec := [u], [0.0, u], [0.0, 0.0, u];
    assert a[1..] == [] && b[1..] == a && c[1..] == b;
    assert Taxi(a) == Abs(u) && Taxi(b) == Taxi(a);
  }

  lemma FarSlackness(w: Work)
    requires w.Fits(FAR) && w.x == w.g == Fresh(FAR).x && w.u == w.y == Fresh(FAR).u
    ensures Tolerant(FAR) && |Point(ZeroColumns(1, 2), [[10.0]])| == |Rollout(w)|
    ensures Slackness(FAR, w, ZeroColumns(1, 2), [[10.0]]) == 0.01
  {
    FarFields();
    FarPoint(0.0);
    FarPoint(10.0);
    assert Sub(Point(ZeroColumns(1, 2), [[10.0]]), Rollout(w)) == [0.0, 0.0, 10.0];
    TaxiOfThree(10.0);
    TaxiOfThree(0.0);
  }
}
