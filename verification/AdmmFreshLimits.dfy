/** Exactly when the zero answer that solve gives from a fresh workspace
    (3rdparty/tinympc/tiny_api.cpp:68-87) is as good as the tolerances promise: when the
    references pull along no trajectory in the boxes by more than abs_dua_tol for each
    unit of its size. */
module AdmmFreshLimits {
  import opened Basics
  import opened Matrix
  import opened Lqr
  import opened Admm
  import opened AdmmOptimality
  import opened AdmmConvergence
  import opened AdmmAccuracy
  import opened AdmmFreshStart

  // ----- The two parts of the tracking cost -----

  function TerminalCurve(P: Mat, rho: real, x: Vec): real
    requires P.rows == P.cols == |x|
  {
    Half(Quad(P, x)) - Half(Quad(RhoI(|x|, rho), x))
  }

  /** The part that is quadratic in the trajectory ... */
  ghost function CurveFrom(s: Setup, xs: Columns, us: Columns, i: nat): real
    requires s.Valid() && Pair(s, xs, us) && i < s.N
    decreases s.N - i
  {
    if i == s.N - 1 then TerminalCurve(s.cache.Pinf, s.cache.rho, xs[i])
    else Half(Quad(Diag(s.Qd), xs[i])) + Half(Quad(Diag(s.Rd), us[i])) + CurveFrom(s, xs, us, i + 1)
  }

  /** ... and the part by which the references pull, which is linear in it. */
  ghost function PullFrom(s: Setup, xs: Columns, us: Columns, i: nat): real
    requires s.Valid() && Pair(s, xs, us) && i < s.N
    decreases s.N - i
  {
    if i == s.N - 1 then Dot(Apply(Transpose(s.cache.Pinf), s.Xref[i]), xs[i])
    else Dot(Hadamard(s.Qd, s.Xref[i]), xs[i]) + Dot(Hadamard(s.Rd, s.Uref[i]), us[i]) + PullFrom(s, xs, us, i + 1)
  }

  lemma {:induction false} TrackSplits(s: Setup, xs: Columns, us: Columns, i: nat)
    requires s.Valid() && Pair(s, xs, us) && i < s.N
    ensures TrackFrom(s, xs, us, i) == CurveFrom(s, xs, us, i) - PullFrom(s, xs, us, i)
    decreases s.N - i
  {
    if i < s.N - 1 { TrackSplits(s, xs, us, i + 1); }
  }

  lemma TerminalRises(s: Setup, x: Vec)
    requires s.Valid() && WellPosed(s) && |x| == s.pr.Nx()
    ensures TerminalCurve(s.cache.Pinf, s.cache.rho, x) >= 0.0
  {
    RiccatiDominates(s, x);
  }

  lemma {:induction false} CurveRises(s: Setup, xs: Columns, us: Columns, i: nat)
    requires s.Valid() && WellPosed(s) && Pair(s, xs, us) && i < s.N
    ensures CurveFrom(s, xs, us, i) >= 0.0
    decreases s.N - i
  {
    if i == s.N - 1 {
      TerminalRises(s, xs[i]);
    } else {
      CurveRises(s, xs, us, i + 1);
      PsdDiag(s.Qd);
      PsdDiag(s.Rd);
      assert Quad(Diag(s.Qd), xs[i]) >= 0.0 && Quad(Diag(s.Rd), us[i]) >= 0.0;
    }
  }

  // ----- Shorter trajectories -----

  function ColumnsScale(t: real, a: Columns): (r: Columns)
    ensures SameShape(r, a)
  {
    seq(|a|, i requires 0 <= i < |a| => Scale(t, a[i]))
  }

  lemma TimesHalves(t: real, a: real, b: real, c: real)
    ensures Half(Times(t, Times(t, a))) == Times(t, Times(t, Half(a)))
    ensures Times(t, Times(t, a)) + Times(t, Times(t, b)) + Times(t, Times(t, c)) == Times(t, Times(t, a + b + c))
    ensures Times(t, Times(t, a)) - Times(t, Times(t, b)) == Times(t, Times(t, a - b))
  {
    TimesSum(t, a, b, c);
    TimesSum(t, Times(t, a), Times(t, b), Times(t, c));
    TimesLaws(0.0, a, b, t);
    TimesLaws(0.0, Times(t, a), Times(t, b), t);
    assert Times(t, a - b) == Times(t, a) - Times(t, b);
    assert t * (t * a) / 2.0 == t * (t * (a / 2.0));
  }

  lemma {:induction false} CurveScales(s: Setup, t: real, xs: Columns, us: Columns, i: nat)
    requires s.Valid() && Pair(s, xs, us) && i < s.N
    ensures CurveFrom(s, ColumnsScale(t, xs), ColumnsScale(t, us), i) == Times(t, Times(t, CurveFrom(s, xs, us, i)))
    decreases s.N - i
  {
    if i == s.N - 1 {
      var a, b := Quad(s.cache.Pinf, xs[i]), Quad(RhoI(|xs[i]|, s.cache.rho), xs[i]);
      QuadScale(s.cache.Pinf, t, xs[i]);
      QuadScale(RhoI(|xs[i]|, s.cache.rho), t, xs[i]);
      TimesHalves(t, a, b, 0.0);
      TimesHalves(t, b, b, 0.0);
      TimesHalves(t, Half(a), Half(b), 0.0);
    } else {
      var a, b := Quad(Diag(s.Qd), xs[i]), Quad(Diag(s.Rd), us[i]);
      CurveScales(s, t, xs, us, i + 1);
      QuadScale(Diag(s.Qd), t, xs[i]);
      QuadScale(Diag(s.Rd), t, us[i]);
      TimesHalves(t, a, b, 0.0);
      TimesHalves(t, b, b, 0.0);
      TimesHalves(t, Half(a), Half(b), CurveFrom(s, xs, us, i + 1));
    }
  }

  lemma {:induction false} PullScales(s: Setup, t: real, xs: Columns, us: Columns, i: nat)
    requires s.Valid() && Pair(s, xs, us) && i < s.N
    ensures PullFrom(s, ColumnsScale(t, xs), ColumnsScale(t, us), i) == Times(t, PullFrom(s, xs, us, i))
    decreases s.N - i
  {
    if i == s.N - 1 {
      DotScaleRight(t, Apply(Transpose(s.cache.Pinf), s.Xref[i]), xs[i]);
    } else {
      PullScales(s, t, xs, us, i + 1);
      DotScaleRight(t, Hadamard(s.Qd, s.Xref[i]), xs[i]);
      DotScaleRight(t, Hadamard(s.Rd, s.Uref[i]), us[i]);
      TimesSum(t, Dot(Hadamard(s.Qd, s.Xref[i]), xs[i]), Dot(Hadamard(s.Rd, s.Uref[i]), us[i]), PullFrom(s, xs, us, i + 1));
    }
  }

  lemma {:induction false} FlatScales(t: real, a: Columns)
    ensures Flat(ColumnsScale(t, a)) == Scale(t, Flat(a))
    decreases |a|
  {
    if a != [] {
      FlatScales(t, a[1..]);
      assert ColumnsScale(t, a)[1..] == ColumnsScale(t, a[1..]);
    }
  }

  lemma {:induction false} TaxiScales(t: real, a: Vec)
    requires t >= 0.0
    ensures Taxi(Scale(t, a)) == Times(t, Taxi(a))
  {
    if a != [] {
      TaxiScales(t, a[1..]);
      assert Scale(t, a)[1..] == Scale(t, a[1..]);
      AbsScales(t, a[0]);
      TimesSum(t, Abs(a[0]), Taxi(a[1..]), 0.0);
    }
  }

  lemma AbsScales(t: real, x: real)
    requires t >= 0.0
    ensures Abs(Times(t, x)) == Times(t, Abs(x)) && Times(t, 0.0) == 0.0
  {
    TimesSign(t, x);
    assert Times(t, -x) == -Times(t, x);
  }

  lemma SizeScales(t: real, xs: Columns, us: Columns)
    requires t >= 0.0
    ensures Taxi(Point(ColumnsScale(t, xs), ColumnsScale(t, us))) == Times(t, Taxi(Point(xs, us)))
  {
    FlatScales(t, xs);
    FlatScales(t, us);
    assert Scale(t, Flat(xs)) + Scale(t, Flat(us)) == Scale(t, Flat(xs) + Flat(us));
    TaxiScales(t, Point(xs, us));
  }

  /** Without an affine term the dynamics is linear. */
  lemma NextScales(pr: Problem, t: real, x: Vec, u: Vec)
    requires pr.Valid() && |x| == pr.Nx() && |u| == pr.Nu() && pr.f == Zeros(pr.Nx())
    ensures Next(pr, Scale(t, x), Scale(t, u)) == Scale(t, Next(pr, x, u))
  {
    ApplyScale(pr.A, t, x);
    ApplyScale(pr.B, t, u);
    var a, b := Apply(pr.A, x), Apply(pr.B, u);
    forall i | 0 <= i < pr.Nx() ensures Next(pr, Scale(t, x), Scale(t, u))[i] == Scale(t, Next(pr, x, u))[i] {
      TimesSum(t, a[i], b[i], 0.0);
      TimesLaws(0.0, t, t, t);
    }
  }

  lemma DynamicsScales(pr: Problem, t: real, xs: Columns, us: Columns)
    requires pr.Valid() && pr.f == Zeros(pr.Nx()) && Dynamics(pr, xs, us)
    ensures Dynamics(pr, ColumnsScale(t, xs), ColumnsScale(t, us))
  {
    var a, b := ColumnsScale(t, xs), ColumnsScale(t, us);
    forall i | 0 <= i < |b| ensures a[i + 1] == Next(pr, a[i], b[i]) {
      NextScales(pr, t, xs[i], us[i]);
      assert xs[i + 1] == Next(pr, xs[i], us[i]);
    }
  }

  lemma Between(lo: real, hi: real, t: real, y: real)
    requires lo <= 0.0 <= hi && lo <= y <= hi && 0.0 <= t <= 1.0
    ensures lo <= Times(t, y) <= hi
  {
    TimesSign(t, y);
    TimesSign(1.0 - t, y);
    assert Times(1.0 - t, y) == y - Times(t, y);
  }

  lemma BoxScales(lo: Columns, hi: Columns, t: real, y: Columns, n: nat)
    requires Shape(lo, n, |y|) && Shape(hi, n, |y|) && Shape(y, n, |y|) && 0.0 <= t <= 1.0
    requires InBox(lo, hi, ZeroColumns(n, |y|)) && InBox(lo, hi, y)
    ensures InBox(lo, hi, ColumnsScale(t, y))
  {
    var z := ZeroColumns(n, |y|);
    forall i, j | 0 <= i < |y| && 0 <= j < |y[i]| ensures lo[i][j] <= ColumnsScale(t, y)[i][j] <= hi[i][j] {
      assert lo[i][j] <= z[i][j] <= hi[i][j] && lo[i][j] <= y[i][j] <= hi[i][j];
      Between(lo[i][j], hi[i][j], t, y[i][j]);
    }
  }

  // ----- The condition -----

  /** A trajectory from the origin that stays in the boxes. */
  ghost predicate Candidate(s: Setup, ys: Columns, ws: Columns)
    requires s.Valid()
  {
    Pair(s, ys, ws) && Dynamics(s.pr, ys, ws) && ys[0] == Zeros(s.pr.Nx()) && s.Feasible(ys, ws)
  }

  lemma CandidateScales(s: Setup, t: real, ys: Columns, ws: Columns)
    requires s.Valid() && AtOrigin(s) && Candidate(s, ys, ws) && 0.0 <= t <= 1.0
    ensures Candidate(s, ColumnsScale(t, ys), ColumnsScale(t, ws))
  {
    DynamicsScales(s.pr, t, ys, ws);
    if s.settings.enStateBound { BoxScales(s.xMin, s.xMax, t, ys, s.pr.Nx()); }
    if s.settings.enInputBound { BoxScales(s.uMin, s.uMax, t, ws, s.pr.Nu()); }
    assert Scale(t, Zeros(s.pr.Nx())) == Zeros(s.pr.Nx());
  }

  /** abs_dua_tol for each unit of size. */
  ghost function Allowance(s: Setup, ys: Columns, ws: Columns): real
    requires Tolerant(s)
  {
    Times(s.cache.rho, Times(Taxi(Point(ys, ws)), DualStep(s)))
  }

  /** The references pull by no more than the allowance. */
  ghost predicate Gentle(s: Setup, ys: Columns, ws: Columns)
    requires s.Valid() && Tolerant(s) && Pair(s, ys, ws)
  {
    PullFrom(s, ys, ws, 0) <= Allowance(s, ys, ws)
  }

  /** The zero trajectory is as good as the tolerances promise, compared with this one. */
  ghost predicate ZeroIsGood(s: Setup, ys: Columns, ws: Columns)
    requires s.Valid() && Tolerant(s) && Pair(s, ys, ws)
  {
    0.0 <= CurveFrom(s, ys, ws, 0) - PullFrom(s, ys, ws, 0) + Allowance(s, ys, ws)
  }

  lemma AllowanceScales(s: Setup, t: real, ys: Columns, ws: Columns)
    requires Tolerant(s) && t >= 0.0
    ensures Allowance(s, ColumnsScale(t, ys), ColumnsScale(t, ws)) == Times(t, Allowance(s, ys, ws))
  {
    SizeScales(t, ys, ws);
    Reorder(s.cache.rho, t, Taxi(Point(ys, ws)), DualStep(s));
  }

  lemma Reorder(rho: real, t: real, a: real, q: real)
    ensures Times(rho, Times(Times(t, a), q)) == Times(t, Times(rho, Times(a, q)))
  {
    assert rho * ((t * a) * q) == t * (rho * (a * q));
  }

  /** If the pull wins over the allowance, a short enough piece of the trajectory wins
      over its own cost as well. */
  lemma ShortEnough(c: real, l: real, e: real) returns (t: real)
    requires c >= 0.0 && l > e
    ensures 0.0 < t <= 1.0 && Times(t, Times(t, c)) - Times(t, l) + Times(t, e) < 0.0
  {
    var d := l - e;
    t := d / (c + d);
    assert t * (c + d) == d;
    Quotient(c, d, t);
    assert Times(t, Times(t, c)) - Times(t, l) + Times(t, e) == Times(t, Times(t, c) - d);
    TimesOrder(t, Times(t, c) - d);
  }

  lemma Quotient(c: real, d: real, t: real)
    requires c >= 0.0 && d > 0.0 && t * (c + d) == d
    ensures 0.0 < t <= 1.0 && Times(t, c) < d
  {
    TimesOrder(c + d, t);
    TimesOrder(c + d, 1.0 - t);
    assert Times(c + d, t) == d;
    assert Times(c + d, 1.0 - t) == c;
    assert t * c == d - t * d;
    TimesOrder(t, d);
    assert t > 0.0 && Times(t, d) > 0.0;
  }

  lemma PullMustBeGentle(s: Setup, ys: Columns, ws: Columns) returns (t: real)
    requires s.Valid() && WellPosed(s) && Tolerant(s) && AtOrigin(s) && Candidate(s, ys, ws) && !Gentle(s, ys, ws)
    ensures Candidate(s, ColumnsScale(t, ys), ColumnsScale(t, ws))
    ensures !ZeroIsGood(s, ColumnsScale(t, ys), ColumnsScale(t, ws))
  {
    CurveRises(s, ys, ws, 0);
    t := ShortEnough(CurveFrom(s, ys, ws, 0), PullFrom(s, ys, ws, 0), Allowance(s, ys, ws));
    CandidateScales(s, t, ys, ws);
    CurveScales(s, t, ys, ws, 0);
    PullScales(s, t, ys, ws, 0);
    AllowanceScales(s, t, ys, ws);
  }

  /** The zero answer is good towards all candidates exactly if all of them are gentle. */
  lemma ZeroIsGoodIff(s: Setup)
    requires s.Valid() && WellPosed(s) && Tolerant(s) && AtOrigin(s)
    ensures (forall ys, ws :: Candidate(s, ys, ws) ==> ZeroIsGood(s, ys, ws)) <==>
            (forall ys, ws :: Candidate(s, ys, ws) ==> Gentle(s, ys, ws))
  {
    if forall ys, ws :: Candidate(s, ys, ws) ==> ZeroIsGood(s, ys, ws) {
      forall ys, ws | Candidate(s, ys, ws) ensures Gentle(s, ys, ws) {
        if !Gentle(s, ys, ws) { var t := PullMustBeGentle(s, ys, ws); }
      }
    }
    if forall ys, ws :: Candidate(s, ys, ws) ==> Gentle(s, ys, ws) {
      forall ys, ws | Candidate(s, ys, ws) ensures ZeroIsGood(s, ys, ws) { CurveRises(s, ys, ws, 0); }
    }
  }

  // ----- The answer of solve -----

  /** What solve returns from a fresh workspace, towards one candidate. */
  lemma FreshIsWithin(s: Setup, w: Work, ys: Columns, ws: Columns)
    requires s.Valid() && Tolerant(s) && w.Fits(s) && Candidate(s, ys, ws)
    requires w.x == w.g == Fresh(s).x && w.u == w.y == Fresh(s).u
    ensures |Point(ys, ws)| == |Rollout(w)|
    ensures WithinOf(s, w, ys, ws, Slackness(s, w, ys, ws)) <==> ZeroIsGood(s, ys, ws)
  {
    PointSub(ys, ws, w.x, w.u);
    NoTrack(s, w.x, w.u, 0);
    TrackSplits(s, ys, ws, 0);
    ZeroPoint(s.pr.Nx(), s.N, s.pr.Nu(), s.N - 1);
    assert Sub(Point(ys, ws), Rollout(w)) == Point(ys, ws);
    assert Slackness(s, w, ys, ws) == Times(Taxi(Point(ys, ws)), DualStep(s));
  }

  lemma {:induction false} NoTrack(s: Setup, xs: Columns, us: Columns, i: nat)
    requires s.Valid() && i < s.N && xs == ZeroColumns(s.pr.Nx(), s.N) && us == ZeroColumns(s.pr.Nu(), s.N - 1)
    ensures TrackFrom(s, xs, us, i) == 0.0
    decreases s.N - i
  {
    if i == s.N - 1 {
      NoTermAt(s.cache.Pinf, Apply(Transpose(s.cache.Pinf), s.Xref[i]));
      NoTermAt(RhoI(s.pr.Nx(), s.cache.rho), Zeros(s.pr.Nx()));
    } else {
      NoTrack(s, xs, us, i + 1);
      NoTermAt(Diag(s.Qd), Hadamard(s.Qd, s.Xref[i]));
      NoTermAt(Diag(s.Rd), Hadamard(s.Rd, s.Uref[i]));
    }
  }

  lemma NoTermAt(M: Mat, r: Vec)
    requires M.rows == M.cols == |r|
    ensures Quad(M, Zeros(|r|)) == 0.0 && Dot(r, Zeros(|r|)) == 0.0
  {
    DotZeros(|r|, Apply(M, Zeros(|r|)));
    DotComm(r, Zeros(|r|));
    DotZeros(|r|, r);
  }

  predicate IsZero(a: Vec) { forall i :: 0 <= i < |a| ==> a[i] == 0.0 }

  lemma {:induction false} FlatZero(n: nat, k: nat)
    ensures IsZero(Flat(ZeroColumns(n, k)))
    decreases k
  {
    if k > 0 {
      FlatZero(n, k - 1);
      assert ZeroColumns(n, k)[1..] == ZeroColumns(n, k - 1);
    }
  }

  lemma {:induction false} TaxiZero(a: Vec)
    requires IsZero(a)
    ensures Taxi(a) == 0.0
  {
    if a != [] { TaxiZero(a[1..]); }
  }

  lemma ZeroPoint(n: nat, k: nat, m: nat, l: nat)
    ensures var p := Point(ZeroColumns(n, k), ZeroColumns(m, l)); p == Zeros(|p|) && Taxi(p) == 0.0
  {
    FlatZero(n, k);
    FlatZero(m, l);
    var p := Point(ZeroColumns(n, k), ZeroColumns(m, l));
    assert IsZero(p);
    TaxiZero(p);
  }

  ghost predicate GoodTowards(s: Setup, w: Work, ys: Columns, ws: Columns)
    requires s.Valid() && Tolerant(s) && w.Fits(s) && Pair(s, ys, ws)
  {
    |Point(ys, ws)| == |Rollout(w)| && WithinOf(s, w, ys, ws, Slackness(s, w, ys, ws))
  }

  /** Main result: from a fresh workspace at the origin, the answer of solve is as good as
      the tolerances promise, towards every trajectory in the boxes, if and only if the
      references pull along none of them by more than abs_dua_tol for each unit of size. */
  lemma FreshIsNearlyOptimalIff(s: Setup, history: seq<Work>, w: Work, solved: bool)
    requires s.Valid() && WellPosed(s) && Tolerant(s) && AtOrigin(s)
    requires s.settings.maxIter >= 1 && s.settings.checkTermination == 1
    requires Answers(s, Fresh(s), history, w, solved)
    ensures solved && w.Fits(s)
    ensures (forall ys, ws :: Candidate(s, ys, ws) ==> GoodTowards(s, w, ys, ws)) <==>
            (forall ys, ws :: Candidate(s, ys, ws) ==> Gentle(s, ys, ws))
  {
    FreshAnswerIsZero(s, history, w, solved);
    forall ys, ws | Candidate(s, ys, ws) ensures GoodTowards(s, w, ys, ws) <==> ZeroIsGood(s, ys, ws) {
      FreshIsWithin(s, w, ys, ws);
    }
    ZeroIsGoodIff(s);
  }
}
