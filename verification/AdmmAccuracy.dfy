/** How good an answer of solve in 3rdparty/tinympc/admm.cpp is: the trajectory of an
    accepted iterate costs no more than any trajectory that stays in the boxes, up to a
    term that the two tolerances of termination_condition bound. */
module AdmmAccuracy {
  import opened Basics
  import opened Matrix
  import opened Admm
  import opened AdmmOptimality
  import opened AdmmConvergence

  // ----- Inner products of bounded vectors -----

  /** The sum of the sizes of the entries. */
  function Taxi(a: Vec): (r: real)
    ensures r >= 0.0
  {
    if a == [] then 0.0 else Abs(a[0]) + Taxi(a[1..])
  }

  ghost predicate Bounded(a: Vec, t: real) { forall i :: 0 <= i < |a| ==> Abs(a[i]) <= t }

  lemma ProductBounded(x: real, y: real, t: real)
    requires Abs(y) <= t
    ensures Times(x, y) <= Times(Abs(x), t)
  {
    TimesSign(Abs(x), t - y);
    TimesSign(Abs(x), t + y);
    assert Abs(x) * (t - y) == Abs(x) * t - Abs(x) * y;
    assert Abs(x) * (t + y) == Abs(x) * t + Abs(x) * y;
  }

  lemma {:induction false} BoundedDot(a: Vec, b: Vec, t: real)
    requires |a| == |b| && Bounded(b, t)
    ensures Dot(a, b) <= Times(Taxi(a), t)
  {
    if a != [] {
      BoundedDot(a[1..], b[1..], t);
      ProductBounded(a[0], b[0], t);
      TimesLaws(0.0, Abs(a[0]), Taxi(a[1..]), t);
    }
  }

  lemma {:induction false} FlatBounded(c: Columns, t: real)
    requires forall i :: 0 <= i < |c| ==> Bounded(c[i], t)
    ensures Bounded(Flat(c), t)
    decreases |c|
  {
    if c != [] {
      FlatBounded(c[1..], t);
      var a, b := c[0], Flat(c[1..]);
      forall k | 0 <= k < |a + b| ensures Abs((a + b)[k]) <= t {
        if k >= |a| { assert (a + b)[k] == b[k - |a|]; }
      }
    }
  }

  lemma ColumnsBounded(a: Columns, b: Columns, t: real)
    requires SameShape(a, b) && Within(t, a, b)
    ensures Bounded(Flat(ColumnsSub(b, a)), t)
  {
    var c := ColumnsSub(b, a);
    forall i | 0 <= i < |c| ensures Bounded(c[i], t) {
      forall j | 0 <= j < |c[i]| ensures Abs(c[i][j]) <= t {
        assert Abs(a[i][j] - b[i][j]) < t;
      }
    }
    FlatBounded(c, t);
  }

  /** Two pairs whose entries are within t of each other. */
  lemma PointsBounded(xs: Columns, us: Columns, ys: Columns, ws: Columns, t: real)
    requires SameShape(xs, ys) && SameShape(us, ws) && Within(t, xs, ys) && Within(t, us, ws)
    ensures |Point(ys, ws)| == |Point(xs, us)| && Bounded(Sub(Point(ys, ws), Point(xs, us)), t)
  {
    ColumnsBounded(xs, ys, t);
    ColumnsBounded(us, ws, t);
    PointSub(ys, ws, xs, us);
    var a, b := Flat(ColumnsSub(ys, xs)), Flat(ColumnsSub(ws, us));
    assert Bounded(a + b, t);
  }

  // ----- What the duals charge -----

  /** From slacks v and duals g over the rollout x to slacks v': what the pulled duals
      charge for going to y, in terms of the new ones. */
  lemma ChargeSplits(v: Vec, g: Vec, x: Vec, v': Vec, y: Vec)
    requires |v| == |g| == |x| == |v'| == |y|
    ensures var h := Sub(Add(g, x), v');
      Dot(Pulled(x, v, g), Sub(y, x)) == Dot(h, Sub(y, v')) + Dot(h, Sub(v', x)) + Dot(Sub(y, x), Sub(v', v))
  {
    var h := Sub(Add(g, x), v');
    assert Pulled(x, v, g) == Add(h, Sub(v', v));
    assert Sub(y, x) == Add(Sub(y, v'), Sub(v', x));
    DotAdd(h, Sub(v', v), Sub(y, x));
    DotComm(h, Sub(y, x));
    DotAdd(Sub(y, v'), Sub(v', x), h);
    DotComm(Sub(y, v'), h);
    DotComm(Sub(v', x), h);
    DotComm(Sub(v', v), Sub(y, x));
  }

  /** The new duals charge nothing for going to a point of the boxes. */
  lemma BoxIsFree(s: Setup, w: Work, ys: Columns, ws: Columns)
    requires s.Valid() && s.cache.rho > 0.0 && w.Fits(s) && Pair(s, ys, ws) && s.Feasible(ys, ws)
    requires s.DualsNormal(w.vnew, w.znew, w.g, w.y)
    ensures |Duals(w)| == |Point(ys, ws)| == |Slacks(w)| && Dot(Duals(w), Sub(Point(ys, ws), Slacks(w))) <= 0.0
  {
    var k := w.(x := w.vnew, u := w.znew);
    SlopeNonPositive(s, k, ys, ws, 0);
    SlopeOfPoints(s, w.g, w.y, ys, ws, w.vnew, w.znew);
    TimesOrder(s.cache.rho, Dot(Duals(w), Sub(Point(ys, ws), Slacks(w))));
  }

  /** The slacks that the dual residual compares with. */
  function Remembered(w: Work): Vec { Point(w.v, w.z) }

  /** The residual tests, as bounds on long vectors. */
  lemma AcceptedBounds(s: Setup, w: Work)
    requires s.Valid() && Tolerant(s) && w.Fits(s) && w.Converged(s)
    ensures |Remembered(w)| == |Slacks(w)| == |Rollout(w)|
    ensures Bounded(Sub(Slacks(w), Rollout(w)), s.settings.absPriTol)
    ensures Bounded(Sub(Slacks(w), Remembered(w)), DualStep(s))
  {
    ResidualIff(s.settings.absPriTol, w.x, w.vnew);
    ResidualIff(s.settings.absPriTol, w.u, w.znew);
    PointsBounded(w.x, w.u, w.vnew, w.znew, s.settings.absPriTol);
    DualResidual(s, w.v, w.vnew);
    DualResidual(s, w.z, w.znew);
    PointsBounded(w.v, w.z, w.vnew, w.znew, DualStep(s));
  }

  lemma DualResidual(s: Setup, a: Columns, b: Columns)
    requires Tolerant(s) && SameShape(a, b) && Weighted(MaxDiffAll(a, b), s.cache.rho) < s.settings.absDuaTol
    ensures Within(DualStep(s), a, b)
  {
    Unscaled(s, MaxDiffAll(a, b));
    ResidualIff(DualStep(s), a, b);
  }

  lemma Unscaled(s: Setup, t: real)
    requires Tolerant(s) && Weighted(t, s.cache.rho) < s.settings.absDuaTol
    ensures t < DualStep(s)
  {
    var rho, q := s.cache.rho, DualStep(s);
    assert q * rho == s.settings.absDuaTol;
    assert Times(rho, t - q) == t * rho - q * rho;
    TimesOrder(rho, t - q);
  }

  /** How much the tolerances leave open, towards the trajectory (ys, ws). */
  ghost function Slackness(s: Setup, w: Work, ys: Columns, ws: Columns): real
    requires Tolerant(s) && |Point(ys, ws)| == |Rollout(w)|
  {
    Times(Taxi(Duals(w)), s.settings.absPriTol) + Times(Taxi(Sub(Point(ys, ws), Rollout(w))), DualStep(s))
  }

  lemma ChargeBounded(s: Setup, w: Work, m: Work, w': Work, ys: Columns, ws: Columns)
    requires s.Valid() && Tolerant(s) && s.BoundsOrdered() && w.Fits(s) && Passes(s, w, m) && Updates(s, m, w')
    requires w'.Converged(s) && Pair(s, ys, ws) && s.Feasible(ys, ws)
    ensures |Rollout(w')| == |Remembered(w)| == |Duals(w)| == |Point(ys, ws)|
    ensures Dot(Pulled(Rollout(w'), Remembered(w), Duals(w)), Sub(Point(ys, ws), Rollout(w'))) <= Slackness(s, w', ys, ws)
  {
    var Y, X, V := Point(ys, ws), Rollout(w'), Slacks(w');
    SameLengths(s, m, w');
    IterationLeaves(s, w, w');
    BoxIsFree(s, w', ys, ws);
    AcceptedBounds(s, w');
    DualsAfter(s, m, w');
    ChargeSplits(Remembered(w), Duals(w), X, V, Y);
    BoundedDot(Duals(w'), Sub(V, X), s.settings.absPriTol);
    BoundedDot(Sub(Y, X), Sub(V, Remembered(w)), DualStep(s));
  }

  // ----- Linear terms that are not current -----

  /** The dual for which -own - rho (slack - dual) is the given cost. */
  function Implied(own: Vec, rho: real, slack: Vec, cost: Vec): (r: Vec)
    requires |own| == |slack| == |cost| && rho > 0.0
    ensures |r| == |cost|
  {
    seq(|cost|, j requires 0 <= j < |cost| => slack[j] + (cost[j] + own[j]) / rho)
  }

  lemma Divides(rho: real, v: real, t: real, g: real)
    requires rho > 0.0
    ensures Times(rho, v - (v + t / rho)) == -t
    ensures t == -Times(rho, v - g) ==> v + t / rho == g
  {
    assert rho * (t / rho) == t;
    if t == -Times(rho, v - g) {
      assert rho * (v - g + t / rho) == 0.0;
      TimesOrder(rho, v - g + t / rho);
    }
  }

  lemma ImpliedFits(own: Vec, rho: real, slack: Vec, cost: Vec)
    requires |own| == |slack| == |cost| && rho > 0.0
    ensures Sub(Neg(own), Scale(rho, Sub(slack, Implied(own, rho, slack, cost)))) == cost
  {
    forall j | 0 <= j < |cost|
      ensures Sub(Neg(own), Scale(rho, Sub(slack, Implied(own, rho, slack, cost))))[j] == cost[j]
    {
      Divides(rho, slack[j], cost[j] + own[j], 0.0);
    }
  }

  lemma ImpliedIs(own: Vec, rho: real, slack: Vec, dual: Vec)
    requires |own| == |slack| == |dual| && rho > 0.0
    ensures Implied(own, rho, slack, Sub(Neg(own), Scale(rho, Sub(slack, dual)))) == dual
  {
    var cost := Sub(Neg(own), Scale(rho, Sub(slack, dual)));
    forall j | 0 <= j < |dual| ensures Implied(own, rho, slack, cost)[j] == dual[j] {
      Divides(rho, slack[j], cost[j] + own[j], dual[j]);
    }
  }

  /** The duals for which the linear terms that the passes read are current; the passes
      read the last column of p, and not that of q. */
  function ImpliedG(s: Setup, w: Work): (r: Columns)
    requires s.Valid() && w.Fits(s) && s.cache.rho > 0.0
    ensures s.States(r)
  {
    seq(s.N, i requires 0 <= i < s.N =>
      if i < s.N - 1 then Implied(Hadamard(s.Qd, s.Xref[i]), s.cache.rho, w.v[i], w.q[i])
      else Implied(Apply(Transpose(s.cache.Pinf), s.Xref[i]), s.cache.rho, w.v[i], w.p[i]))
  }

  function ImpliedY(s: Setup, w: Work): (r: Columns)
    requires s.Valid() && w.Fits(s) && s.cache.rho > 0.0
    ensures s.Inputs(r)
  {
    seq(s.N - 1, i requires 0 <= i < s.N - 1 =>
      Implied(Hadamard(s.Rd, s.Uref[i]), s.cache.rho, w.z[i], w.r[i]))
  }

  /** The workspace that the passes might as well have started from. */
  function Reread(s: Setup, w: Work): (r: Work)
    requires s.Valid() && w.Fits(s) && s.cache.rho > 0.0
    ensures r.Fits(s)
  {
    var n, g := s.N - 1, ImpliedG(s, w);
    w.(vnew := w.v, znew := w.z, g := g, y := ImpliedY(s, w),
       q := w.q[n := LinearCost(s.Qd, s.Xref[n], s.cache.rho, w.v[n], g[n])])
  }

  lemma RereadStates(s: Setup, w: Work, i: nat)
    requires s.Valid() && w.Fits(s) && s.cache.rho > 0.0 && i < s.N
    ensures Reread(s, w).q[i] == LinearCost(s.Qd, s.Xref[i], s.cache.rho, w.v[i], ImpliedG(s, w)[i])
  {
    if i < s.N - 1 { ImpliedFits(Hadamard(s.Qd, s.Xref[i]), s.cache.rho, w.v[i], w.q[i]); }
  }

  lemma RereadInputs(s: Setup, w: Work, i: nat)
    requires s.Valid() && w.Fits(s) && s.cache.rho > 0.0 && i < s.N - 1
    ensures w.r[i] == LinearCost(s.Rd, s.Uref[i], s.cache.rho, w.z[i], ImpliedY(s, w)[i])
  {
    ImpliedFits(Hadamard(s.Rd, s.Uref[i]), s.cache.rho, w.z[i], w.r[i]);
  }

  lemma RereadAllStates(s: Setup, w: Work)
    requires s.Valid() && w.Fits(s) && s.cache.rho > 0.0
    ensures Reread(s, w).q == ColumnsLinearCost(s.Qd, s.Xref, s.cache.rho, w.v, ImpliedG(s, w))
  {
    forall i | 0 <= i < s.N
      ensures Reread(s, w).q[i] == ColumnsLinearCost(s.Qd, s.Xref, s.cache.rho, w.v, ImpliedG(s, w))[i]
    {
      RereadStates(s, w, i);
    }
  }

  lemma RereadAllInputs(s: Setup, w: Work)
    requires s.Valid() && w.Fits(s) && s.cache.rho > 0.0
    ensures w.r == ColumnsLinearCost(s.Rd, s.Uref, s.cache.rho, w.z, ImpliedY(s, w))
  {
    forall i | 0 <= i < s.N - 1
      ensures w.r[i] == ColumnsLinearCost(s.Rd, s.Uref, s.cache.rho, w.z, ImpliedY(s, w))[i]
    {
      RereadInputs(s, w, i);
    }
  }

  lemma RereadIsCurrent(s: Setup, w: Work)
    requires s.Valid() && w.Fits(s) && s.cache.rho > 0.0
    ensures Reread(s, w).LinearTermsCurrent(s)
  {
    var n := s.N - 1;
    RereadAllStates(s, w);
    RereadAllInputs(s, w);
    ImpliedFits(Apply(Transpose(s.cache.Pinf), s.Xref[n]), s.cache.rho, w.v[n], w.p[n]);
  }

  function RereadAfter(s: Setup, w: Work, m: Work): Work
    requires s.Valid() && w.Fits(s) && s.cache.rho > 0.0
  {
    Reread(s, w).(p := m.p, d := m.d, x := m.x, u := m.u)
  }

  lemma RereadPasses(s: Setup, w: Work, m: Work)
    requires s.Valid() && w.Fits(s) && s.cache.rho > 0.0 && Passes(s, w, m)
    ensures Passes(s, Reread(s, w), RereadAfter(s, w, m))
  {
  }

  /** How far the linear terms that the passes read are from being current, as an error
      of the duals: rho times this is the difference of the two. */
  ghost function Stale(s: Setup, w: Work): (r: Vec)
    requires s.Valid() && w.Fits(s) && s.cache.rho > 0.0
    ensures |r| == |Duals(w)|
  {
    PointSub(ImpliedG(s, w), ImpliedY(s, w), w.g, w.y);
    Sub(Point(ImpliedG(s, w), ImpliedY(s, w)), Duals(w))
  }

  lemma CurrentImpliesColumn(s: Setup, w: Work, i: nat)
    requires s.Valid() && w.Fits(s) && s.cache.rho > 0.0 && w.LinearTermsCurrent(s) && w.v == w.vnew && i < s.N
    ensures ImpliedG(s, w)[i] == w.g[i]
  {
    if i < s.N - 1 {
      ImpliedIs(Hadamard(s.Qd, s.Xref[i]), s.cache.rho, w.v[i], w.g[i]);
    } else {
      ImpliedIs(Apply(Transpose(s.cache.Pinf), s.Xref[i]), s.cache.rho, w.v[i], w.g[i]);
    }
  }

  lemma CurrentImpliesG(s: Setup, w: Work)
    requires s.Valid() && w.Fits(s) && s.cache.rho > 0.0 && w.LinearTermsCurrent(s) && w.v == w.vnew
    ensures ImpliedG(s, w) == w.g
  {
    forall i | 0 <= i < s.N ensures ImpliedG(s, w)[i] == w.g[i] { CurrentImpliesColumn(s, w, i); }
  }

  lemma CurrentImpliesY(s: Setup, w: Work)
    requires s.Valid() && w.Fits(s) && s.cache.rho > 0.0 && w.LinearTermsCurrent(s) && w.z == w.znew
    ensures ImpliedY(s, w) == w.y
  {
    forall i | 0 <= i < s.N - 1 ensures ImpliedY(s, w)[i] == w.y[i] {
      ImpliedIs(Hadamard(s.Rd, s.Uref[i]), s.cache.rho, w.z[i], w.y[i]);
    }
  }

  /** Current linear terms are not stale. */
  lemma CurrentIsNotStale(s: Setup, w: Work, d: Vec)
    requires s.Valid() && w.Fits(s) && s.cache.rho > 0.0 && |d| == |Duals(w)|
    requires w.LinearTermsCurrent(s) && w.v == w.vnew && w.z == w.znew
    ensures Dot(Stale(s, w), d) == 0.0
  {
    CurrentImpliesG(s, w);
    CurrentImpliesY(s, w);
    assert Stale(s, w) == Zeros(|d|);
    DotZeros(|d|, d);
  }

  // ----- How good an accepted iterate is -----

  lemma ChargeWithStale(s: Setup, w: Work, X: Vec, d: Vec)
    requires s.Valid() && w.Fits(s) && s.cache.rho > 0.0
    requires |X| == |Remembered(w)| == |Duals(w)| == |d|
    ensures |Point(ImpliedG(s, w), ImpliedY(s, w))| == |X|
    ensures Dot(Pulled(X, Remembered(w), Point(ImpliedG(s, w), ImpliedY(s, w))), d) ==
            Dot(Pulled(X, Remembered(w), Duals(w)), d) + Dot(Stale(s, w), d)
  {
    PointSub(ImpliedG(s, w), ImpliedY(s, w), w.g, w.y);
    PulledMoves(X, Remembered(w), Duals(w), Point(ImpliedG(s, w), ImpliedY(s, w)), d);
  }

  lemma PulledMoves(x: Vec, v: Vec, g: Vec, h: Vec, d: Vec)
    requires |x| == |v| == |g| == |h| == |d|
    ensures Dot(Pulled(x, v, h), d) == Dot(Pulled(x, v, g), d) + Dot(Sub(h, g), d)
  {
    assert Pulled(x, v, h) == Add(Pulled(x, v, g), Sub(h, g));
    DotAdd(Pulled(x, v, g), Sub(h, g), d);
  }

  /** What the first-order condition of the passes says, whatever they started from. */
  lemma PassesCharge(s: Setup, w: Work, m: Work, ys: Columns, ws: Columns)
    requires s.Valid() && WellPosed(s) && s.cache.rho > 0.0 && w.Fits(s) && Passes(s, w, m) && Rival(s, m, ys, ws)
    ensures |Rollout(m)| == |Remembered(w)| == |Point(ImpliedG(s, w), ImpliedY(s, w))| == |Point(ys, ws)|
    ensures Track(s, m.x, m.u) <= Track(s, ys, ws) + Times(s.cache.rho,
      Dot(Pulled(Rollout(m), Remembered(w), Point(ImpliedG(s, w), ImpliedY(s, w))), Sub(Point(ys, ws), Rollout(m))))
  {
    var k := RereadAfter(s, w, m);
    RereadIsCurrent(s, w);
    RereadPasses(s, w, m);
    ShiftedSettled(s, Reread(s, w), k);
    DualsOfShifted(s, k);
    FirstOrderPoints(s, Shifted(k), k.(x := ys, u := ws));
  }

  /** The trajectory of w costs at most rho t more than the other one. */
  ghost predicate WithinOf(s: Setup, w: Work, ys: Columns, ws: Columns, t: real)
    requires s.Valid() && w.Fits(s) && Pair(s, ys, ws)
  {
    Track(s, w.x, w.u) <= Track(s, ys, ws) + Times(s.cache.rho, t)
  }

  /** What an iteration from w to w' leaves open, towards the trajectory (ys, ws). */
  ghost function Openness(s: Setup, w: Work, w': Work, ys: Columns, ws: Columns): real
    requires s.Valid() && Tolerant(s) && w.Fits(s) && |Point(ys, ws)| == |Rollout(w')| == |Duals(w)|
  {
    Slackness(s, w', ys, ws) + Dot(Stale(s, w), Sub(Point(ys, ws), Rollout(w')))
  }

  lemma OpennessBounds(s: Setup, w: Work, m: Work, w': Work, ys: Columns, ws: Columns)
    requires s.Valid() && Tolerant(s) && s.BoundsOrdered() && w.Fits(s) && Passes(s, w, m) && Updates(s, m, w')
    requires w'.Converged(s) && Pair(s, ys, ws) && s.Feasible(ys, ws)
    ensures |Point(ys, ws)| == |Rollout(w')| == |Duals(w)| == |Remembered(w)| == |Point(ImpliedG(s, w), ImpliedY(s, w))|
    ensures Dot(Pulled(Rollout(w'), Remembered(w), Point(ImpliedG(s, w), ImpliedY(s, w))), Sub(Point(ys, ws), Rollout(w')))
            <= Openness(s, w, w', ys, ws)
  {
    ChargeBounded(s, w, m, w', ys, ws);
    ChargeWithStale(s, w, Rollout(w'), Sub(Point(ys, ws), Rollout(w')));
  }

  /** Main result 1: whatever the workspace was, no trajectory in the boxes is better than
      that of an accepted iterate by more than rho |duals| abs_pri_tol + |distance|
      abs_dua_tol, with sums of absolute values for sizes, plus what the linear terms
      charge that were not current. */
  lemma AcceptedIsNearlyOptimal(s: Setup, w: Work, w': Work, ys: Columns, ws: Columns)
    requires s.Valid() && WellPosed(s) && Tolerant(s) && s.BoundsOrdered() && w.Fits(s)
    requires Linked(s, w, w') && w'.Converged(s) && Rival(s, w', ys, ws) && s.Feasible(ys, ws)
    ensures |Point(ys, ws)| == |Rollout(w')| == |Duals(w)|
    ensures WithinOf(s, w', ys, ws, Openness(s, w, w', ys, ws))
  {
    var m :| Passes(s, w, m) && Updates(s, m, w');
    OpennessBounds(s, w, m, w', ys, ws);
    PassesCharge(s, w, m, ys, ws);
    assert m.x == w'.x && m.u == w'.u;
    Scaled(s.cache.rho,
           Dot(Pulled(Rollout(w'), Remembered(w), Point(ImpliedG(s, w), ImpliedY(s, w))), Sub(Point(ys, ws), Rollout(w'))),
           Openness(s, w, w', ys, ws));
  }

  /** From a current workspace the tolerances alone bound it. */
  lemma CurrentIsNearlyOptimal(s: Setup, w: Work, w': Work, ys: Columns, ws: Columns)
    requires s.Valid() && WellPosed(s) && Tolerant(s) && s.BoundsOrdered() && w.Fits(s) && Current(s, w)
    requires Linked(s, w, w') && w'.Converged(s) && Rival(s, w', ys, ws) && s.Feasible(ys, ws)
    ensures |Point(ys, ws)| == |Rollout(w')| && WithinOf(s, w', ys, ws, Slackness(s, w', ys, ws))
  {
    AcceptedIsNearlyOptimal(s, w, w', ys, ws);
    CurrentOpenness(s, w, w', ys, ws);
  }

  lemma CurrentOpenness(s: Setup, w: Work, w': Work, ys: Columns, ws: Columns)
    requires s.Valid() && Tolerant(s) && w.Fits(s) && |Point(ys, ws)| == |Rollout(w')| == |Duals(w)| && Current(s, w)
    ensures Openness(s, w, w', ys, ws) == Slackness(s, w', ys, ws)
  {
    CurrentIsNotStale(s, w, Sub(Point(ys, ws), Rollout(w')));
  }

  lemma Scaled(rho: real, a: real, b: real)
    requires rho > 0.0 && a <= b
    ensures Times(rho, a) <= Times(rho, b)
  {
    TimesOrder(rho, b - a);
    assert rho * (b - a) == rho * b - rho * a;
  }

  ghost predicate Current(s: Setup, w: Work)
    requires s.Valid() && w.Fits(s)
  {
    w.LinearTermsCurrent(s) && w.v == w.vnew && w.z == w.znew
  }

  /** The state that the last iteration of a call of solve started from: after the first
      iteration it is always current. */
  lemma LastStep(s: Setup, start: Work, history: seq<Work>, w: Work) returns (before: Work)
    requires s.Valid() && AcceptedLast(s, start, history, w)
    ensures before.Fits(s) && Linked(s, before, w) && w.Converged(s)
    ensures if |history| == 1 then before == start else Current(s, before)
  {
    before := Kept(start, history[..|history| - 1]);
    assert Linked(s, before, history[|history| - 1]);
    if |history| > 1 { KeptIsCurrent(s, start, history, |history| - 1); }
  }

  lemma KeptIsCurrent(s: Setup, start: Work, history: seq<Work>, n: nat)
    requires s.Valid() && start.Fits(s) && History(s, start, history) && 1 <= n <= |history|
    ensures var k := Kept(start, history[..n]); k.Fits(s) && Current(s, k)
  {
    HistoryKeeps(s, start, history, n - 1);
    assert Kept(start, history[..n]) == history[n - 1].Saved();
  }

  /** Main result 2: a call of solve that reports "solved" is nearly optimal if it made
      two iterations, or if the workspace it was given was current. */
  lemma SolvedIsNearlyOptimal(s: Setup, start: Work, history: seq<Work>, w: Work, ys: Columns, ws: Columns)
    requires s.Valid() && WellPosed(s) && Tolerant(s) && s.BoundsOrdered()
    requires Answers(s, start, history, w, true) && (|history| >= 2 || Current(s, start))
    requires Rival(s, w, ys, ws) && s.Feasible(ys, ws)
    ensures |Point(ys, ws)| == |Rollout(w)| && WithinOf(s, w, ys, ws, Slackness(s, w, ys, ws))
  {
    var before := LastStep(s, start, history, w);
    CurrentIsNearlyOptimal(s, before, w, ys, ws);
  }

  /** And otherwise the linear terms of the given workspace are all that can go wrong. */
  lemma SolvedAtOnce(s: Setup, start: Work, history: seq<Work>, w: Work, ys: Columns, ws: Columns)
    requires s.Valid() && WellPosed(s) && Tolerant(s) && s.BoundsOrdered()
    requires Answers(s, start, history, w, true) && |history| == 1
    requires Rival(s, w, ys, ws) && s.Feasible(ys, ws)
    ensures |Point(ys, ws)| == |Rollout(w)| == |Duals(start)|
    ensures WithinOf(s, w, ys, ws, Openness(s, start, w, ys, ws))
  {
    var before := LastStep(s, start, history, w);
    AcceptedIsNearlyOptimal(s, before, w, ys, ws);
  }
}
