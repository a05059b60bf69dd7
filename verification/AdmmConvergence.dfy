/** Why the loop in 3rdparty/tinympc/admm.cpp converges: every iteration brings the
    slacks and duals closer to every fixed point, by at least the square of the
    residuals that termination_condition tests.  So solve cannot go on rejecting
    its iterates: it reports "solved" within a number of tests that the distance
    of the first iterate bounds. */
module AdmmConvergence {
  import opened Basics
  import opened Matrix
  import opened Lqr
  import opened Admm
  import opened AdmmOptimality

  // ----- A workspace matrix as one long vector -----

  function Flat(a: Columns): Vec {
    if a == [] then [] else a[0] + Flat(a[1..])
  }

  /** States and inputs together. */
  function Point(xs: Columns, us: Columns): Vec { Flat(xs) + Flat(us) }

  function Norm(a: Vec): real { Dot(a, a) }

  lemma {:induction false} FlatLength(a: Columns, b: Columns)
    requires SameShape(a, b)
    ensures |Flat(a)| == |Flat(b)|
    decreases |a|
  {
    if a != [] { FlatLength(a[1..], b[1..]); }
  }

  lemma {:induction false} FlatSub(a: Columns, b: Columns)
    requires SameShape(a, b)
    ensures |Flat(a)| == |Flat(b)| && Flat(ColumnsSub(a, b)) == Sub(Flat(a), Flat(b))
    decreases |a|
  {
    FlatLength(a, b);
    if a != [] {
      FlatSub(a[1..], b[1..]);
      assert ColumnsSub(a, b)[1..] == ColumnsSub(a[1..], b[1..]);
      assert Sub(a[0] + Flat(a[1..]), b[0] + Flat(b[1..])) == Sub(a[0], b[0]) + Sub(Flat(a[1..]), Flat(b[1..]));
    }
  }

  lemma {:induction false} FlatAdd(a: Columns, b: Columns)
    requires SameShape(a, b)
    ensures |Flat(a)| == |Flat(b)| && Flat(ColumnsAdd(a, b)) == Add(Flat(a), Flat(b))
    decreases |a|
  {
    FlatLength(a, b);
    if a != [] {
      FlatAdd(a[1..], b[1..]);
      assert ColumnsAdd(a, b)[1..] == ColumnsAdd(a[1..], b[1..]);
      assert Add(a[0] + Flat(a[1..]), b[0] + Flat(b[1..])) == Add(a[0], b[0]) + Add(Flat(a[1..]), Flat(b[1..]));
    }
  }

  lemma PointSub(xs: Columns, us: Columns, ys: Columns, ws: Columns)
    requires SameShape(xs, ys) && SameShape(us, ws)
    ensures |Point(xs, us)| == |Point(ys, ws)|
    ensures Point(ColumnsSub(xs, ys), ColumnsSub(us, ws)) == Sub(Point(xs, us), Point(ys, ws))
  {
    FlatSub(xs, ys);
    FlatSub(us, ws);
  }

  lemma PointAdd(xs: Columns, us: Columns, ys: Columns, ws: Columns)
    requires SameShape(xs, ys) && SameShape(us, ws)
    ensures |Point(xs, us)| == |Point(ys, ws)|
    ensures Point(ColumnsAdd(xs, ys), ColumnsAdd(us, ws)) == Add(Point(xs, us), Point(ys, ws))
  {
    FlatAdd(xs, ys);
    FlatAdd(us, ws);
  }

  lemma {:induction false} DotConcat(a: Vec, b: Vec, c: Vec, d: Vec)
    requires |a| == |c| && |b| == |d|
    ensures Dot(a + b, c + d) == Dot(a, c) + Dot(b, d)
  {
    if |a| == 0 {
      assert a + b == b && c + d == d;
    } else {
      assert (a + b)[1..] == a[1..] + b && (c + d)[1..] == c[1..] + d;
      DotConcat(a[1..], b, c[1..], d);
    }
  }

  lemma SlopeIsDot(rho: real, g: Vec, v: Vec)
    requires |g| == |v|
    ensures Slope(rho, g, v) == Times(rho, Dot(g, v))
  {
    ApplyRhoI(rho, v);
    DotScale(rho, g, v);
  }

  /** The two inner products that a slope sums up. */
  ghost function DotFrom(s: Setup, g: Columns, y: Columns, dx: Columns, du: Columns, i: nat): real
    requires s.Valid() && Pair(s, g, y) && Pair(s, dx, du) && i < s.N
    decreases s.N - i
  {
    if i == s.N - 1 then Dot(g[i], dx[i]) else Dot(g[i], dx[i]) + Dot(y[i], du[i]) + DotFrom(s, g, y, dx, du, i + 1)
  }

  lemma {:induction false} SlopeIsScaled(s: Setup, g: Columns, y: Columns, dx: Columns, du: Columns, i: nat)
    requires s.Valid() && Pair(s, g, y) && Pair(s, dx, du) && i < s.N
    ensures SlopeFrom(s, g, y, dx, du, i) == Times(s.cache.rho, DotFrom(s, g, y, dx, du, i))
    decreases s.N - i
  {
    var rho := s.cache.rho;
    SlopeIsDot(rho, g[i], dx[i]);
    if i < s.N - 1 {
      SlopeIsDot(rho, y[i], du[i]);
      SlopeIsScaled(s, g, y, dx, du, i + 1);
      TimesSum(rho, Dot(g[i], dx[i]), Dot(y[i], du[i]), DotFrom(s, g, y, dx, du, i + 1));
    }
  }

  lemma TimesSum(s: real, a: real, b: real, c: real)
    ensures Times(s, a + b + c) == Times(s, a) + Times(s, b) + Times(s, c)
  {
    assert s * (a + b + c) == s * a + s * b + s * c;
  }

  lemma {:induction false} DotIsFlat(s: Setup, g: Columns, y: Columns, dx: Columns, du: Columns, i: nat)
    requires s.Valid() && Pair(s, g, y) && Pair(s, dx, du) && i < s.N
    ensures |Flat(g[i..])| == |Flat(dx[i..])| && |Flat(y[i..])| == |Flat(du[i..])|
    ensures DotFrom(s, g, y, dx, du, i) == Dot(Flat(g[i..]), Flat(dx[i..])) + Dot(Flat(y[i..]), Flat(du[i..]))
    decreases s.N - i
  {
    FlatLength(g[i..], dx[i..]);
    FlatLength(y[i..], du[i..]);
    FlatStep(g, dx, i);
    if i < s.N - 1 {
      FlatStep(y, du, i);
      DotIsFlat(s, g, y, dx, du, i + 1);
    } else {
      assert g[i + 1..] == [] && dx[i + 1..] == [] && y[i..] == [] && du[i..] == [];
    }
  }

  lemma FlatStep(a: Columns, b: Columns, i: nat)
    requires SameShape(a, b) && i < |a|
    ensures |Flat(a[i..])| == |Flat(b[i..])| && |Flat(a[i + 1..])| == |Flat(b[i + 1..])|
    ensures Dot(Flat(a[i..]), Flat(b[i..])) == Dot(a[i], b[i]) + Dot(Flat(a[i + 1..]), Flat(b[i + 1..]))
  {
    assert a[i..][1..] == a[i + 1..] && b[i..][1..] == b[i + 1..];
    FlatLength(a[i + 1..], b[i + 1..]);
    DotConcat(a[i], Flat(a[i + 1..]), b[i], Flat(b[i + 1..]));
  }

  /** A slope is rho times an inner product of long vectors. */
  lemma SlopeOfPoints(s: Setup, g: Columns, y: Columns, xs: Columns, us: Columns, vs: Columns, ws: Columns)
    requires s.Valid() && Pair(s, g, y) && Pair(s, xs, us) && Pair(s, vs, ws)
    ensures |Point(g, y)| == |Point(xs, us)| == |Point(vs, ws)|
    ensures SlopeFrom(s, g, y, ColumnsSub(xs, vs), ColumnsSub(us, ws), 0) ==
            Times(s.cache.rho, Dot(Point(g, y), Sub(Point(xs, us), Point(vs, ws))))
  {
    var dx, du := ColumnsSub(xs, vs), ColumnsSub(us, ws);
    PointSub(xs, us, vs, ws);
    PointSub(g, y, xs, us);
    SlopeIsScaled(s, g, y, dx, du, 0);
    DotIsFlat(s, g, y, dx, du, 0);
    assert g[0..] == g && y[0..] == y && dx[0..] == dx && du[0..] == du;
    DotConcat(Flat(g), Flat(y), Flat(dx), Flat(du));
  }

  // ----- The algebra of one iteration, on plain vectors -----

  /** One coordinate: from slack v and dual g, over the rollout x, to v' and g',
      seen from the fixed point (p, h). */
  lemma Coordinate(v: real, g: real, x: real, v': real, g': real, p: real, h: real)
    requires g' == g + x - v'
    ensures CoordinateExcess(v, g, x - v + g, x, v', g', p, h) == 0.0
  {
    var a, b, dv, dg := v' - p, g' - h, v' - v, g' - g;
    assert v - p == a - dv && g - h == b - dg && p - x == -a - dg && x - v + g - h == b + dv;
    CoordinateScaled(a, b, dv, dg);
  }

  lemma CoordinateScaled(a: real, b: real, dv: real, dg: real)
    ensures Times(a - dv, a - dv) + Times(b - dg, b - dg) ==
      Times(a, a) + Times(b, b) + Times(dv, dv) + Times(dg, dg)
      + 2.0 * (Times(b + dv, -a - dg) + Times(b, a) + Times(dg, dv))
  {
  }

  ghost predicate AlikeLengths(v: Vec, g: Vec, x: Vec, v': Vec, g': Vec, p: Vec, h: Vec) {
    |v| == |g| == |x| == |v'| == |g'| == |p| == |h|
  }

  lemma SubTail(a: Vec, b: Vec)
    requires |a| == |b| > 0
    ensures Sub(a, b)[1..] == Sub(a[1..], b[1..]) && Add(a, b)[1..] == Add(a[1..], b[1..])
  {
  }

  lemma DotHead(a: Vec, b: Vec, c: Vec, d: Vec)
    requires |a| == |b| == |c| == |d| > 0
    ensures Dot(Sub(a, b), Sub(c, d)) ==
            Times(a[0] - b[0], c[0] - d[0]) + Dot(Sub(a[1..], b[1..]), Sub(c[1..], d[1..]))
  {
    SubTail(a, b);
    SubTail(c, d);
  }

  /** x - v + g: what the duals would become if the slacks stayed at the rollout. */
  function Pulled(x: Vec, v: Vec, g: Vec): (r: Vec)
    requires |x| == |v| == |g|
    ensures |r| == |x|
  {
    Add(Sub(x, v), g)
  }

  /** Both sides of the identity below, for one coordinate and for vectors. */
  function CoordinateExcess(v: real, g: real, k: real, x: real, v': real, g': real, p: real, h: real): real {
    Times(v - p, v - p) + Times(g - h, g - h)
    - (Times(v' - p, v' - p) + Times(g' - h, g' - h) + Times(v' - v, v' - v) + Times(g' - g, g' - g)
       + 2.0 * (Times(k - h, p - x) + Times(g' - h, v' - p) + Times(g' - g, v' - v)))
  }

  function Excess(v: Vec, g: Vec, k: Vec, x: Vec, v': Vec, g': Vec, p: Vec, h: Vec): real
    requires AlikeLengths(v, g, x, v', g', p, h) && |k| == |v|
  {
    Norm(Sub(v, p)) + Norm(Sub(g, h))
    - (Norm(Sub(v', p)) + Norm(Sub(g', h)) + Norm(Sub(v', v)) + Norm(Sub(g', g))
       + 2.0 * (Dot(Sub(k, h), Sub(p, x)) + Dot(Sub(g', h), Sub(v', p)) + Dot(Sub(g', g), Sub(v', v))))
  }

  /** The same over all coordinates. */
  lemma {:induction false} DistanceIdentity(v: Vec, g: Vec, x: Vec, v': Vec, g': Vec, p: Vec, h: Vec)
    requires AlikeLengths(v, g, x, v', g', p, h) && g' == Sub(Add(g, x), v')
    ensures Excess(v, g, Pulled(x, v, g), x, v', g', p, h) == 0.0
    decreases |v|
  {
    if |v| > 0 {
      TailOfDual(g, x, v');
      TailOfPulled(x, v, g);
      DistanceIdentity(v[1..], g[1..], x[1..], v'[1..], g'[1..], p[1..], h[1..]);
      Coordinate(v[0], g[0], x[0], v'[0], g'[0], p[0], h[0]);
      ExcessHead(v, g, Pulled(x, v, g), x, v', g', p, h);
    }
  }

  lemma ExcessHead(v: Vec, g: Vec, k: Vec, x: Vec, v': Vec, g': Vec, p: Vec, h: Vec)
    requires AlikeLengths(v, g, x, v', g', p, h) && |k| == |v| > 0
    ensures Excess(v, g, k, x, v', g', p, h) ==
            CoordinateExcess(v[0], g[0], k[0], x[0], v'[0], g'[0], p[0], h[0])
            + Excess(v[1..], g[1..], k[1..], x[1..], v'[1..], g'[1..], p[1..], h[1..])
  {
    IdentityHeads(v, g, x, v', g', p, h, k);
  }

  lemma TailOfDual(g: Vec, x: Vec, v: Vec)
    requires |g| == |x| == |v| > 0
    ensures Sub(Add(g, x), v)[1..] == Sub(Add(g[1..], x[1..]), v[1..])
  {
    SubTail(g, x);
    SubTail(Add(g, x), v);
  }

  lemma TailOfPulled(x: Vec, v: Vec, g: Vec)
    requires |x| == |v| == |g| > 0
    ensures Pulled(x, v, g)[1..] == Pulled(x[1..], v[1..], g[1..]) && Pulled(x, v, g)[0] == x[0] - v[0] + g[0]
  {
    SubTail(x, v);
    SubTail(Sub(x, v), g);
  }

  lemma IdentityHeads(v: Vec, g: Vec, x: Vec, v': Vec, g': Vec, p: Vec, h: Vec, k: Vec)
    requires AlikeLengths(v, g, x, v', g', p, h) && |k| == |v| > 0
    ensures Norm(Sub(v, p)) == Times(v[0] - p[0], v[0] - p[0]) + Norm(Sub(v[1..], p[1..]))
    ensures Norm(Sub(g, h)) == Times(g[0] - h[0], g[0] - h[0]) + Norm(Sub(g[1..], h[1..]))
    ensures Norm(Sub(v', p)) == Times(v'[0] - p[0], v'[0] - p[0]) + Norm(Sub(v'[1..], p[1..]))
    ensures Norm(Sub(g', h)) == Times(g'[0] - h[0], g'[0] - h[0]) + Norm(Sub(g'[1..], h[1..]))
    ensures Norm(Sub(v', v)) == Times(v'[0] - v[0], v'[0] - v[0]) + Norm(Sub(v'[1..], v[1..]))
    ensures Norm(Sub(g', g)) == Times(g'[0] - g[0], g'[0] - g[0]) + Norm(Sub(g'[1..], g[1..]))
    ensures Dot(Sub(k, h), Sub(p, x)) == Times(k[0] - h[0], p[0] - x[0]) + Dot(Sub(k[1..], h[1..]), Sub(p[1..], x[1..]))
    ensures Dot(Sub(g', h), Sub(v', p)) == Times(g'[0] - h[0], v'[0] - p[0]) + Dot(Sub(g'[1..], h[1..]), Sub(v'[1..], p[1..]))
    ensures Dot(Sub(g', g), Sub(v', v)) == Times(g'[0] - g[0], v'[0] - v[0]) + Dot(Sub(g'[1..], g[1..]), Sub(v'[1..], v[1..]))
  {
    DotHead(v, p, v, p);
    DotHead(g, h, g, h);
    DotHead(v', p, v', p);
    DotHead(g', h, g', h);
    DotHead(v', v, v', v);
    DotHead(g', g, g', g);
    DotHead(k, h, p, x);
    DotHead(g', h, v', p);
    DotHead(g', g, v', v);
  }

  lemma Backwards(a: Vec, c: Vec, d: Vec)
    requires |a| == |c| == |d|
    ensures Dot(a, Sub(d, c)) == -Dot(a, Sub(c, d))
  {
    assert Sub(d, c) == Neg(Sub(c, d));
    DotComm(a, Neg(Sub(c, d)));
    DotNeg(Sub(c, d), a);
    DotComm(Sub(c, d), a);
  }

  /** (a - b) . (c - d), with each of a and b against its own direction. */
  lemma Opposed(a: Vec, b: Vec, c: Vec, d: Vec)
    requires |a| == |b| == |c| == |d|
    ensures Dot(Sub(a, b), Sub(c, d)) == Dot(a, Sub(c, d)) + Dot(b, Sub(d, c))
  {
    DotSub(a, b, Sub(c, d));
    Backwards(b, c, d);
  }

  // ----- One iteration of the solver -----

  function Slacks(w: Work): Vec { Point(w.vnew, w.znew) }
  function Duals(w: Work): Vec { Point(w.g, w.y) }
  function Rollout(w: Work): Vec { Point(w.x, w.u) }

  lemma SameLengths(s: Setup, a: Work, b: Work)
    requires s.Valid() && a.Fits(s) && b.Fits(s)
    ensures |Slacks(a)| == |Duals(a)| == |Rollout(a)| == |Slacks(b)| == |Duals(b)| == |Rollout(b)|
  {
    PointSub(a.vnew, a.znew, a.g, a.y);
    PointSub(a.vnew, a.znew, a.x, a.u);
    PointSub(a.vnew, a.znew, b.vnew, b.znew);
    PointSub(b.vnew, b.znew, b.g, b.y);
    PointSub(b.vnew, b.znew, b.x, b.u);
  }

  ghost predicate Normal(s: Setup, w: Work)
    requires s.Valid()
  {
    w.Fits(s) && s.Feasible(w.vnew, w.znew) && s.DualsNormal(w.vnew, w.znew, w.g, w.y)
  }

  /** The duals of one state charge the slacks of another nothing. */
  lemma NormalSlope(s: Setup, a: Work, b: Work)
    requires s.Valid() && s.cache.rho > 0.0 && Normal(s, a) && Normal(s, b)
    ensures |Duals(a)| == |Slacks(b)| == |Slacks(a)| && Dot(Duals(a), Sub(Slacks(b), Slacks(a))) <= 0.0
  {
    var k := a.(x := a.vnew, u := a.znew);
    SlopeNonPositive(s, k, b.vnew, b.znew, 0);
    SlopeOfPoints(s, a.g, a.y, b.vnew, b.znew, a.vnew, a.znew);
    TimesOrder(s.cache.rho, Dot(Duals(a), Sub(Slacks(b), Slacks(a))));
  }

  /** Normal duals are monotone in the slacks. */
  lemma Monotone(s: Setup, a: Work, b: Work)
    requires s.Valid() && s.cache.rho > 0.0 && Normal(s, a) && Normal(s, b)
    ensures |Duals(a)| == |Duals(b)| == |Slacks(a)| == |Slacks(b)|
    ensures Dot(Sub(Duals(a), Duals(b)), Sub(Slacks(a), Slacks(b))) >= 0.0
  {
    NormalSlope(s, a, b);
    NormalSlope(s, b, a);
    Opposed(Duals(a), Duals(b), Slacks(a), Slacks(b));
    Backwards(Duals(a), Slacks(a), Slacks(b));
    Backwards(Duals(b), Slacks(b), Slacks(a));
  }

  /** The state after the passes, with the slacks put at the rollout and the duals
      moved by as much, so that the linear terms stay what they are. */
  function Shifted(m: Work): Work
    requires SameShape(m.x, m.vnew) && SameShape(m.x, m.g) && SameShape(m.u, m.znew) && SameShape(m.u, m.y)
  {
    m.(vnew := m.x, znew := m.u,
       g := ColumnsAdd(ColumnsSub(m.x, m.vnew), m.g), y := ColumnsAdd(ColumnsSub(m.u, m.znew), m.y))
  }

  lemma ShiftColumn(x: Vec, v: Vec, g: Vec)
    requires |x| == |v| == |g|
    ensures Sub(x, Pulled(x, v, g)) == Sub(v, g)
  {
  }

  lemma ShiftedColumns(weight: Vec, reference: Columns, rho: real, x: Columns, v: Columns, g: Columns)
    requires SameShape(reference, x) && SameShape(reference, v) && SameShape(reference, g)
    requires forall i :: 0 <= i < |reference| ==> |reference[i]| == |weight|
    ensures ColumnsLinearCost(weight, reference, rho, x, ColumnsAdd(ColumnsSub(x, v), g)) ==
            ColumnsLinearCost(weight, reference, rho, v, g)
  {
    var k := ColumnsAdd(ColumnsSub(x, v), g);
    var l, r := ColumnsLinearCost(weight, reference, rho, x, k), ColumnsLinearCost(weight, reference, rho, v, g);
    forall i | 0 <= i < |reference| ensures l[i] == r[i] {
      assert k[i] == Pulled(x[i], v[i], g[i]);
      ShiftColumn(x[i], v[i], g[i]);
    }
  }

  lemma ShiftedSettled(s: Setup, w: Work, m: Work)
    requires s.Valid() && w.Fits(s) && w.LinearTermsCurrent(s) && Passes(s, w, m)
    ensures Shifted(m).Fits(s) && Settled(s, Shifted(m))
  {
    var k, n := Shifted(m), s.N - 1;
    ShiftedColumns(s.Qd, s.Xref, s.cache.rho, m.x, m.vnew, m.g);
    ShiftedColumns(s.Rd, s.Uref, s.cache.rho, m.u, m.znew, m.y);
    assert k.g[n] == Pulled(m.x[n], m.vnew[n], m.g[n]);
    ShiftColumn(m.x[n], m.vnew[n], m.g[n]);
  }

  lemma DualsOfShifted(s: Setup, m: Work)
    requires s.Valid() && m.Fits(s)
    ensures |Rollout(m)| == |Slacks(m)| == |Duals(m)| && Duals(Shifted(m)) == Pulled(Rollout(m), Slacks(m), Duals(m))
  {
    PointSub(m.x, m.u, m.vnew, m.znew);
    PointAdd(ColumnsSub(m.x, m.vnew), ColumnsSub(m.u, m.znew), m.g, m.y);
  }

  /** The first-order condition of one state, tested with the rollout of another. */
  lemma FirstOrderPoints(s: Setup, w: Work, o: Work)
    requires s.Valid() && WellPosed(s) && w.Fits(s) && Settled(s, w)
    requires o.Fits(s) && Dynamics(s.pr, o.x, o.u) && o.x[0] == w.x[0]
    ensures |Duals(w)| == |Rollout(o)| == |Rollout(w)|
    ensures Track(s, o.x, o.u) - Track(s, w.x, w.u)
            + Times(s.cache.rho, Dot(Duals(w), Sub(Rollout(o), Rollout(w)))) >= 0.0
  {
    FirstOrder(s, w, o.x, o.u);
    SlopeOfPoints(s, w.g, w.y, o.x, o.u, w.x, w.u);
  }

  /** Two first-order conditions, each tested with the trajectory of the other. */
  lemma Crossed(s: Setup, k: Work, star: Work)
    requires s.Valid() && WellPosed(s) && s.cache.rho > 0.0
    requires k.Fits(s) && Settled(s, k) && star.Fits(s) && Settled(s, star) && k.x[0] == star.x[0]
    ensures |Duals(k)| == |Duals(star)| == |Rollout(k)| == |Rollout(star)|
    ensures Dot(Sub(Duals(k), Duals(star)), Sub(Rollout(star), Rollout(k))) >= 0.0
  {
    FirstOrderPoints(s, k, star);
    FirstOrderPoints(s, star, k);
    SameLengths(s, k, star);
    Opposed(Duals(k), Duals(star), Rollout(star), Rollout(k));
    SumOfProducts(s.cache.rho, Dot(Duals(k), Sub(Rollout(star), Rollout(k))),
                  Dot(Duals(star), Sub(Rollout(k), Rollout(star))));
  }

  lemma SumOfProducts(rho: real, a: real, b: real)
    requires rho > 0.0 && Times(rho, a) + Times(rho, b) >= 0.0
    ensures a + b >= 0.0
  {
    TimesOrder(rho, a + b);
  }

  // ----- The distance to a fixed point -----

  ghost function Distance(s: Setup, w: Work, star: Work): real
    requires s.Valid() && w.Fits(s) && star.Fits(s)
  {
    SameLengths(s, w, star);
    Norm(Sub(Slacks(w), Slacks(star))) + Norm(Sub(Duals(w), Duals(star)))
  }

  lemma DualsAfter(s: Setup, m: Work, w: Work)
    requires s.Valid() && m.Fits(s) && Updates(s, m, w)
    ensures |Duals(m)| == |Rollout(m)| == |Slacks(w)|
    ensures Duals(w) == Sub(Add(Duals(m), Rollout(m)), Slacks(w))
  {
    PointAdd(m.g, m.y, m.x, m.u);
    PointSub(ColumnsAdd(m.g, m.x), ColumnsAdd(m.y, m.u), w.vnew, w.znew);
  }

  /** The three inequalities that an iteration has going for it. */
  lemma Inequalities(s: Setup, w: Work, m: Work, w': Work, star: Work)
    requires s.Valid() && WellPosed(s) && s.cache.rho > 0.0 && s.BoundsOrdered()
    requires w.Fits(s) && w.LinearTermsCurrent(s) && Normal(s, w)
    requires Passes(s, w, m) && Updates(s, m, w') && FixedPoint(s, star) && star.x[0] == w.x[0]
    ensures AlikeLengths(Slacks(w), Duals(w), Rollout(m), Slacks(w'), Duals(w'), Slacks(star), Duals(star))
    ensures Dot(Sub(Pulled(Rollout(m), Slacks(w), Duals(w)), Duals(star)), Sub(Slacks(star), Rollout(m))) >= 0.0
    ensures Dot(Sub(Duals(w'), Duals(star)), Sub(Slacks(w'), Slacks(star))) >= 0.0
    ensures Dot(Sub(Duals(w'), Duals(w)), Sub(Slacks(w'), Slacks(w))) >= 0.0
  {
    IterationLeaves(s, w, w');
    Monotone(s, w', star);
    Monotone(s, w', w);
    ShiftedSettled(s, w, m);
    Crossed(s, Shifted(m), star);
    DualsOfShifted(s, m);
    SameLengths(s, m, star);
  }

  /** Main result 1: every iteration brings slacks and duals closer to every fixed
      point, by at least the squares of what it changes. */
  lemma DistanceFalls(s: Setup, w: Work, w': Work, star: Work)
    requires s.Valid() && WellPosed(s) && s.cache.rho > 0.0 && s.BoundsOrdered()
    requires w.Fits(s) && w.LinearTermsCurrent(s) && Normal(s, w)
    requires Linked(s, w, w') && FixedPoint(s, star) && star.x[0] == w.x[0]
    ensures Distance(s, w', star) + Distance(s, w', w) <= Distance(s, w, star)
  {
    var m :| Passes(s, w, m) && Updates(s, m, w');
    Inequalities(s, w, m, w', star);
    DualsAfter(s, m, w');
    DistanceIdentity(Slacks(w), Duals(w), Rollout(m), Slacks(w'), Duals(w'), Slacks(star), Duals(star));
  }

  // ----- What a rejected iterate has moved -----

  lemma {:induction false} EntryInNorm(a: Vec, j: int)
    ensures Norm(a) >= 0.0
    ensures 0 <= j < |a| ==> Norm(a) >= Times(a[j], a[j])
    decreases |a|
  {
    if |a| > 0 {
      EntryInNorm(a[1..], j - 1);
      TimesSign(a[0], a[0]);
    }
  }

  lemma {:induction false} ColumnInNorm(c: Columns, i: nat)
    requires i < |c|
    ensures Norm(Flat(c)) >= Norm(c[i])
  {
    DotConcat(c[0], Flat(c[1..]), c[0], Flat(c[1..]));
    EntryInNorm(c[0], 0);
    EntryInNorm(Flat(c[1..]), 0);
    if i > 0 { ColumnInNorm(c[1..], i - 1); }
  }

  lemma SquareAtLeast(d: real, t: real)
    requires t > 0.0 && Abs(d) >= t
    ensures Times(d, d) >= Times(t, t)
  {
    if d >= 0.0 { assert d * d >= t * t; } else { assert (-d) * (-d) >= t * t; }
  }

  /** A residual of at least t is a squared distance of at least t squared. */
  lemma BigResidual(t: real, a: Columns, b: Columns)
    requires SameShape(a, b) && t > 0.0 && MaxDiffAll(a, b) >= t
    ensures |Flat(a)| == |Flat(b)| && Norm(Sub(Flat(a), Flat(b))) >= Times(t, t)
  {
    ResidualIff(t, a, b);
    var i, j :| 0 <= i < |a| && 0 <= j < |a[i]| && Abs(a[i][j] - b[i][j]) >= t;
    var d := ColumnsSub(a, b);
    FlatSub(a, b);
    ColumnInNorm(d, i);
    EntryInNorm(d[i], j);
    SquareAtLeast(d[i][j], t);
  }

  lemma SubConcat(a: Vec, b: Vec, c: Vec, d: Vec)
    requires |a| == |c| && |b| == |d|
    ensures Sub(a + b, c + d) == Sub(a, c) + Sub(b, d)
  {
  }

  lemma NormConcat(a: Vec, b: Vec, c: Vec, d: Vec)
    requires |a| == |c| && |b| == |d|
    ensures Norm(Sub(a + b, c + d)) == Norm(Sub(a, c)) + Norm(Sub(b, d))
  {
    SubConcat(a, b, c, d);
    DotConcat(Sub(a, c), Sub(b, d), Sub(a, c), Sub(b, d));
  }

  /** Either residual of a pair being at least t. */
  lemma BigPair(t: real, xs: Columns, us: Columns, ys: Columns, ws: Columns)
    requires SameShape(xs, ys) && SameShape(us, ws) && t > 0.0
    requires MaxDiffAll(xs, ys) >= t || MaxDiffAll(us, ws) >= t
    ensures |Point(xs, us)| == |Point(ys, ws)| && Norm(Sub(Point(xs, us), Point(ys, ws))) >= Times(t, t)
  {
    PointSub(xs, us, ys, ws);
    FlatLength(xs, ys);
    FlatLength(us, ws);
    NormConcat(Flat(xs), Flat(us), Flat(ys), Flat(ws));
    EntryInNorm(Sub(Flat(xs), Flat(ys)), 0);
    EntryInNorm(Sub(Flat(us), Flat(ws)), 0);
    if MaxDiffAll(xs, ys) >= t { BigResidual(t, xs, ys); } else { BigResidual(t, us, ws); }
  }

  /** The primal step is the change of the duals, the dual step that of the slacks. */
  lemma StepsAreChanges(s: Setup, w: Work, w': Work)
    requires s.Valid() && Linked(s, w, w') && w.v == w.vnew && w.z == w.znew
    ensures |Duals(w')| == |Duals(w)| == |Rollout(w')| == |Slacks(w')| == |Slacks(w)|
    ensures Sub(Duals(w'), Duals(w)) == Sub(Rollout(w'), Slacks(w'))
    ensures Slacks(w) == Point(w'.v, w'.z)
  {
    var m :| Passes(s, w, m) && Updates(s, m, w');
    DualsAfter(s, m, w');
    SameLengths(s, w, w');
  }

  lemma NormBackwards(a: Vec, b: Vec)
    requires |a| == |b|
    ensures Norm(Sub(a, b)) == Norm(Sub(b, a))
  {
    Backwards(Sub(a, b), b, a);
    Backwards(Sub(b, a), a, b);
    DotComm(Sub(a, b), Sub(b, a));
  }

  function Squared(t: real): (r: real)
    requires t > 0.0
    ensures r > 0.0
  {
    SquarePositive(t);
    Times(t, t)
  }

  /** The dual tolerance, as a step of the slacks. */
  function DualStep(s: Setup): (t: real)
    requires s.cache.rho > 0.0 && s.settings.absDuaTol > 0.0
    ensures t > 0.0
  {
    s.settings.absDuaTol / s.cache.rho
  }

  ghost predicate Tolerant(s: Setup) {
    s.cache.rho > 0.0 && s.settings.absPriTol > 0.0 && s.settings.absDuaTol > 0.0
  }

  /** The least squared move of a rejected iterate. */
  ghost function Quantum(s: Setup): (q: real)
    requires Tolerant(s)
    ensures q > 0.0
  {
    Min(Squared(s.settings.absPriTol), Squared(DualStep(s)))
  }

  lemma Unweighted(s: Setup, t: real)
    requires s.cache.rho > 0.0 && s.settings.absDuaTol > 0.0 && Weighted(t, s.cache.rho) >= s.settings.absDuaTol
    ensures t >= DualStep(s)
  {
    var rho, q := s.cache.rho, DualStep(s);
    assert q * rho == s.settings.absDuaTol;
    assert Times(rho, t - q) == t * rho - q * rho;
    TimesOrder(rho, t - q);
  }

  lemma DistanceParts(s: Setup, a: Work, b: Work)
    requires s.Valid() && a.Fits(s) && b.Fits(s)
    ensures |Slacks(a)| == |Slacks(b)| && |Duals(a)| == |Duals(b)| && Distance(s, a, b) >= 0.0
    ensures Distance(s, a, b) >= Norm(Sub(Slacks(a), Slacks(b))) && Distance(s, a, b) >= Norm(Sub(Duals(a), Duals(b)))
  {
    SameLengths(s, a, b);
    EntryInNorm(Sub(Slacks(a), Slacks(b)), 0);
    EntryInNorm(Sub(Duals(a), Duals(b)), 0);
  }

  lemma SameColumns(a: Columns, b: Columns)
    requires SameShape(a, b) && |Flat(a)| == |Flat(b)| && Norm(Sub(Flat(a), Flat(b))) <= 0.0
    ensures a == b
  {
    var d := ColumnsSub(a, b);
    FlatSub(a, b);
    forall i | 0 <= i < |a| ensures a[i] == b[i] {
      ColumnInNorm(d, i);
      forall j | 0 <= j < |a[i]| ensures a[i][j] == b[i][j] {
        EntryInNorm(d[i], j);
        ZeroSquare(d[i][j]);
      }
    }
  }

  lemma ZeroSquare(t: real)
    requires Times(t, t) <= 0.0
    ensures t == 0.0
  {
    if t != 0.0 { SquarePositive(t); }
  }

  lemma SamePoints(xs: Columns, us: Columns, ys: Columns, ws: Columns)
    requires SameShape(xs, ys) && SameShape(us, ws) && |Point(xs, us)| == |Point(ys, ws)|
    requires Norm(Sub(Point(xs, us), Point(ys, ws))) <= 0.0
    ensures xs == ys && us == ws
  {
    FlatLength(xs, ys);
    FlatLength(us, ws);
    NormConcat(Flat(xs), Flat(us), Flat(ys), Flat(ws));
    EntryInNorm(Sub(Flat(xs), Flat(ys)), 0);
    EntryInNorm(Sub(Flat(us), Flat(ws)), 0);
    SameColumns(xs, ys);
    SameColumns(us, ws);
  }

  lemma NormOfNothing(a: Vec)
    ensures Norm(Sub(a, a)) == 0.0
  {
    assert Sub(a, a) == Zeros(|a|);
    DotZeros(|a|, Zeros(|a|));
  }

  /** A fixed point is one: an iteration from it changes neither slacks nor duals. */
  lemma FixedPointStays(s: Setup, star: Work, w: Work)
    requires s.Valid() && WellPosed(s) && s.cache.rho > 0.0 && s.BoundsOrdered()
    requires FixedPoint(s, star) && Linked(s, star, w)
    ensures w.vnew == star.vnew && w.znew == star.znew && w.g == star.g && w.y == star.y
  {
    DistanceFalls(s, star, w, star);
    NormOfNothing(Slacks(star));
    NormOfNothing(Duals(star));
    DistanceParts(s, w, star);
    SamePoints(w.vnew, w.znew, star.vnew, star.znew);
    SamePoints(w.g, w.y, star.g, star.y);
  }

  lemma PrimalMoves(s: Setup, w: Work, w': Work)
    requires s.Valid() && Tolerant(s) && Linked(s, w, w') && w.v == w.vnew && w.z == w.znew
    requires MaxDiffAll(w'.x, w'.vnew) >= s.settings.absPriTol || MaxDiffAll(w'.u, w'.znew) >= s.settings.absPriTol
    ensures Distance(s, w', w) >= Quantum(s)
  {
    DistanceParts(s, w', w);
    StepsAreChanges(s, w, w');
    BigPair(s.settings.absPriTol, w'.x, w'.u, w'.vnew, w'.znew);
  }

  lemma DualMoves(s: Setup, w: Work, w': Work)
    requires s.Valid() && Tolerant(s) && Linked(s, w, w') && w.v == w.vnew && w.z == w.znew
    requires MaxDiffAll(w'.v, w'.vnew) >= DualStep(s) || MaxDiffAll(w'.z, w'.znew) >= DualStep(s)
    ensures Distance(s, w', w) >= Quantum(s)
  {
    DistanceParts(s, w', w);
    StepsAreChanges(s, w, w');
    BigPair(DualStep(s), w'.v, w'.z, w'.vnew, w'.znew);
    NormBackwards(Slacks(w), Slacks(w'));
  }

  lemma RejectedMoves(s: Setup, w: Work, w': Work)
    requires s.Valid() && Tolerant(s) && Linked(s, w, w') && w.v == w.vnew && w.z == w.znew && !w'.Converged(s)
    ensures Distance(s, w', w) >= Quantum(s)
  {
    if MaxDiffAll(w'.x, w'.vnew) >= s.settings.absPriTol || MaxDiffAll(w'.u, w'.znew) >= s.settings.absPriTol {
      PrimalMoves(s, w, w');
    } else {
      var x, u := MaxDiffAll(w'.v, w'.vnew), MaxDiffAll(w'.z, w'.znew);
      if Weighted(x, s.cache.rho) >= s.settings.absDuaTol { Unweighted(s, x); } else { Unweighted(s, u); }
      DualMoves(s, w, w');
    }
  }

  // ----- How long solve can go on -----

  /** How many of the iterations 2 .. n are followed by a test. */
  function Tests(s: Setup, n: nat): nat
    requires s.settings.checkTermination != 0
  {
    if n <= 1 then 0 else Tests(s, n - 1) + if n % s.settings.checkTermination == 0 then 1 else 0
  }

  /** The problem has the fixed point star, for the given start. */
  ghost predicate Convergent(s: Setup, start: Work, star: Work)
    requires s.Valid()
  {
    && WellPosed(s) && Tolerant(s) && s.BoundsOrdered()
    && start.Fits(s) && FixedPoint(s, star) && star.x[0] == start.x[0]
  }

  lemma OneStep(s: Setup, v: Work, w: Work, w': Work, star: Work, n: nat)
    requires s.Valid() && Convergent(s, v, star) && v.Iterated(s) && w == v.Saved()
    requires Linked(s, w, w') && !Accepted(s, n, w')
    ensures FallsAt(s, n, Distance(s, v, star), Distance(s, w', star), Quantum(s))
  {
    DistanceFalls(s, w, w', star);
    DistanceParts(s, w', w);
    if n % s.settings.checkTermination == 0 { RejectedMoves(s, w, w'); }
  }

  lemma ConvergentFrom(s: Setup, start: Work, w: Work, star: Work)
    requires s.Valid() && Convergent(s, start, star) && w.Fits(s) && w.x[0] == start.x[0]
    ensures Convergent(s, w, star)
  {
  }

  lemma HistoryLink(s: Setup, start: Work, ws: seq<Work>, n: nat)
    requires s.Valid() && History(s, start, ws) && NoneAccepted(s, ws) && 2 <= n <= |ws|
    ensures Linked(s, ws[n - 2].Saved(), ws[n - 1]) && Rejected(s, n, ws[n - 1])
  {
    assert Linked(s, Kept(start, ws[..n - 1]), ws[n - 1]);
    assert Kept(start, ws[..n - 1]) == ws[n - 2].Saved();
    assert Rejected(s, (n - 1) + 1, ws[n - 1]);
  }

  /** The step from iterate n - 1 to iterate n of a history. */
  lemma HistoryStep(s: Setup, start: Work, ws: seq<Work>, star: Work, n: nat)
    requires s.Valid() && Convergent(s, start, star) && History(s, start, ws) && NoneAccepted(s, ws)
    requires 2 <= n <= |ws|
    ensures ws[n - 2].Fits(s) && ws[n - 1].Fits(s)
    ensures FallsAt(s, n, Distance(s, ws[n - 2], star), Distance(s, ws[n - 1], star), Quantum(s))
  {
    HistoryKeeps(s, start, ws, n - 2);
    ConvergentFrom(s, start, ws[n - 2], star);
    HistoryLink(s, start, ws, n);
    OneStep(s, ws[n - 2], ws[n - 2].Saved(), ws[n - 1], star, n);
  }

  ghost predicate FallsAt(s: Setup, n: nat, before: real, after: real, q: real)
    requires s.settings.checkTermination != 0
  {
    after + (if n % s.settings.checkTermination == 0 then q else 0.0) <= before
  }

  ghost predicate FallsIn(s: Setup, ds: seq<real>, n: nat, q: real)
    requires s.settings.checkTermination != 0 && 2 <= n <= |ds|
  {
    FallsAt(s, n, ds[n - 2], ds[n - 1], q)
  }

  /** A quantity that never grows, and falls by q at every test. */
  ghost predicate FallsAtTests(s: Setup, ds: seq<real>, q: real)
    requires s.settings.checkTermination != 0
  {
    forall n :: 2 <= n <= |ds| ==> FallsIn(s, ds, n, q)
  }

  lemma {:induction false} Telescopes(s: Setup, ds: seq<real>, q: real, n: nat)
    requires s.settings.checkTermination != 0 && FallsAtTests(s, ds, q) && 1 <= n <= |ds|
    ensures ds[n - 1] + Times(Tests(s, n) as real, q) <= ds[0]
  {
    if n == 1 {
      TimesLaws(0.0, q, 0.0, 0.0);
    } else {
      Telescopes(s, ds, q, n - 1);
      OneMoreTest(Tests(s, n - 1), q);
      assert FallsIn(s, ds, n, q);
    }
  }

  lemma OneMoreTest(k: nat, q: real)
    ensures Times((k + 1) as real, q) == Times(k as real, q) + q
  {
  }

  /** The distance, and 0 where the sizes do not fit. */
  ghost function DistanceOf(s: Setup, w: Work, star: Work): (d: real)
    requires s.Valid() && star.Fits(s)
    ensures d >= 0.0
  {
    if w.Fits(s) then DistanceParts(s, w, star); Distance(s, w, star) else 0.0
  }

  /** The distances of the iterates of a history. */
  lemma Distances(s: Setup, start: Work, ws: seq<Work>, star: Work) returns (ds: seq<real>)
    requires s.Valid() && Convergent(s, start, star) && History(s, start, ws) && NoneAccepted(s, ws)
    ensures |ds| == |ws| && FallsAtTests(s, ds, Quantum(s))
    ensures forall i :: 0 <= i < |ws| ==> ds[i] == DistanceOf(s, ws[i], star)
  {
    ds := seq(|ws|, i requires 0 <= i < |ws| => DistanceOf(s, ws[i], star));
    forall n | 2 <= n <= |ds| ensures FallsIn(s, ds, n, Quantum(s)) {
      HistoryStep(s, start, ws, star, n);
    }
  }

  /** Main result 2: if the problem has a fixed point at all, a call of solve that
      ends unsolved made no more tests than the distance of its first iterate
      allows; with more iterations than that it reports "solved". */
  lemma UnsolvedIsBounded(s: Setup, start: Work, ws: seq<Work>, w: Work, star: Work)
    requires s.Valid() && Convergent(s, start, star) && Unaccepted(s, start, ws, w) && ws != []
    ensures Times(Tests(s, |ws|) as real, Quantum(s)) <= DistanceOf(s, ws[0], star)
  {
    var ds := Distances(s, start, ws, star);
    var n, q := |ws|, Quantum(s);
    Telescopes(s, ds, q, n);
    assert ds[n - 1] >= 0.0;
  }
}
