/** The ballistic solver of tools/trajectory.cpp, over exact reals.  A launch
    direction is given by its tangent, as the source computes it before atan; the
    square root and the cosine of an arc tangent are inputs with their defining
    equations. */
module Trajectory {

  const G: real := 9.7833

  datatype Trajectory = Unsolvable | Solved(tanPitch: real, flyTime: real)

  ghost predicate IsSqrt(sqrt: real -> real) {
    forall y :: y >= 0.0 ==> sqrt(y) >= 0.0 && sqrt(y) * sqrt(y) == y
  }

  ghost predicate IsCosAtan(cosAtan: real -> real) {
    forall u :: CosOf(cosAtan(u), u)
  }

  /** c is the cosine of the angle between -90 and 90 degrees with tangent u. */
  ghost predicate CosOf(c: real, u: real) { c > 0.0 && c * c * (1.0 + u * u) == 1.0 }

  /** The constructor. */
  function Solve(v0: real, d: real, h: real, sqrt: real -> real, cosAtan: real -> real): Trajectory
    requires v0 > 0.0 && d > 0.0 && IsCosAtan(cosAtan)
  {
    var a := Drop(v0, d);
    var b := -d;
    var c := a + h;
    var delta := Discriminant(a, b, c);
    if delta < 0.0 then Unsolvable
    else
      var tan1 := Upper(a, b, sqrt(delta));
      var tan2 := Lower(a, b, sqrt(delta));
      assert CosOf(cosAtan(tan1), tan1) && CosOf(cosAtan(tan2), tan2);
      var t1 := FlyTime(v0, d, cosAtan(tan1));
      var t2 := FlyTime(v0, d, cosAtan(tan2));
      if t1 < t2 then Solved(tan1, t1) else Solved(tan2, t2)
  }

  function Discriminant(a: real, b: real, c: real): real { b * b - 4.0 * a * c }

  function Upper(a: real, b: real, root: real): real
    requires a > 0.0
  {
    (-b + root) / (2.0 * a)
  }

  function Lower(a: real, b: real, root: real): real
    requires a > 0.0
  {
    (-b - root) / (2.0 * a)
  }

  function Drop(v0: real, d: real): (a: real)
    requires v0 > 0.0 && d > 0.0
    ensures a > 0.0 && a * (2.0 * v0 * v0) == G * d * d
  {
    var x, y := G * d, 2.0 * v0;
    Positive(x, d);
    Positive(y, v0);
    Over(x * d, y * v0)
  }

  function FlyTime(v0: real, d: real, cos: real): (t: real)
    requires v0 > 0.0 && d > 0.0 && cos > 0.0
    ensures t > 0.0 && t * (v0 * cos) == d
  {
    Positive(v0, cos);
    Over(d, v0 * cos)
  }

  lemma Positive(x: real, y: real)
    requires x > 0.0 && y > 0.0
    ensures x * y > 0.0
  {
  }

  /** Division, with the facts that the proofs use. */
  function Over(x: real, y: real): (q: real)
    requires y > 0.0
    ensures q * y == x && (x > 0.0 ==> q > 0.0)
  {
    x / y
  }

  // ----- The physics -----

  /** A bullet launched at speed v0 in the unit direction (c, s) is at (d, h) after
      time t > 0, under constant gravity. */
  ghost predicate HitsAt(v0: real, d: real, h: real, c: real, s: real, t: real) {
    && c * c + s * s == 1.0 && t > 0.0
    && v0 * c * t == d
    && v0 * s * t - G * t * t / 2.0 == h
  }

  ghost predicate Hittable(v0: real, d: real, h: real) { exists c, s, t :: HitsAt(v0, d, h, c, s, t) }

  /** The quadratic in the tangent u. */
  function Miss(a: real, b: real, c: real, u: real): real { a * (u * u) + b * u + c }

  lemma Forward(v0: real, d: real, c: real, t: real)
    requires v0 > 0.0 && d > 0.0 && t > 0.0 && v0 * c * t == d
    ensures c > 0.0
  {
    if c <= 0.0 { Backward(v0, c, t); }
  }

  lemma Backward(v0: real, c: real, t: real)
    requires v0 > 0.0 && t > 0.0 && c <= 0.0
    ensures v0 * c * t <= 0.0
  {
    assert v0 * c <= 0.0;
  }

  /** What the bullet falls in flight. */
  lemma Fall(v0: real, d: real, c: real, u: real, t: real)
    requires v0 > 0.0 && d > 0.0 && t * (v0 * c) == d && CosOf(c, u)
    ensures G * t * t / 2.0 == Drop(v0, d) * (1.0 + u * u)
  {
    var a, w, k := Drop(v0, d), 1.0 + u * u, c * c;
    var vv, tt, dd := v0 * v0, t * t, d * d;
    assert dd == tt * (vv * k) by { assert dd == (t * (v0 * c)) * (t * (v0 * c)); }
    assert a * (2.0 * vv) == G * dd;
    FallScaled(a, vv, tt, k, w);
  }

  lemma FallScaled(a: real, vv: real, tt: real, k: real, w: real)
    requires vv > 0.0 && k * w == 1.0 && a * (2.0 * vv) == G * (tt * (vv * k))
    ensures G * tt / 2.0 == a * w
  {
    assert 2.0 * vv * (a * w) == G * (tt * (vv * k)) * w == G * tt * vv * (k * w) == 2.0 * vv * (G * tt / 2.0);
    Cancel(2.0 * vv, a * w, G * tt / 2.0);
  }

  lemma Cancel(k: real, x: real, y: real)
    requires k != 0.0 && k * x == k * y
    ensures x == y
  {
  }

  /** A direction hits exactly when its tangent solves the quadratic, at the
      corresponding time. */
  lemma HitIsRoot(v0: real, d: real, h: real, c: real, s: real, t: real)
    requires v0 > 0.0 && d > 0.0 && HitsAt(v0, d, h, c, s, t)
    ensures c > 0.0 && CosOf(c, s / c) && t * (v0 * c) == d
    ensures Miss(Drop(v0, d), -d, Drop(v0, d) + h, s / c) == 0.0
  {
    Forward(v0, d, c, t);
    var u := s / c;
    assert u * c == s;
    UnitTangent(c, s, u);
    assert t * (v0 * c) == d;
    Fall(v0, d, c, u, t);
    Rise(v0, d, c, s, u, t);
  }

  lemma UnitTangent(c: real, s: real, u: real)
    requires u * c == s
    ensures c * c * (1.0 + u * u) == c * c + s * s
  {
    assert (u * c) * (u * c) == s * s;
  }

  lemma Rise(v0: real, d: real, c: real, s: real, u: real, t: real)
    requires u * c == s && t * (v0 * c) == d
    ensures v0 * s * t == d * u
  {
    assert v0 * (u * c) * t == (t * (v0 * c)) * u;
  }

  lemma RootIsHit(v0: real, d: real, h: real, c: real, u: real)
    requires v0 > 0.0 && d > 0.0 && CosOf(c, u)
    requires Miss(Drop(v0, d), -d, Drop(v0, d) + h, u) == 0.0
    ensures HitsAt(v0, d, h, c, u * c, FlyTime(v0, d, c))
  {
    var t := FlyTime(v0, d, c);
    UnitTangent(c, u * c, u);
    Fall(v0, d, c, u, t);
    Rise(v0, d, c, u * c, u, t);
    assert v0 * c * t == t * (v0 * c);
  }

  // ----- The quadratic -----

  lemma CompleteSquare(a: real, b: real, c: real, u: real)
    ensures 4.0 * a * Miss(a, b, c, u) == Square(2.0 * a * u + b) - Discriminant(a, b, c)
  {
    var p := a * u;
    assert 4.0 * a * Miss(a, b, c, u) == 4.0 * p * p + 4.0 * b * p + 4.0 * a * c;
    assert Square(2.0 * p + b) == 4.0 * p * p + 4.0 * b * p + b * b;
    assert 2.0 * a * u + b == 2.0 * p + b;
  }

  function Square(x: real): (r: real)
    ensures r >= 0.0
  {
    x * x
  }

  lemma SquareRoots(x: real, r: real)
    requires Square(x) == r * r
    ensures x == r || x == -r
  {
    assert (x - r) * (x + r) == 0.0;
  }

  lemma RootsOfQuadratic(a: real, b: real, c: real, r: real, u: real)
    requires a > 0.0 && r * r == Discriminant(a, b, c)
    ensures Miss(a, b, c, u) == 0.0 <==> u == Upper(a, b, r) || u == Lower(a, b, r)
  {
    CompleteSquare(a, b, c, u);
    var x := 2.0 * a * u + b;
    if Miss(a, b, c, u) == 0.0 {
      SquareRoots(x, r);
      assert 2.0 * a * u == -b + r || 2.0 * a * u == -b - r;
    }
    if u == Upper(a, b, r) || u == Lower(a, b, r) {
      assert x == r || x == -r;
      assert Square(x) == r * r;
      Cancel(4.0 * a, Miss(a, b, c, u), 0.0);
    }
  }

  /** The lower root is the flatter one. */
  lemma LowerIsFlatter(a: real, b: real, r: real)
    requires a > 0.0 && b < 0.0 && r >= 0.0
    ensures var u1, u2 := Upper(a, b, r), Lower(a, b, r); u2 <= u1 && u2 * u2 <= u1 * u1
  {
    var k := 2.0 * a;
    var u1, u2 := (-b + r) / k, (-b - r) / k;
    assert u1 * k == -b + r && u2 * k == -b - r;
    assert (u1 - u2) * k == 2.0 * r && (u1 + u2) * k == -2.0 * b;
    assert u1 - u2 >= 0.0 && u1 + u2 >= 0.0;
    assert u1 * u1 - u2 * u2 == (u1 - u2) * (u1 + u2) >= 0.0;
  }

  /** The flatter of two directions has the larger cosine and the shorter flight. */
  lemma FlatterIsSooner(v0: real, d: real, c1: real, u1: real, t1: real, c2: real, u2: real, t2: real)
    requires v0 > 0.0 && d > 0.0 && t1 > 0.0 && CosOf(c1, u1) && CosOf(c2, u2)
    requires t1 * (v0 * c1) == d && t2 * (v0 * c2) == d
    requires u2 * u2 <= u1 * u1
    ensures t2 <= t1
  {
    LargerCosine(c1, 1.0 + u1 * u1, c2, 1.0 + u2 * u2);
    Positive(v0, c2);
    assert v0 * c1 <= v0 * c2;
    FasterIsSooner(d, v0 * c1, t1, v0 * c2, t2);
  }

  lemma FasterIsSooner(d: real, w1: real, t1: real, w2: real, t2: real)
    requires w1 <= w2 && w2 > 0.0 && t1 > 0.0 && t1 * w1 == d && t2 * w2 == d
    ensures t2 <= t1
  {
    assert t1 * w1 <= t1 * w2;
    CancelOrder(w2, t2, t1);
  }

  lemma CancelOrder(k: real, x: real, y: real)
    requires k > 0.0 && x * k <= y * k
    ensures x <= y
  {
  }

  lemma SquareOrder(x: real, y: real)
    requires x > 0.0 && y > 0.0 && x * x <= y * y
    ensures x <= y
  {
  }

  lemma LargerCosine(c1: real, w1: real, c2: real, w2: real)
    requires c1 > 0.0 && c2 > 0.0 && w1 >= w2 >= 1.0
    requires c1 * c1 * w1 == 1.0 && c2 * c2 * w2 == 1.0
    ensures c1 <= c2
  {
    var s1, s2 := c1 * c1, c2 * c2;
    Positive(c2, c2);
    assert s2 * w2 <= s2 * w1;
    CancelOrder(w1, s1, s2);
    SquareOrder(c1, c2);
  }

  // ----- The solver against the physics -----

  function Delta(v0: real, d: real, h: real): real
    requires v0 > 0.0 && d > 0.0
  {
    Discriminant(Drop(v0, d), -d, Drop(v0, d) + h)
  }

  lemma SolveTakesLower(v0: real, d: real, h: real, sqrt: real -> real, cosAtan: real -> real)
    requires v0 > 0.0 && d > 0.0 && IsSqrt(sqrt) && IsCosAtan(cosAtan)
    ensures
      var u := Lower(Drop(v0, d), -d, sqrt(Delta(v0, d, h)));
      CosOf(cosAtan(u), u) && Solve(v0, d, h, sqrt, cosAtan) ==
        if Delta(v0, d, h) < 0.0 then Unsolvable else Solved(u, FlyTime(v0, d, cosAtan(u)))
  {
    var a, delta := Drop(v0, d), Delta(v0, d, h);
    var r := sqrt(delta);
    var u1, u2 := Upper(a, -d, r), Lower(a, -d, r);
    var c1, c2 := cosAtan(u1), cosAtan(u2);
    assert CosOf(c1, u1) && CosOf(c2, u2);
    if delta >= 0.0 {
      LowerIsFlatter(a, -d, r);
      FlatterIsSooner(v0, d, c1, u1, FlyTime(v0, d, c1), c2, u2, FlyTime(v0, d, c2));
    }
  }

  /** Main result: unsolvable exactly when no direction at all hits (d, h). */
  lemma UnsolvableIffUnhittable(v0: real, d: real, h: real, sqrt: real -> real, cosAtan: real -> real)
    requires v0 > 0.0 && d > 0.0 && IsSqrt(sqrt) && IsCosAtan(cosAtan)
    ensures Solve(v0, d, h, sqrt, cosAtan).Unsolvable? <==> !Hittable(v0, d, h)
  {
    SolveTakesLower(v0, d, h, sqrt, cosAtan);
    if Delta(v0, d, h) >= 0.0 {
      SolutionHits(v0, d, h, sqrt, cosAtan);
    } else {
      forall c, s, t ensures !HitsAt(v0, d, h, c, s, t) {
        if HitsAt(v0, d, h, c, s, t) {
          HitIsRoot(v0, d, h, c, s, t);
          CompleteSquare(Drop(v0, d), -d, Drop(v0, d) + h, s / c);
        }
      }
    }
  }

  /** The solution does hit, at its own flight time. */
  lemma SolutionHits(v0: real, d: real, h: real, sqrt: real -> real, cosAtan: real -> real)
    requires v0 > 0.0 && d > 0.0 && IsSqrt(sqrt) && IsCosAtan(cosAtan)
    requires Solve(v0, d, h, sqrt, cosAtan).Solved?
    ensures var r := Solve(v0, d, h, sqrt, cosAtan);
      HitsAt(v0, d, h, cosAtan(r.tanPitch), r.tanPitch * cosAtan(r.tanPitch), r.flyTime)
  {
    SolveTakesLower(v0, d, h, sqrt, cosAtan);
    var a, r := Drop(v0, d), sqrt(Delta(v0, d, h));
    var u := Lower(a, -d, r);
    RootsOfQuadratic(a, -d, a + h, r, u);
    RootIsHit(v0, d, h, cosAtan(u), u);
  }

  /** Of all directions that hit, the solution is the lowest and the soonest. */
  lemma SolutionIsLowestAndSoonest(v0: real, d: real, h: real, sqrt: real -> real, cosAtan: real -> real,
                                   c: real, s: real, t: real)
    requires v0 > 0.0 && d > 0.0 && IsSqrt(sqrt) && IsCosAtan(cosAtan)
    requires HitsAt(v0, d, h, c, s, t)
    ensures var r := Solve(v0, d, h, sqrt, cosAtan);
      r.Solved? && c > 0.0 && r.tanPitch <= s / c && r.flyTime <= t
  {
    UnsolvableIffUnhittable(v0, d, h, sqrt, cosAtan);
    SolveTakesLower(v0, d, h, sqrt, cosAtan);
    HitIsRoot(v0, d, h, c, s, t);
    var a, r := Drop(v0, d), sqrt(Delta(v0, d, h));
    RootsOfQuadratic(a, -d, a + h, r, s / c);
    LowerIsFlatter(a, -d, r);
    var u := Lower(a, -d, r);
    FlatterIsSooner(v0, d, c, s / c, t, cosAtan(u), u, FlyTime(v0, d, cosAtan(u)));
  }
}
