/** Angle wrapping, as in limit_rad of tools/math_tools.cpp, over exact reals. */
module Angle {
  /** CV_PI */
  const PI: real := 3.1415926535897932384626433832795
  const TWO_PI: real := 2.0 * PI

  /** The whole turns to add so that an angle lands in (-PI, PI]. */
  function Turns(a: real): int { ((PI - a) / TWO_PI).Floor }

  function Turned(a: real, k: int): real { a + TWO_PI * (k as real) }

  /** The representative of a modulo 2 PI in (-PI, PI]. */
  function Wrap(a: real): (r: real)
    ensures -PI < r <= PI
  {
    WrapRange(a);
    Turned(a, Turns(a))
  }

  lemma WrapRange(a: real)
    ensures -PI < Turned(a, Turns(a)) <= PI
  {
    var t := (PI - a) / TWO_PI;
    assert t * TWO_PI == PI - a;
    var k := t.Floor as real;
    assert k <= t < k + 1.0;
    assert k * TWO_PI <= t * TWO_PI < (k + 1.0) * TWO_PI;
  }

  /** The representative is unique. */
  lemma WrapUnique(a: real, k: int)
    requires -PI < Turned(a, k) <= PI
    ensures Turned(a, k) == Wrap(a)
  {
    var j := Turns(a);
    var d := (k - j) as real;
    assert Turned(a, k) - Wrap(a) == TWO_PI * d;
    assert -TWO_PI < TWO_PI * d < TWO_PI;
    assert k == j;
  }

  /** Angles that differ by whole turns wrap to the same value, and conversely. */
  lemma WrapCongruent(a: real, b: real)
    ensures Wrap(a) == Wrap(b) <==> exists k: int :: b == Turned(a, k)
  {
    if Wrap(a) == Wrap(b) {
      assert b == Turned(a, Turns(a) - Turns(b));
    }
    if k: int :| b == Turned(a, k) {
      var m := k + Turns(b);
      assert Turned(b, Turns(b)) == Turned(a, m);
      WrapUnique(a, m);
    }
  }

  /** Wrapping early makes no difference. */
  lemma WrapAdd(a: real, b: real)
    ensures Wrap(Wrap(a) + b) == Wrap(a + b)
  {
    assert Wrap(a) + b == Turned(a + b, Turns(a));
    WrapCongruent(a + b, Wrap(a) + b);
  }

  /** i-th of n equal parts of a turn. */
  function Part(i: nat, n: nat): real
    requires n > 0
  {
    (i as real) * TWO_PI / (n as real)
  }

  lemma WrapIdle(a: real)
    requires -PI < a <= PI
    ensures Wrap(a) == a
  {
    assert a == Turned(a, 0);
    WrapUnique(a, 0);
  }

  /** The two loops of limit_rad. */
  method LimitRad(start: real) returns (angle: real)
    ensures angle == Wrap(start)
  {
    angle := start;
    ghost var k := 0;
    while angle > PI
      invariant angle == Turned(start, k)
      decreases angle
    {
      angle := angle - TWO_PI;
      k := k - 1;
    }
    while angle <= -PI
      invariant angle == Turned(start, k) && angle <= PI
      decreases -angle
    {
      angle := angle + TWO_PI;
      k := k + 1;
    }
    WrapUnique(start, k);
  }
}
