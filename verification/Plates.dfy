/** Where the plates of a target are: h_armor_xyz and armor_xyza_list of
    tasks/auto_aim/target.cpp.  The two trigonometric functions are inputs with their
    defining equations. */
module Plates {
  import opened Matrix
  import opened Angle
  import opened Target

  datatype Trig = Trig(cos: real -> real, sin: real -> real)
  {
    /** Cosine and sine: of one period, on the unit circle, and opposite after half a
        turn. */
    ghost predicate Ok() {
      && (forall a {:trigger Wrap(a)} :: cos(Wrap(a)) == cos(a) && sin(Wrap(a)) == sin(a))
      && (forall a {:trigger cos(a)} :: Times(cos(a), cos(a)) + Times(sin(a), sin(a)) == 1.0)
      && (forall a {:trigger cos(a + PI)} :: cos(a + PI) == -cos(a) && sin(a + PI) == -sin(a))
    }
  }

  datatype Position = Position(x: real, y: real, z: real, angle: real)

  /** The second pair of four plates has its own radius and height. */
  predicate SecondPair(plates: nat, id: nat) { plates == 4 && (id == 1 || id == 3) }

  function PlateRadius(x: Vec, plates: nat, id: nat): real
    requires |x| == DIM
  {
    if SecondPair(plates, id) then x[8] + x[9] else x[8]
  }

  function PlateAngle(x: Vec, plates: nat, id: nat): real
    requires |x| == DIM && plates > 0
  {
    Wrap(x[6] + Part(id, plates))
  }

  function PlateAt(trig: Trig, x: Vec, plates: nat, id: nat): Position
    requires |x| == DIM && plates > 0
  {
    var a, r := PlateAngle(x, plates, id), PlateRadius(x, plates, id);
    Position(x[0] - Times(r, trig.cos(a)), x[2] - Times(r, trig.sin(a)),
             if SecondPair(plates, id) then x[4] + x[10] else x[4], a)
  }

  /** Every plate is as far from the axis as its radius says. */
  lemma PlateOnCircle(trig: Trig, x: Vec, plates: nat, id: nat)
    requires |x| == DIM && plates > 0 && trig.Ok()
    ensures var p, r := PlateAt(trig, x, plates, id), PlateRadius(x, plates, id);
      Times(p.x - x[0], p.x - x[0]) + Times(p.y - x[2], p.y - x[2]) == Times(r, r)
  {
    var a, r := PlateAngle(x, plates, id), PlateRadius(x, plates, id);
    OnCircle(r, trig.cos(a), trig.sin(a), x[0], x[2]);
  }

  lemma OnCircle(r: real, c: real, s: real, x: real, y: real)
    requires Times(c, c) + Times(s, s) == 1.0
    ensures Times((x - Times(r, c)) - x, (x - Times(r, c)) - x) + Times((y - Times(r, s)) - y, (y - Times(r, s)) - y) == Times(r, r)
  {
    assert (x - r * c) - x == -(r * c) && (y - r * s) - y == -(r * s);
    assert (r * c) * (r * c) + (r * s) * (r * s) == (r * r) * (c * c + s * s);
  }

  /** Opposite plates of four lie evenly about the axis, at one height, and face opposite
      ways. */
  lemma OppositePlatesMirror(trig: Trig, x: Vec, id: nat)
    requires |x| == DIM && trig.Ok() && id < 2
    ensures var p, q := PlateAt(trig, x, 4, id), PlateAt(trig, x, 4, id + 2);
      p.x + q.x == 2.0 * x[0] && p.y + q.y == 2.0 * x[2] && p.z == q.z && q.angle == Wrap(p.angle + PI)
  {
    var a := x[6] + Part(id, 4);
    assert x[6] + Part(id + 2, 4) == a + PI;
    WrapAdd(a, PI);
    assert trig.cos(Wrap(a + PI)) == trig.cos(a + PI) == -trig.cos(a) == -trig.cos(Wrap(a));
    assert trig.sin(Wrap(a + PI)) == trig.sin(a + PI) == -trig.sin(a) == -trig.sin(Wrap(a));
    var r := PlateRadius(x, 4, id);
    Opposed(r, trig.cos(Wrap(a)));
    Opposed(r, trig.sin(Wrap(a)));
  }

  lemma Opposed(r: real, c: real)
    ensures Times(r, -c) == -Times(r, c)
  {
  }

  /** A target that does not spin carries its plates along. */
  lemma PlatesMoveAlong(trig: Trig, x: Vec, dt: real, plates: nat, id: nat)
    requires |x| == DIM && plates > 0 && x[7] == 0.0
    ensures var p, q := PlateAt(trig, x, plates, id), PlateAt(trig, WrapAngle(Moved(x, dt)), plates, id);
      q == Position(p.x + Times(dt, x[1]), p.y + Times(dt, x[3]), p.z + Times(dt, x[5]), p.angle)
  {
    var y := WrapAngle(Moved(x, dt));
    TimesLaws(0.0, dt, 0.0, 0.0);
    assert y[6] == Wrap(x[6]);
    WrapAdd(x[6], Part(id, plates));
  }

  /** A target has not diverged exactly when both radii of its plates lie between five
      centimetres and half a metre. */
  lemma SoundRadii(x: Vec)
    requires |x| == DIM
    ensures !Diverged(x) <==> forall id :: 0 <= id < 4 ==> 0.05 < PlateRadius(x, 4, id) < 0.5
  {
    if forall id :: 0 <= id < 4 ==> 0.05 < PlateRadius(x, 4, id) < 0.5 {
      assert 0.05 < PlateRadius(x, 4, 0) < 0.5 && 0.05 < PlateRadius(x, 4, 1) < 0.5;
    }
  }
}
