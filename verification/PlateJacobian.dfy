/** The derivative of the plate positions: the first factor of h_jacobian in
    tasks/auto_aim/target.cpp:280-303, which maps changes of the state to changes of a
    plate's position and angle. */
module PlateJacobian {
  import opened Matrix
  import opened Angle
  import opened Target
  import opened Plates

  /** Position and angle of a plate, the angle not wrapped. */
  function PlateVector(trig: Trig, x: Vec, plates: nat, id: nat): (r: Vec)
    requires |x| == DIM && plates > 0
    ensures |r| == 4
  {
    var p := PlateAt(trig, x, plates, id);
    [p.x, p.y, p.z, x[6] + Part(id, plates)]
  }

  /** One where the second pair of plates differs, zero elsewhere. */
  function Second(plates: nat, id: nat): real { if SecondPair(plates, id) then 1.0 else 0.0 }

  /** A row with four entries that are not zero. */
  function Row(i: nat, da: real, dr: real, dl: real, dh: real): (r: Vec)
    requires i < DIM
    ensures |r| == DIM
  {
    Add(Add(Unit(DIM, i), Scale(da, Unit(DIM, 6))),
        Add(Add(Scale(dr, Unit(DIM, 8)), Scale(dl, Unit(DIM, 9))), Scale(dh, Unit(DIM, 10))))
  }

  function Jacobian(trig: Trig, x: Vec, plates: nat, id: nat): (J: Mat)
    requires |x| == DIM && plates > 0
    ensures J.rows == 4 && J.cols == DIM
  {
    var a, r, l := PlateAngle(x, plates, id), PlateRadius(x, plates, id), Second(plates, id);
    var c, s := trig.cos(a), trig.sin(a);
    RawMat(4, DIM, [
      Row(0, Times(r, s), -c, -Times(l, c), 0.0),
      Row(2, -Times(r, c), -s, -Times(l, s), 0.0),
      Row(4, 0.0, 0.0, 0.0, l),
      Unit(DIM, 6)])
  }

  lemma DotOfUnit(t: real, i: nat, d: Vec)
    requires |d| == DIM && i < DIM
    ensures Dot(Scale(t, Unit(DIM, i)), d) == Times(t, d[i]) && Dot(Unit(DIM, i), d) == d[i]
  {
    DotComm(Unit(DIM, i), d);
    DotUnit(d, i);
    DotScaleRight(t, Unit(DIM, i), d);
  }

  lemma DotOfRow(i: nat, da: real, dr: real, dl: real, dh: real, d: Vec)
    requires i < DIM && |d| == DIM
    ensures Dot(Row(i, da, dr, dl, dh), d) ==
            d[i] + Times(da, d[6]) + (Times(dr, d[8]) + Times(dl, d[9]) + Times(dh, d[10]))
  {
    var a, b := Unit(DIM, i), Scale(da, Unit(DIM, 6));
    var e, f, g := Scale(dr, Unit(DIM, 8)), Scale(dl, Unit(DIM, 9)), Scale(dh, Unit(DIM, 10));
    DotAdd(Add(a, b), Add(Add(e, f), g), d);
    DotAdd(a, b, d);
    DotAdd(Add(e, f), g, d);
    DotAdd(e, f, d);
    DotOfUnit(0.0, i, d);
    DotOfUnit(da, 6, d);
    DotOfUnit(dr, 8, d);
    DotOfUnit(dl, 9, d);
    DotOfUnit(dh, 10, d);
  }

  /** How a row acts on a change of the state. */
  ghost predicate Acts(row: Vec, i: nat, da: real, dr: real, dl: real, dh: real) {
    i < DIM && |row| == DIM && forall d: Vec {:trigger Dot(row, d)} :: |d| == DIM ==>
      Dot(row, d) == d[i] + Times(da, d[6]) + (Times(dr, d[8]) + Times(dl, d[9]) + Times(dh, d[10]))
  }

  lemma RowActs(i: nat, da: real, dr: real, dl: real, dh: real)
    requires i < DIM
    ensures Acts(Row(i, da, dr, dl, dh), i, da, dr, dl, dh)
  {
    forall d: Vec | |d| == DIM
      ensures Dot(Row(i, da, dr, dl, dh), d) ==
              d[i] + Times(da, d[6]) + (Times(dr, d[8]) + Times(dl, d[9]) + Times(dh, d[10]))
    {
      DotOfRow(i, da, dr, dl, dh, d);
    }
  }

  /** What is used of the derivative at an angle a, a radius r and the factor l. */
  ghost predicate Derives(J: Mat, trig: Trig, a: real, r: real, l: real) {
    && J.rows == 4 && J.cols == DIM
    && Acts(J.row[0], 0, Times(r, trig.sin(a)), -trig.cos(a), -Times(l, trig.cos(a)), 0.0)
    && Acts(J.row[1], 2, -Times(r, trig.cos(a)), -trig.sin(a), -Times(l, trig.sin(a)), 0.0)
    && Acts(J.row[2], 4, 0.0, 0.0, 0.0, l) && J.row[3] == Unit(DIM, 6)
  }

  lemma JacobianDerives(trig: Trig, x: Vec, plates: nat, id: nat)
    requires |x| == DIM && plates > 0
    ensures Derives(Jacobian(trig, x, plates, id), trig, PlateAngle(x, plates, id), PlateRadius(x, plates, id), Second(plates, id))
  {
    var a, r, l := PlateAngle(x, plates, id), PlateRadius(x, plates, id), Second(plates, id);
    RowActs(0, Times(r, trig.sin(a)), -trig.cos(a), -Times(l, trig.cos(a)), 0.0);
    RowActs(2, -Times(r, trig.cos(a)), -trig.sin(a), -Times(l, trig.sin(a)), 0.0);
    RowActs(4, 0.0, 0.0, 0.0, l);
  }

  lemma AcrossOf(J: Mat, k: nat, i: nat, da: real, c: real, l: real, d: Vec)
    requires k < J.rows && J.cols == |d| == DIM && d[6] == 0.0 && Acts(J.row[k], i, da, -c, -Times(l, c), 0.0)
    ensures Apply(J, d)[k] == d[i] + (Times(-c, d[8]) + Times(-Times(l, c), d[9]))
  {
    assert Apply(J, d)[k] == Dot(J.row[k], d);
    TimesLaws(0.0, da, 0.0, 0.0);
    TimesLaws(0.0, d[10], 0.0, 0.0);
  }

  lemma UpOf(J: Mat, l: real, d: Vec)
    requires J.rows == 4 && J.cols == |d| == DIM && Acts(J.row[2], 4, 0.0, 0.0, 0.0, l)
    ensures Apply(J, d)[2] == d[4] + Times(l, d[10])
  {
    assert Apply(J, d)[2] == Dot(J.row[2], d);
    TimesLaws(0.0, d[6], 0.0, 0.0);
    TimesLaws(0.0, d[8], 0.0, 0.0);
    TimesLaws(0.0, d[9], 0.0, 0.0);
  }

  lemma Longer(r: real, c: real, l: real, d8: real, d9: real)
    ensures Times(r + d8 + Times(l, d9), c) == Times(r, c) - (Times(-c, d8) + Times(-Times(l, c), d9))
  {
    assert (r + d8 + l * d9) * c == r * c + d8 * c + l * d9 * c;
    assert -c * d8 == -(d8 * c) && -(l * c) * d9 == -(l * d9 * c);
  }

  lemma PlateAcross(trig: Trig, x: Vec, plates: nat, id: nat, d: Vec)
    requires |x| == |d| == DIM && plates > 0 && d[6] == 0.0
    ensures var a, r, q := PlateAngle(x, plates, id), PlateRadius(x, plates, id), PlateAt(trig, Add(x, d), plates, id);
      var longer := r + d[8] + Times(Second(plates, id), d[9]);
      q.x == x[0] + d[0] - Times(longer, trig.cos(a)) && q.y == x[2] + d[2] - Times(longer, trig.sin(a))
  {
    RadiusMoves(x, d, plates, id);
  }

  lemma ExactAcross(trig: Trig, x: Vec, plates: nat, id: nat, d: Vec, J: Mat)
    requires |x| == |d| == DIM && plates > 0 && d[6] == 0.0
    requires Derives(J, trig, PlateAngle(x, plates, id), PlateRadius(x, plates, id), Second(plates, id))
    ensures var p, q, k := PlateAt(trig, x, plates, id), PlateAt(trig, Add(x, d), plates, id), Apply(J, d);
      q.x == p.x + k[0] && q.y == p.y + k[1]
  {
    var a, r, l := PlateAngle(x, plates, id), PlateRadius(x, plates, id), Second(plates, id);
    AcrossOf(J, 0, 0, Times(r, trig.sin(a)), trig.cos(a), l, d);
    AcrossOf(J, 1, 2, -Times(r, trig.cos(a)), trig.sin(a), l, d);
    PlateAcross(trig, x, plates, id, d);
    Longer(r, trig.cos(a), l, d[8], d[9]);
    Longer(r, trig.sin(a), l, d[8], d[9]);
  }

  lemma ExactUp(trig: Trig, x: Vec, plates: nat, id: nat, d: Vec, J: Mat)
    requires |x| == |d| == DIM && plates > 0 && d[6] == 0.0
    requires Derives(J, trig, PlateAngle(x, plates, id), PlateRadius(x, plates, id), Second(plates, id))
    ensures var p, q, k := PlateAt(trig, x, plates, id), PlateAt(trig, Add(x, d), plates, id), Apply(J, d);
      q.z == p.z + k[2] && k[3] == 0.0
  {
    UpOf(J, Second(plates, id), d);
    TimesLaws(0.0, d[10], 0.0, 0.0);
    DotOfUnit(0.0, 6, d);
    assert Apply(J, d)[3] == Dot(J.row[3], d);
    assert Times(1.0, d[10]) == d[10];
  }

  /** Main result 1: as long as the target does not turn, the plate moves exactly as the
      derivative says, however large the change. */
  lemma JacobianIsExact(trig: Trig, x: Vec, plates: nat, id: nat, d: Vec)
    requires |x| == |d| == DIM && plates > 0 && d[6] == 0.0
    ensures PlateVector(trig, Add(x, d), plates, id) ==
            Add(PlateVector(trig, x, plates, id), Apply(Jacobian(trig, x, plates, id), d))
  {
    JacobianDerives(trig, x, plates, id);
    ExactAcross(trig, x, plates, id, d, Jacobian(trig, x, plates, id));
    ExactUp(trig, x, plates, id, d, Jacobian(trig, x, plates, id));
  }

  lemma RadiusMoves(x: Vec, d: Vec, plates: nat, id: nat)
    requires |x| == |d| == DIM && plates > 0 && d[6] == 0.0
    ensures PlateRadius(Add(x, d), plates, id) == PlateRadius(x, plates, id) + d[8] + Times(Second(plates, id), d[9])
    ensures PlateAngle(Add(x, d), plates, id) == PlateAngle(x, plates, id)
  {
  }

  // ----- Turning -----

  ghost predicate Adds(trig: Trig) {
    forall a, b {:trigger trig.cos(a + b)} {:trigger trig.sin(a + b)} ::
      && trig.cos(a + b) == Times(trig.cos(a), trig.cos(b)) - Times(trig.sin(a), trig.sin(b))
      && trig.sin(a + b) == Times(trig.sin(a), trig.cos(b)) + Times(trig.cos(a), trig.sin(b))
  }

  lemma SumOfAngles(trig: Trig, a: real, t: real)
    requires trig.Ok() && Adds(trig)
    ensures trig.cos(Wrap(a + t)) == Times(trig.cos(Wrap(a)), trig.cos(t)) - Times(trig.sin(Wrap(a)), trig.sin(t))
    ensures trig.sin(Wrap(a + t)) == Times(trig.sin(Wrap(a)), trig.cos(t)) + Times(trig.cos(Wrap(a)), trig.sin(t))
  {
    assert trig.cos(Wrap(a + t)) == trig.cos(a + t) && trig.sin(Wrap(a + t)) == trig.sin(a + t);
    assert trig.cos(Wrap(a)) == trig.cos(a) && trig.sin(Wrap(a)) == trig.sin(a);
  }

  /** Main result 2: as it turns by t, the plate moves as the derivative says of sin t, and
      towards the axis by 1 - cos t of its radius. */
  lemma JacobianTurns(trig: Trig, x: Vec, plates: nat, id: nat, t: real)
    requires |x| == DIM && plates > 0 && trig.Ok() && Adds(trig)
    ensures TurnsAlong(trig, x, plates, id, t)
  {
    SumOfAngles(trig, x[6] + Part(id, plates), t);
    TurnsBySum(trig, x, plates, id, t);
  }

  ghost predicate TurnsAlong(trig: Trig, x: Vec, plates: nat, id: nat, t: real)
    requires |x| == DIM && plates > 0
  {
    var p, q, J := PlateAt(trig, x, plates, id), PlateAt(trig, x[6 := x[6] + t], plates, id), Jacobian(trig, x, plates, id);
    && q.x - p.x == Times(J.row[0][6], trig.sin(t)) + Times(1.0 - trig.cos(t), x[0] - p.x)
    && q.y - p.y == Times(J.row[1][6], trig.sin(t)) + Times(1.0 - trig.cos(t), x[2] - p.y)
    && q.z == p.z
  }

  lemma TurnsBySum(trig: Trig, x: Vec, plates: nat, id: nat, t: real)
    requires |x| == DIM && plates > 0
    requires var a := x[6] + Part(id, plates);
      && trig.cos(Wrap(a + t)) == Times(trig.cos(Wrap(a)), trig.cos(t)) - Times(trig.sin(Wrap(a)), trig.sin(t))
      && trig.sin(Wrap(a + t)) == Times(trig.sin(Wrap(a)), trig.cos(t)) + Times(trig.cos(Wrap(a)), trig.sin(t))
    ensures TurnsAlong(trig, x, plates, id, t)
  {
    var a, r := x[6] + Part(id, plates), PlateRadius(x, plates, id);
    TurnedPlate(trig, x, plates, id, t);
    AngleColumn(trig, x, plates, id);
    TurnX(r, trig.cos(Wrap(a)), trig.sin(Wrap(a)), trig.cos(t), trig.sin(t), x[0]);
    TurnY(r, trig.cos(Wrap(a)), trig.sin(Wrap(a)), trig.cos(t), trig.sin(t), x[2]);
  }

  lemma TurnedPlate(trig: Trig, x: Vec, plates: nat, id: nat, t: real)
    requires |x| == DIM && plates > 0
    ensures var a, r, q := x[6] + Part(id, plates), PlateRadius(x, plates, id), PlateAt(trig, x[6 := x[6] + t], plates, id);
      && q.x == x[0] - Times(r, trig.cos(Wrap(a + t))) && q.y == x[2] - Times(r, trig.sin(Wrap(a + t)))
      && q.z == PlateAt(trig, x, plates, id).z
  {
    assert x[6] + t + Part(id, plates) == x[6] + Part(id, plates) + t;
  }

  lemma AngleColumn(trig: Trig, x: Vec, plates: nat, id: nat)
    requires |x| == DIM && plates > 0
    ensures var a, r, J := PlateAngle(x, plates, id), PlateRadius(x, plates, id), Jacobian(trig, x, plates, id);
      J.row[0][6] == Times(r, trig.sin(a)) && J.row[1][6] == -Times(r, trig.cos(a))
  {
    var a, r := PlateAngle(x, plates, id), PlateRadius(x, plates, id);
    TimesLaws(0.0, Times(r, trig.sin(a)), 0.0, 0.0);
    TimesLaws(0.0, -Times(r, trig.cos(a)), 0.0, 0.0);
    TimesLaws(0.0, -trig.cos(a), 0.0, 0.0);
    TimesLaws(0.0, -trig.sin(a), 0.0, 0.0);
    TimesLaws(0.0, -Times(Second(plates, id), trig.cos(a)), 0.0, 0.0);
    TimesLaws(0.0, -Times(Second(plates, id), trig.sin(a)), 0.0, 0.0);
  }

  lemma TurnX(r: real, c: real, s: real, ct: real, st: real, x: real)
    ensures (x - Times(r, Times(c, ct) - Times(s, st))) - (x - Times(r, c)) ==
            Times(Times(r, s), st) + Times(1.0 - ct, x - (x - Times(r, c)))
  {
    assert r * (c * ct - s * st) == r * c * ct - r * s * st;
    assert (1.0 - ct) * (r * c) == r * c - r * c * ct;
  }

  lemma TurnY(r: real, c: real, s: real, ct: real, st: real, y: real)
    ensures (y - Times(r, Times(s, ct) + Times(c, st))) - (y - Times(r, s)) ==
            Times(-Times(r, c), st) + Times(1.0 - ct, y - (y - Times(r, s)))
  {
    assert r * (s * ct + c * st) == r * s * ct + r * c * st;
    assert (1.0 - ct) * (r * s) == r * s - r * s * ct;
    assert -(r * c) * st == -(r * c * st);
  }
}
