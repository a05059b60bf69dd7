/** The choice of the plate to aim at: choose_aim_point of tasks/auto_aim/aimer.cpp
    over the plate angles of tasks/auto_aim/target.cpp.  The yaw of the centre,
    an arc tangent, is an input. */
module Aimer {
  import opened Basics
  import opened Angle
  import opened Armor

  /** What the choice reads: state entries 6 (angle), 7 (spin) and 8 (radius). */
  datatype AimTarget = AimTarget(
    name: ArmorName, jumped: bool, plates: nat, angle: real, spin: real, radius: real, centerYaw: real)

  datatype AimPoint = AimPoint(valid: bool, plate: nat)

  const VISIBLE: real := 60.0 / 57.3

  // ----- Plate angles -----

  /** The angle between a plate and the line to the centre. */
  function DeltaAngle(t: AimTarget, i: nat): (r: real)
    requires i < t.plates
    ensures -PI < r <= PI
  {
    Wrap(Wrap(t.angle + Part(i, t.plates)) - t.centerYaw)
  }

  function DeltaAngles(t: AimTarget): (r: seq<real>)
    ensures |r| == t.plates && forall i :: 0 <= i < t.plates ==> r[i] == DeltaAngle(t, i)
  {
    seq(t.plates, i requires 0 <= i < t.plates => DeltaAngle(t, i))
  }

  predicate Visible(delta: real) { Abs(delta) <= VISIBLE }

  /** The visible plates, in order. */
  function VisibleIds(deltas: seq<real>): (ids: seq<nat>)
    ensures forall k :: 0 <= k < |ids| ==> ids[k] < |deltas| && Visible(deltas[ids[k]])
    ensures forall j, k :: 0 <= j < k < |ids| ==> ids[j] < ids[k]
  {
    if deltas == [] then []
    else
      var n := |deltas| - 1;
      VisibleIds(deltas[..n]) + if Visible(deltas[n]) then [n] else []
  }

  lemma {:induction false} VisibleAreListed(deltas: seq<real>, i: nat)
    requires i < |deltas| && Visible(deltas[i])
    ensures i in VisibleIds(deltas)
  {
    var n := |deltas| - 1;
    if i < n { VisibleAreListed(deltas[..n], i); }
  }

  // ----- How many plates are visible -----

  /** The misalignment of the whole ring of n plates, n times enlarged. */
  function Misalignment(t: AimTarget): real { Abs(Wrap(Copies(t.plates, t.angle - t.centerYaw))) }

  function Copies(n: nat, y: real): real { (n as real) * y }

  lemma WrapShrinks(y: real)
    ensures Abs(Wrap(y)) <= Abs(y)
  {
    if -PI < y <= PI { WrapIdle(y); }
  }

  lemma WrapDifference(a: real, part: real, c: real)
    ensures Wrap(Wrap(a + part) - c) == Wrap(a - c + part)
  {
    WrapAdd(a + part, -c);
    assert Wrap(a + part) + -c == Wrap(a + part) - c;
    assert a + part + -c == a - c + part;
  }

  /** n copies of a plate angle make a whole number of turns past n copies of phi. */
  lemma CopiesOfPlate(n: nat, phi: real, i: nat, k: int)
    requires n > 0
    ensures Copies(n, Turned(phi + Part(i, n), k)) == Turned(Copies(n, phi), i + k * n)
  {
    var x, y, z := n as real, i as real, k as real;
    assert (i + k * n) as real == y + z * x;
    assert x * (y * TWO_PI / x) == y * TWO_PI;
    Distribute(x, phi, y * TWO_PI / x, TWO_PI * z);
    assert x * (TWO_PI * z) == TWO_PI * (z * x);
  }

  lemma Distribute(x: real, a: real, b: real, c: real)
    ensures x * (a + b + c) == x * a + x * b + x * c
  {
  }

  lemma CopiesOrder(n: nat, y: real, z: real)
    requires n > 0
    ensures Abs(Copies(n, y)) == Copies(n, Abs(y))
    ensures Copies(n, y) <= Copies(n, z) <==> y <= z
  {
    var x := n as real;
    if y <= z { assert x * y <= x * z; } else { assert x * y > x * z; }
  }

  lemma VisibleOnlyIfAligned(t: AimTarget, i: nat)
    requires i < t.plates && Visible(DeltaAngle(t, i))
    ensures Misalignment(t) <= Copies(t.plates, VISIBLE)
  {
    AlignedAtBest(t, i);
    CopiesOrder(t.plates, Abs(DeltaAngle(t, i)), VISIBLE);
  }

  lemma BoundedBy(x: real, y: real, m: int)
    requires y == Turned(x, m)
    ensures Abs(Wrap(x)) <= Abs(y)
  {
    WrapCongruent(x, y);
    WrapShrinks(y);
  }

  /** The plate nearest to the line of sight. */
  lemma NearestPlate(t: AimTarget) returns (i: nat)
    requires t.plates > 0
    ensures i < t.plates && Copies(t.plates, Abs(DeltaAngle(t, i))) == Misalignment(t)
  {
    var n, phi := t.plates, t.angle - t.centerYaw;
    var m := Turns(Copies(n, phi));
    var k;
    i, k := DivideTurns(m, n);
    var part := Part(i, n);
    CopiesOfPlate(n, phi, i, k);
    var d := Turned(phi + part, k);
    assert Copies(n, d) == Turned(Copies(n, phi), m) == Wrap(Copies(n, phi));
    InRange(n, d);
    WrapUnique(phi + part, k);
    WrapDifference(t.angle, part, t.centerYaw);
    CopiesOrder(n, d, 0.0);
  }

  lemma DivideTurns(m: int, n: nat) returns (i: nat, k: int)
    requires n > 0
    ensures i < n && i + k * n == m
  {
    i, k := m % n, m / n;
  }

  lemma InRange(n: nat, d: real)
    requires n > 0 && -PI < Copies(n, d) <= PI
    ensures -PI < d <= PI
  {
    var x := n as real;
    if d > 0.0 { assert x * d >= d; } else { assert x * d <= d; }
  }

  /** Some plate is visible exactly when the ring is aligned well enough. */
  lemma SomeVisibleIff(t: AimTarget)
    requires t.plates > 0
    ensures VisibleIds(DeltaAngles(t)) != [] <==> Misalignment(t) <= Copies(t.plates, 60.0 / 57.3)
  {
    var ids := VisibleIds(DeltaAngles(t));
    if ids != [] {
      VisibleOnlyIfAligned(t, ids[0]);
    }
    if Misalignment(t) <= Copies(t.plates, VISIBLE) {
      var i := NearestPlate(t);
      CopiesOrder(t.plates, Abs(DeltaAngle(t, i)), VISIBLE);
      VisibleAreListed(DeltaAngles(t), i);
    }
  }

  lemma HalfTurnWrap(y: real)
    ensures Visible(Wrap(y)) ==> !Visible(Wrap(y + PI))
  {
    WrapAdd(y, PI);
    var w := Wrap(y);
    if Visible(w) {
      assert w + PI == Turned(w + PI, 0) && w - PI == Turned(w + PI, -1);
      if w <= 0.0 { WrapUnique(w + PI, 0); } else { WrapUnique(w + PI, -1); }
    }
  }

  /** Opposite plates are never both visible. */
  lemma OppositePlates(t: AimTarget, i: nat)
    requires t.plates == 4 && i < 2
    ensures !(Visible(DeltaAngle(t, i)) && Visible(DeltaAngle(t, i + 2)))
  {
    var phi := t.angle - t.centerYaw;
    WrapDifference(t.angle, Part(i, 4), t.centerYaw);
    WrapDifference(t.angle, Part(i + 2, 4), t.centerYaw);
    assert Part(i + 2, 4) == Part(i, 4) + PI;
    assert phi + Part(i + 2, 4) == phi + Part(i, 4) + PI;
    HalfTurnWrap(phi + Part(i, 4));
  }

  lemma FourPlatesShowOneOrTwo(t: AimTarget)
    requires t.plates == 4
    ensures 1 <= |VisibleIds(DeltaAngles(t))| <= 2
  {
    SomeVisibleIff(t);
    var ids := VisibleIds(DeltaAngles(t));
    forall j, k | 0 <= j < |ids| && 0 <= k < |ids| ensures ids[k] != ids[j] + 2 {
      if ids[k] == ids[j] + 2 { OppositePlates(t, ids[j]); }
    }
    AtMostTwo(ids);
  }

  lemma AtMostTwo(ids: seq<nat>)
    requires forall k :: 0 <= k < |ids| ==> ids[k] < 4
    requires forall j, k :: 0 <= j < k < |ids| ==> ids[j] < ids[k]
    requires forall j, k :: 0 <= j < |ids| && 0 <= k < |ids| ==> ids[k] != ids[j] + 2
    ensures |ids| <= 2
  {
    if |ids| >= 3 { Spread(ids); }
  }

  lemma Spread(ids: seq<nat>)
    requires |ids| >= 3 && forall j, k :: 0 <= j < k < |ids| ==> ids[j] < ids[k]
    requires forall j, k :: 0 <= j < |ids| && 0 <= k < |ids| ==> ids[k] != ids[j] + 2
    ensures ids[2] >= ids[0] + 4
  {
    assert ids[0] < ids[1] < ids[2];
  }

  // ----- The choice -----

  /** The choice for a calm target and the lock it leaves. */
  function Calmly(lock: int, deltas: seq<real>): (AimPoint, int) {
    var ids := VisibleIds(deltas);
    if |ids| == 0 then (AimPoint(false, 0), lock)
    else if |ids| == 1 then (AimPoint(true, ids[0]), -1)
    else
      var kept := if lock == ids[0] || lock == ids[1] then lock as nat
                  else if Abs(deltas[ids[0]]) < Abs(deltas[ids[1]]) then ids[0] else ids[1];
      (AimPoint(true, kept), kept)
  }

  /** A plate of a spinning target that is coming into view. */
  predicate Coming(spin: real, delta: real, coming: real, leaving: real) {
    Abs(delta) <= coming && ((spin > 0.0 && delta < leaving) || (spin < 0.0 && delta > -leaving))
  }

  function FirstComing(spin: real, deltas: seq<real>, coming: real, leaving: real, i: nat): (r: AimPoint)
    requires i <= |deltas|
    ensures r.valid ==> i <= r.plate < |deltas| && Coming(spin, deltas[r.plate], coming, leaving)
    ensures !r.valid ==> r.plate == 0
    ensures forall k :: i <= k < (if r.valid then r.plate else |deltas|) ==> !Coming(spin, deltas[k], coming, leaving)
    decreases |deltas| - i
  {
    if i == |deltas| then AimPoint(false, 0)
    else if Coming(spin, deltas[i], coming, leaving) then AimPoint(true, i)
    else FirstComing(spin, deltas, coming, leaving, i + 1)
  }

  class Aimer {
    var lockId: int
    const comingAngle: real
    const leavingAngle: real

    constructor (coming: real, leaving: real)
      ensures lockId == -1 && comingAngle == coming && leavingAngle == leaving
    {
      lockId, comingAngle, leavingAngle := -1, coming, leaving;
    }

    /** Before a jump only the current plate is known.  A calm target shows a
        visible plate if it has one, by the lock rule.  A spinning one, or an
        outpost with its own limits, shows its first plate coming into view. */
    method ChooseAimPoint(t: AimTarget) returns (r: AimPoint)
      requires t.plates > 0
      modifies this
      ensures !t.jumped ==> r == AimPoint(true, 0) && lockId == old(lockId)
      ensures t.jumped && Abs(t.radius) <= 2.0 && t.name != Outpost ==>
        (r, lockId) == Calmly(old(lockId), DeltaAngles(t))
      ensures t.jumped && (Abs(t.radius) > 2.0 || t.name == Outpost) ==> lockId == old(lockId)
      ensures t.jumped && t.name == Outpost ==> r == FirstComing(t.spin, DeltaAngles(t), 70.0 / 57.3, 30.0 / 57.3, 0)
      ensures t.jumped && t.name != Outpost && Abs(t.radius) > 2.0 ==>
        r == FirstComing(t.spin, DeltaAngles(t), comingAngle, leavingAngle, 0)
    {
      if !t.jumped { return AimPoint(true, 0); }
      var deltas := ListDeltas(t);
      if Abs(t.radius) <= 2.0 && t.name != Outpost {
        r := ChooseCalmly(deltas);
        return;
      }
      var coming, leaving := comingAngle, leavingAngle;
      if t.name == Outpost {
        coming, leaving := 70.0 / 57.3, 30.0 / 57.3;
      }
      r := ChooseComing(t.spin, deltas, coming, leaving);
    }

    method ChooseCalmly(deltas: seq<real>) returns (r: AimPoint)
      modifies this
      ensures (r, lockId) == Calmly(old(lockId), deltas)
    {
      var ids: seq<nat> := [];
      for i := 0 to |deltas|
        invariant ids == VisibleIds(deltas[..i])
        invariant lockId == old(lockId)
      {
        assert deltas[..i + 1][..i] == deltas[..i];
        if Abs(deltas[i]) > VISIBLE { continue; }
        ids := ids + [i];
      }
      assert deltas[..|deltas|] == deltas;
      if ids == [] { return AimPoint(false, 0); }
      if |ids| > 1 {
        var id0, id1 := ids[0], ids[1];
        if lockId != id0 && lockId != id1 {
          lockId := if Abs(deltas[id0]) < Abs(deltas[id1]) then id0 else id1;
        }
        return AimPoint(true, lockId);
      }
      lockId := -1;
      return AimPoint(true, ids[0]);
    }
  }

  method ListDeltas(t: AimTarget) returns (deltas: seq<real>)
    ensures deltas == DeltaAngles(t)
  {
    deltas := [];
    for i := 0 to t.plates
      invariant |deltas| == i && forall k :: 0 <= k < i ==> deltas[k] == DeltaAngle(t, k)
    {
      var plate := LimitRad(t.angle + Part(i, t.plates));
      var delta := LimitRad(plate - t.centerYaw);
      deltas := deltas + [delta];
    }
  }

  method ChooseComing(spin: real, deltas: seq<real>, coming: real, leaving: real) returns (r: AimPoint)
    ensures r == FirstComing(spin, deltas, coming, leaving, 0)
  {
    for i := 0 to |deltas|
      invariant FirstComing(spin, deltas, coming, leaving, 0) == FirstComing(spin, deltas, coming, leaving, i)
    {
      if Abs(deltas[i]) > coming { continue; }
      if spin > 0.0 && deltas[i] < leaving { return AimPoint(true, i); }
      if spin < 0.0 && deltas[i] > -leaving { return AimPoint(true, i); }
    }
    return AimPoint(false, 0);
  }

  // ----- What the choice promises -----

  /** The only visible plate is chosen, and the lock given up. */
  lemma OnlyOneIsChosen(lock: int, deltas: seq<real>)
    requires |VisibleIds(deltas)| == 1
    ensures Calmly(lock, deltas) == (AimPoint(true, VisibleIds(deltas)[0]), -1)
  {
  }

  /** A plate of a target that spins to the left is coming into view from the right, and
      the other way round; of one that does not spin, none is. */
  lemma ComingIff(spin: real, delta: real, coming: real, leaving: real)
    ensures spin > 0.0 ==> (Coming(spin, delta, coming, leaving) <==> -coming <= delta <= coming && delta < leaving)
    ensures spin < 0.0 ==> (Coming(spin, delta, coming, leaving) <==> -coming <= delta <= coming && -leaving < delta)
    ensures spin == 0.0 ==> !Coming(spin, delta, coming, leaving)
  {
  }

  /** A plate that is coming into view stays so, while the target turns on by d in the
      direction of its spin, exactly until it has passed one of the two limits. */
  lemma ComingUntilItLeaves(spin: real, delta: real, coming: real, leaving: real, d: real)
    requires Coming(spin, delta, coming, leaving) && d >= 0.0
    ensures spin > 0.0 ==> (Coming(spin, delta + d, coming, leaving) <==> delta + d <= coming && delta + d < leaving)
    ensures spin < 0.0 ==> (Coming(spin, delta - d, coming, leaving) <==> d - delta <= coming && d - delta < leaving)
    ensures Coming(-spin, -delta, coming, leaving) && spin != 0.0
  {
  }

  /** A four-plate target always gets a valid plate that can be seen. */
  lemma FourPlatesAlwaysAimed(lock: int, t: AimTarget)
    requires t.plates == 4
    ensures var r := Calmly(lock, DeltaAngles(t)).0;
      r.valid && r.plate < 4 && Visible(DeltaAngle(t, r.plate))
  {
    FourPlatesShowOneOrTwo(t);
  }

  /** Without a lock on either of the first two visible plates, the one nearer to the
      line of sight is chosen and locked; of two equally near ones the second. */
  lemma NearerIsChosen(lock: int, deltas: seq<real>)
    requires |VisibleIds(deltas)| >= 2 && lock != VisibleIds(deltas)[0] && lock != VisibleIds(deltas)[1]
    ensures var ids, (r, kept) := VisibleIds(deltas), Calmly(lock, deltas);
      && r.valid && kept == r.plate && (r.plate == ids[0] || r.plate == ids[1])
      && Abs(deltas[r.plate]) <= Abs(deltas[ids[0]]) && Abs(deltas[r.plate]) <= Abs(deltas[ids[1]])
      && (Abs(deltas[ids[0]]) == Abs(deltas[ids[1]]) ==> r.plate == ids[1])
  {
  }

  /** So the plate of a four-plate target that is chosen without a lock is the nearest of
      all, as near as the alignment of the ring allows. */
  lemma FourPlatesNearest(lock: int, t: AimTarget)
    requires t.plates == 4
    requires var ids := VisibleIds(DeltaAngles(t)); |ids| == 2 ==> lock != ids[0] && lock != ids[1]
    ensures var r := Calmly(lock, DeltaAngles(t)).0;
      && r.plate < 4 && Copies(4, Abs(DeltaAngle(t, r.plate))) == Misalignment(t)
      && forall i :: 0 <= i < 4 ==> Abs(DeltaAngle(t, r.plate)) <= Abs(DeltaAngle(t, i))
  {
    var deltas := DeltaAngles(t);
    var ids, r := VisibleIds(deltas), Calmly(lock, deltas).0;
    FourPlatesShowOneOrTwo(t);
    if |ids| == 2 { NearerIsChosen(lock, deltas); }
    forall i | 0 <= i < 4 ensures Abs(DeltaAngle(t, r.plate)) <= Abs(DeltaAngle(t, i)) {
      if Visible(deltas[i]) {
        VisibleAreListed(deltas, i);
        assert i in ids;
      }
    }
    var n := NearestPlate(t);
    AlignedAtBest(t, r.plate);
    CopiesOrder(4, Abs(DeltaAngle(t, r.plate)), Abs(DeltaAngle(t, n)));
  }

  /** No plate is nearer than the alignment of the ring. */
  lemma AlignedAtBest(t: AimTarget, i: nat)
    requires i < t.plates
    ensures Misalignment(t) <= Copies(t.plates, Abs(DeltaAngle(t, i)))
  {
    var n, phi, part := t.plates, t.angle - t.centerYaw, Part(i, t.plates);
    WrapDifference(t.angle, part, t.centerYaw);
    var k, d := Turns(phi + part), DeltaAngle(t, i);
    CopiesOfPlate(n, phi, i, k);
    BoundedBy(Copies(n, phi), Copies(n, d), i + k * n);
    CopiesOrder(n, d, 0.0);
  }

  /** For any number of plates, the choice fails exactly when the ring is not
      aligned well enough. */
  lemma AimFailsIff(lock: int, t: AimTarget)
    requires t.plates > 0
    ensures !Calmly(lock, DeltaAngles(t)).0.valid <==> Misalignment(t) > Copies(t.plates, 60.0 / 57.3)
    ensures var (r, kept) := Calmly(lock, DeltaAngles(t)); !r.valid ==> r.plate == 0 && kept == lock
  {
    SomeVisibleIff(t);
  }

  /** With three plates the empty list does happen: 57.3 is more than a radian in
      degrees, so that the three sectors leave gaps. */
  lemma ThreePlatesCanMiss(lock: int)
    ensures !Calmly(lock, DeltaAngles(AimTarget(Base, true, 3, PI / 3.0, 0.0, 0.3205, 0.0))).0.valid
  {
    var t := AimTarget(Base, true, 3, PI / 3.0, 0.0, 0.3205, 0.0);
    AimFailsIff(lock, t);
    assert Copies(t.plates, t.angle - t.centerYaw) == PI;
    WrapIdle(PI);
  }

  /** The lock left by a series of calls. */
  function LockAfter(lock: int, calls: seq<seq<real>>): int {
    if calls == [] then lock else Calmly(LockAfter(lock, calls[..|calls| - 1]), calls[|calls| - 1]).1
  }

  /** What the k-th of a series of calls chooses. */
  function Chosen(lock: int, calls: seq<seq<real>>, k: nat): AimPoint
    requires k < |calls|
  {
    Calmly(LockAfter(lock, calls[..k]), calls[k]).0
  }

  /** While the chosen plate stays one of two visible plates, it stays chosen. */
  lemma {:induction false} LockIsStable(lock: int, calls: seq<seq<real>>, j: nat, k: nat)
    requires j <= k < |calls|
    requires forall i :: j <= i <= k ==>
      |VisibleIds(calls[i])| == 2 && Chosen(lock, calls, j).plate in VisibleIds(calls[i])
    ensures Chosen(lock, calls, k) == Chosen(lock, calls, j)
    ensures LockAfter(lock, calls[..k + 1]) == Chosen(lock, calls, j).plate
  {
    assert calls[..k + 1][..k] == calls[..k] && calls[..k + 1][k] == calls[k];
    assert |VisibleIds(calls[k])| == 2;
    if j < k {
      LockIsStable(lock, calls, j, k - 1);
      assert Chosen(lock, calls, j).plate in VisibleIds(calls[k]);
      assert calls[..k - 1 + 1] == calls[..k];
    }
  }

  /** In particular while the same two plates stay visible. */
  lemma SamePairSameChoice(lock: int, calls: seq<seq<real>>, j: nat, k: nat)
    requires j <= k < |calls| && |VisibleIds(calls[j])| == 2
    requires forall i :: j <= i <= k ==> VisibleIds(calls[i]) == VisibleIds(calls[j])
    ensures Chosen(lock, calls, k) == Chosen(lock, calls, j)
  {
    var ids := VisibleIds(calls[j]);
    assert ids[0] in ids && ids[1] in ids;
    LockIsStable(lock, calls, j, k);
  }
}
